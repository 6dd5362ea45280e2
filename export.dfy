/**
 * The shopping-list export of api/views.py.  download_shopping_cart joins the
 * user's shopping-list recipes with their IngredientsRecipe rows, groups the
 * rows by (ingredient name, measurement unit) and sums the amounts, then
 * builds a text document with one line per group.  create_shopping_cart (not
 * routed) renders a list of items in another format.  The group-by is the
 * function Aggregate, proved against the per-key sum Total; the two text
 * builders are loops proved against ExportText and CartText.
 */
module ShoppingExport {
  import opened Schema

  /** One row of the join, as `.values(...)` sees it: the ingredient's name and unit with the row's amount. */
  datatype CartLine = CartLine(name: string, unit: string, amount: int)

  /** One row of the group-by: a (name, unit) key and the summed amount. */
  datatype Group = Group(name: string, unit: string, total: int)

  /** An item handed to create_shopping_cart: name, unit and the value's text. */
  datatype CartItem = CartItem(name: string, unit: string, value: string)

  /** The recipes in a user's shopping list. */
  function Cart(shopping: map<int, Membership>, user: int): (c: set<int>)
    ensures forall r :: r in c <==> Membership(user, r) in shopping.Values
  {
    var c := set k | k in shopping && shopping[k].user == user :: shopping[k].recipe;
    forall r | Membership(user, r) in shopping.Values
      ensures r in c
    {
      ValueHasKey(shopping, Membership(user, r));
    }
    c
  }

  /** The recipe rows whose recipe is in the cart, with the ingredient's name and unit joined in, in table order. */
  function CartLines(rows: seq<IngredientRow>, ingredients: map<int, Ingredient>, cart: set<int>): (ls: seq<CartLine>)
    ensures |ls| <= |rows|
    ensures cart == {} ==> ls == []
    ensures forall k :: 0 <= k < |rows| && InCart(rows[k], ingredients, cart) ==> LineOf(rows[k], ingredients) in ls
    ensures forall l :: l in ls ==> exists k :: 0 <= k < |rows| && InCart(rows[k], ingredients, cart) && l == LineOf(rows[k], ingredients)
  {
    if rows == [] then []
    else
      var init := rows[..|rows| - 1];
      var last := rows[|rows| - 1];
      var before := CartLines(init, ingredients, cart);
      var ls := before + if InCart(last, ingredients, cart) then [LineOf(last, ingredients)] else [];
      assert forall k :: 0 <= k < |init| ==> init[k] == rows[k];
      assert forall l :: l in ls ==> l in before || (InCart(last, ingredients, cart) && l == LineOf(last, ingredients));
      ls
  }

  /** A row joins the cart: its recipe is in the cart and its ingredient exists. */
  predicate InCart(row: IngredientRow, ingredients: map<int, Ingredient>, cart: set<int>)
  {
    row.recipe in cart && row.ingredient in ingredients
  }

  /** The joined line of one row: its ingredient's name and unit, and its amount. */
  function LineOf(row: IngredientRow, ingredients: map<int, Ingredient>): CartLine
    requires row.ingredient in ingredients
  {
    CartLine(ingredients[row.ingredient].name, ingredients[row.ingredient].measurementUnit, row.amount)
  }

  /**
   * The reference sum, stated on the table itself: the amounts of the rows
   * whose recipe is in the cart and whose ingredient has the given name and unit.
   */
  function RowSum(rows: seq<IngredientRow>, ingredients: map<int, Ingredient>, cart: set<int>, name: string, unit: string): int
  {
    if rows == [] then 0
    else
      var last := rows[|rows| - 1];
      RowSum(rows[..|rows| - 1], ingredients, cart, name, unit)
        + if InCart(last, ingredients, cart) && ingredients[last.ingredient].name == name
             && ingredients[last.ingredient].measurementUnit == unit
          then last.amount else 0
  }

  /** Summing the joined lines of a key is summing the matching rows of the table. */
  lemma {:induction false} CartLinesTotal(rows: seq<IngredientRow>, ingredients: map<int, Ingredient>, cart: set<int>, name: string, unit: string)
    ensures Total(CartLines(rows, ingredients, cart), name, unit) == RowSum(rows, ingredients, cart, name, unit)
  {
    if rows != [] {
      var init := rows[..|rows| - 1];
      var last := rows[|rows| - 1];
      CartLinesTotal(init, ingredients, cart, name, unit);
      var before := CartLines(init, ingredients, cart);
      if InCart(last, ingredients, cart) {
        var ls := before + [LineOf(last, ingredients)];
        assert ls[..|ls| - 1] == before;
      } else {
        assert CartLines(rows, ingredients, cart) == before;
      }
    }
  }

  predicate SameKey(l: CartLine, name: string, unit: string)
  {
    l.name == name && l.unit == unit
  }

  /** The sum of amount over the lines with key (name, unit): the `Sum("amount")` of one group. */
  function Total(lines: seq<CartLine>, name: string, unit: string): int
  {
    if lines == [] then 0
    else Total(lines[..|lines| - 1], name, unit) + (if SameKey(lines[|lines| - 1], name, unit) then lines[|lines| - 1].amount else 0)
  }

  /** Some line has key (name, unit). */
  predicate HasLine(lines: seq<CartLine>, name: string, unit: string)
  {
    exists k :: 0 <= k < |lines| && SameKey(lines[k], name, unit)
  }

  /** Some group has key (name, unit). */
  predicate HasGroup(groups: seq<Group>, name: string, unit: string)
  {
    exists k :: 0 <= k < |groups| && groups[k].name == name && groups[k].unit == unit
  }

  /** No two groups share a key. */
  predicate KeysDistinct(groups: seq<Group>)
  {
    forall a, b :: 0 <= a < b < |groups| ==> groups[a].name != groups[b].name || groups[a].unit != groups[b].unit
  }

  /** The sum of the totals of the groups with key (name, unit). */
  function GroupTotal(groups: seq<Group>, name: string, unit: string): int
  {
    if groups == [] then 0
    else (if groups[0].name == name && groups[0].unit == unit then groups[0].total else 0) + GroupTotal(groups[1..], name, unit)
  }

  /** Adds one line to the groups: to the group with its key, or as a new group at the end. */
  function AddLine(groups: seq<Group>, l: CartLine): (r: seq<Group>)
    ensures |groups| <= |r| <= |groups| + 1
  {
    if groups == [] then [Group(l.name, l.unit, l.amount)]
    else if groups[0].name == l.name && groups[0].unit == l.unit then [Group(l.name, l.unit, groups[0].total + l.amount)] + groups[1..]
    else [groups[0]] + AddLine(groups[1..], l)
  }

  /** The group-by-sum over (name, unit), with groups in order of first appearance. */
  function Aggregate(lines: seq<CartLine>): (g: seq<Group>)
    ensures |g| <= |lines|
    ensures g == [] <==> lines == []
  {
    if lines == [] then []
    else AddLine(Aggregate(lines[..|lines| - 1]), lines[|lines| - 1])
  }

  lemma {:induction false} NoGroupNoTotal(groups: seq<Group>, name: string, unit: string)
    requires !HasGroup(groups, name, unit)
    ensures GroupTotal(groups, name, unit) == 0
  {
    if groups != [] {
      NoGroupNoTotal(groups[1..], name, unit);
    }
  }

  /** With distinct keys, the total recorded for a key is the one group's total. */
  lemma {:induction false} GroupTotalIsTotal(groups: seq<Group>, k: int)
    requires KeysDistinct(groups) && 0 <= k < |groups|
    ensures GroupTotal(groups, groups[k].name, groups[k].unit) == groups[k].total
  {
    var g := groups[k];
    var rest := groups[1..];
    if k == 0 {
      NoGroupNoTotal(rest, g.name, g.unit);
    } else {
      assert rest[k - 1] == g;
      GroupTotalIsTotal(rest, k - 1);
    }
  }

  /** Adding a line adds its amount to its key only, creates its key, and keeps the keys distinct. */
  lemma {:induction false} AddLineFacts(groups: seq<Group>, l: CartLine, name: string, unit: string)
    ensures GroupTotal(AddLine(groups, l), name, unit) == GroupTotal(groups, name, unit) + (if SameKey(l, name, unit) then l.amount else 0)
    ensures HasGroup(AddLine(groups, l), name, unit) <==> HasGroup(groups, name, unit) || SameKey(l, name, unit)
    ensures KeysDistinct(groups) ==> KeysDistinct(AddLine(groups, l))
  {
    var r := AddLine(groups, l);
    if groups == [] {
      assert r[0].name == l.name && r[0].unit == l.unit;
    } else {
      var g := groups[0];
      var rest := groups[1..];
      if g.name == l.name && g.unit == l.unit {
        assert r[1..] == rest;
        assert r[0].name == g.name && r[0].unit == g.unit;
        forall k | 1 <= k < |r|
          ensures r[k] == groups[k]
        {
        }
        HasGroupSplit(groups);
        HasGroupSplit(r);
      } else {
        AddLineFacts(rest, l, name, unit);
        assert r[1..] == AddLine(rest, l);
        HasGroupSplit(groups);
        HasGroupSplit(r);
        if KeysDistinct(groups) {
          assert KeysDistinct(rest) by {
            forall a, b | 0 <= a < b < |rest|
              ensures rest[a].name != rest[b].name || rest[a].unit != rest[b].unit
            {
              assert rest[a] == groups[a + 1] && rest[b] == groups[b + 1];
            }
          }
          var tail := AddLine(rest, l);
          assert !HasGroup(rest, g.name, g.unit) by {
            forall k | 0 <= k < |rest|
              ensures rest[k].name != g.name || rest[k].unit != g.unit
            {
              assert rest[k] == groups[k + 1];
            }
          }
          AddLineFacts(rest, l, g.name, g.unit);
          assert !HasGroup(tail, g.name, g.unit);
          forall a, b | 0 <= a < b < |r|
            ensures r[a].name != r[b].name || r[a].unit != r[b].unit
          {
            if a == 0 {
              assert r[b] == tail[b - 1];
            } else {
              assert r[a] == tail[a - 1] && r[b] == tail[b - 1];
            }
          }
        }
      }
    }
  }

  /** A key is among the groups exactly when it is the first group's key or among the others. */
  lemma HasGroupSplit(groups: seq<Group>)
    requires groups != []
    ensures forall name, unit :: HasGroup(groups, name, unit) <==>
      ((groups[0].name == name && groups[0].unit == unit) || HasGroup(groups[1..], name, unit))
  {
    forall name, unit | HasGroup(groups, name, unit) && !(groups[0].name == name && groups[0].unit == unit)
      ensures HasGroup(groups[1..], name, unit)
    {
      var k :| 0 <= k < |groups| && groups[k].name == name && groups[k].unit == unit;
      assert groups[1..][k - 1] == groups[k];
    }
    forall name, unit | HasGroup(groups[1..], name, unit)
      ensures HasGroup(groups, name, unit)
    {
      var k :| 0 <= k < |groups[1..]| && groups[1..][k].name == name && groups[1..][k].unit == unit;
      assert groups[k + 1] == groups[1..][k];
    }
  }

  /**
   * The group-by is correct: one group per (name, unit) key that some line has,
   * no group for any other key, and each group's total is the sum of the
   * amounts of the lines with its key.
   */
  lemma {:induction false} AggregateCorrect(lines: seq<CartLine>, name: string, unit: string)
    ensures KeysDistinct(Aggregate(lines))
    ensures HasGroup(Aggregate(lines), name, unit) <==> HasLine(lines, name, unit)
    ensures GroupTotal(Aggregate(lines), name, unit) == Total(lines, name, unit)
  {
    if lines != [] {
      var init := lines[..|lines| - 1];
      var last := lines[|lines| - 1];
      AggregateCorrect(init, name, unit);
      AddLineFacts(Aggregate(init), last, name, unit);
      if HasLine(init, name, unit) {
        var k :| 0 <= k < |init| && SameKey(init[k], name, unit);
        assert lines[k] == init[k];
      }
      if HasLine(lines, name, unit) && !SameKey(last, name, unit) {
        var k :| 0 <= k < |lines| && SameKey(lines[k], name, unit);
        assert init[k] == lines[k];
      }
    }
  }

  /** Each exported group's total is the sum over the lines with its name and unit. */
  lemma AggregateTotals(lines: seq<CartLine>, k: int)
    requires 0 <= k < |Aggregate(lines)|
    ensures Aggregate(lines)[k].total == Total(lines, Aggregate(lines)[k].name, Aggregate(lines)[k].unit)
    ensures HasLine(lines, Aggregate(lines)[k].name, Aggregate(lines)[k].unit)
  {
    var g := Aggregate(lines)[k];
    AggregateCorrect(lines, g.name, g.unit);
    GroupTotalIsTotal(Aggregate(lines), k);
  }

  /**
   * The export's totals stated on the store: the user's cart has a group for
   * (name, unit) exactly when some row of a cart recipe has an ingredient with
   * that name and unit, and the group's total is the sum of those rows' amounts.
   */
  lemma CartGroupTotal(rows: seq<IngredientRow>, ingredients: map<int, Ingredient>, cart: set<int>, name: string, unit: string)
    ensures KeysDistinct(Aggregate(CartLines(rows, ingredients, cart)))
    ensures GroupTotal(Aggregate(CartLines(rows, ingredients, cart)), name, unit) == RowSum(rows, ingredients, cart, name, unit)
    ensures HasGroup(Aggregate(CartLines(rows, ingredients, cart)), name, unit) <==>
      exists k :: 0 <= k < |rows| && InCart(rows[k], ingredients, cart) && SameKey(LineOf(rows[k], ingredients), name, unit)
  {
    var ls := CartLines(rows, ingredients, cart);
    AggregateCorrect(ls, name, unit);
    CartLinesTotal(rows, ingredients, cart, name, unit);
    if HasLine(ls, name, unit) {
      var j :| 0 <= j < |ls| && SameKey(ls[j], name, unit);
      assert ls[j] in ls;
    }
    if exists k :: 0 <= k < |rows| && InCart(rows[k], ingredients, cart) && SameKey(LineOf(rows[k], ingredients), name, unit) {
      var k :| 0 <= k < |rows| && InCart(rows[k], ingredients, cart) && SameKey(LineOf(rows[k], ingredients), name, unit);
      var l := LineOf(rows[k], ingredients);
      assert l in ls;
      var j :| 0 <= j < |ls| && ls[j] == l;
      assert SameKey(ls[j], name, unit);
    }
  }

  /** Grouping is by name and unit, not by ingredient id: two ingredients that share both make one group. */
  lemma GroupsByNameAndUnit()
    ensures Aggregate(CartLines([IngredientRow(1, 10, 5), IngredientRow(2, 11, 3)],
                                map[10 := Ingredient("соль", "г"), 11 := Ingredient("соль", "г")], {1, 2}))
            == [Group("соль", "г", 8)]
  {
    var rows := [IngredientRow(1, 10, 5), IngredientRow(2, 11, 3)];
    var ings := map[10 := Ingredient("соль", "г"), 11 := Ingredient("соль", "г")];
    assert rows[..1] == [IngredientRow(1, 10, 5)];
    assert rows[..1][..0] == [];
    var lines := CartLines(rows, ings, {1, 2});
    assert lines == [CartLine("соль", "г", 5), CartLine("соль", "г", 3)];
    assert lines[..1] == [CartLine("соль", "г", 5)];
    assert lines[..1][..0] == [];
  }

  // ---------------------------------------------------------------------
  // Text rendering

  /** The title of the exported document. */
  const Title: string := "Список покупок:"

  /** The first line of the exported document. */
  const Header: string := Title + "\n"

  /** The first line of create_shopping_cart's document. */
  const CartHeader: string := "список покупок:"

  /** Upper case of the Latin and Cyrillic letters (other characters are their own upper case here). */
  function Upper(c: char): (u: char)
    ensures u == '\n' <==> c == '\n'
  {
    if 'a' <= c <= 'z' then (c as int - 32) as char
    else if 'а' <= c <= 'я' then (c as int - 0x20) as char
    else if 'ѐ' <= c <= 'џ' then (c as int - 0x50) as char
    else c
  }

  /** Lower case of the Latin and Cyrillic letters. */
  function Lower(c: char): (l: char)
    ensures l == '\n' <==> c == '\n'
  {
    if 'A' <= c <= 'Z' then (c as int + 32) as char
    else if 'А' <= c <= 'Я' then (c as int + 0x20) as char
    else if 'Ѐ' <= c <= 'Џ' then (c as int + 0x50) as char
    else c
  }

  /** Python's str.capitalize: the first character upper-cased, the rest lower-cased. */
  function Capitalize(s: string): (c: string)
    ensures |c| == |s|
    ensures s != [] ==> c[0] == Upper(s[0])
    ensures forall k :: 1 <= k < |s| ==> c[k] == Lower(s[k])
    ensures '\n' in c <==> '\n' in s
  {
    if s == [] then []
    else
      var c := [Upper(s[0])] + seq(|s| - 1, k requires 0 <= k < |s| - 1 => Lower(s[k + 1]));
      assert forall k :: 0 <= k < |s| ==> (c[k] == '\n' <==> s[k] == '\n');
      c
  }

  function Digit(d: int): (c: char)
    requires 0 <= d < 10
    ensures '0' <= c <= '9'
  {
    ('0' as int + d) as char
  }

  /** The decimal digits of n. */
  function Decimal(n: nat): (s: string)
    ensures |s| >= 1
    ensures n == 0 ==> s == "0"
    ensures n > 0 ==> s[0] != '0'
    ensures forall k :: 0 <= k < |s| ==> '0' <= s[k] <= '9'
  {
    if n < 10 then [Digit(n)] else Decimal(n / 10) + [Digit(n % 10)]
  }

  /** The value of a decimal digit string. */
  function DecimalValue(s: string): int
  {
    if s == [] then 0 else 10 * DecimalValue(s[..|s| - 1]) + (s[|s| - 1] as int - '0' as int)
  }

  /** Reading the digits back gives the number. */
  lemma {:induction false} DecimalRoundTrip(n: nat)
    ensures DecimalValue(Decimal(n)) == n
  {
    if n >= 10 {
      DecimalRoundTrip(n / 10);
      var s := Decimal(n);
      assert s[..|s| - 1] == Decimal(n / 10);
    }
  }

  /** How Python prints a float that holds a whole number: its digits followed by ".0". */
  function AmountText(n: int): (s: string)
    ensures '\n' !in s
    ensures |s| >= 3 && s[|s| - 2..] == ".0"
  {
    (if n < 0 then "-" + Decimal(-n) else Decimal(n)) + ".0"
  }

  /** One line of the exported document: the capitalized name, the amount and the unit, then a comma and a line break. */
  function GroupLine(g: Group): string
  {
    Capitalize(g.name) + " " + AmountText(g.total) + " " + g.unit + ",\n"
  }

  /** The exported document for the given groups, in order. */
  function ExportText(groups: seq<Group>): (t: string)
    ensures Header <= t
  {
    if groups == [] then Header else ExportText(groups[..|groups| - 1]) + GroupLine(groups[|groups| - 1])
  }

  /** One entry of create_shopping_cart: a line break, the name, the unit in parentheses, a dash and the value. */
  function ItemLine(it: CartItem): string
  {
    "\n" + it.name + " (" + it.unit + ") - " + it.value
  }

  /** create_shopping_cart's document for the given items, in order. */
  function CartText(items: seq<CartItem>): (t: string)
    ensures CartHeader <= t
  {
    if items == [] then CartHeader else CartText(items[..|items| - 1]) + ItemLine(items[|items| - 1])
  }

  /** The text loop of download_shopping_cart. */
  method RenderShoppingCart(groups: seq<Group>) returns (text: string)
    ensures text == ExportText(groups)
  {
    text := Header;
    for i := 0 to |groups|
      invariant text == ExportText(groups[..i])
    {
      assert groups[..i + 1][..i] == groups[..i];
      text := text + GroupLine(groups[i]);
    }
    assert groups[..|groups|] == groups;
  }

  /** The text loop of create_shopping_cart. */
  method CreateShoppingCart(items: seq<CartItem>) returns (text: string)
    ensures text == CartText(items)
  {
    text := CartHeader;
    for i := 0 to |items|
      invariant text == CartText(items[..i])
    {
      assert items[..i + 1][..i] == items[..i];
      text := text + ItemLine(items[i]);
    }
    assert items[..|items|] == items;
  }

  /** Number of occurrences of c in s. */
  function Count(s: string, c: char): nat
  {
    if s == [] then 0 else (if s[0] == c then 1 else 0) + Count(s[1..], c)
  }

  lemma {:induction false} CountAppend(a: string, b: string, c: char)
    ensures Count(a + b, c) == Count(a, c) + Count(b, c)
  {
    if a != [] {
      assert (a + b)[1..] == a[1..] + b;
      CountAppend(a[1..], b, c);
    } else {
      assert a + b == b;
    }
  }

  lemma {:induction false} CountAbsent(s: string, c: char)
    requires c !in s
    ensures Count(s, c) == 0
  {
    if s != [] {
      assert s[1..] <= s || c !in s[1..];
      CountAbsent(s[1..], c);
    }
  }

  /** Names and units hold no line break. */
  predicate SingleLine(groups: seq<Group>)
  {
    forall k :: 0 <= k < |groups| ==> '\n' !in groups[k].name && '\n' !in groups[k].unit
  }

  /** A group's line holds exactly one line break, at its end. */
  lemma GroupLineBreaks(g: Group)
    requires '\n' !in g.name && '\n' !in g.unit
    ensures Count(GroupLine(g), '\n') == 1
    ensures GroupLine(g)[|GroupLine(g)| - 1] == '\n'
  {
    var a := Capitalize(g.name) + " " + AmountText(g.total) + " " + g.unit + ",";
    assert GroupLine(g) == a + "\n";
    assert '\n' !in a;
    CountAbsent(a, '\n');
    CountAppend(a, "\n", '\n');
  }

  /** The document is the header line followed by exactly one line per group. */
  lemma {:induction false} ExportLineCount(groups: seq<Group>)
    requires SingleLine(groups)
    ensures Count(ExportText(groups), '\n') == |groups| + 1
    ensures Header <= ExportText(groups)
  {
    if groups == [] {
      assert '\n' !in Title;
      CountAbsent(Title, '\n');
      CountAppend(Title, "\n", '\n');
    } else {
      var init := groups[..|groups| - 1];
      assert SingleLine(init) by {
        forall k | 0 <= k < |init| ensures '\n' !in init[k].name && '\n' !in init[k].unit {
          assert init[k] == groups[k];
        }
      }
      ExportLineCount(init);
      GroupLineBreaks(groups[|groups| - 1]);
      CountAppend(ExportText(init), GroupLine(groups[|groups| - 1]), '\n');
    }
  }

  /** The lines of the first groups come first: the document for a prefix of the groups is a prefix of the document. */
  lemma {:induction false} ExportInOrder(groups: seq<Group>, k: int)
    requires 0 <= k <= |groups|
    ensures ExportText(groups[..k]) <= ExportText(groups)
    decreases |groups|
  {
    if k < |groups| {
      var init := groups[..|groups| - 1];
      assert groups[..k] == init[..k];
      ExportInOrder(init, k);
      assert ExportText(groups) == ExportText(init) + GroupLine(groups[|groups| - 1]);
    } else {
      assert groups[..k] == groups;
    }
  }

  /** An empty shopping list exports the header alone. */
  lemma EmptyCartExportsHeader(rows: seq<IngredientRow>, ingredients: map<int, Ingredient>)
    ensures ExportText(Aggregate(CartLines(rows, ingredients, {}))) == Header
  {
  }

  /** Fields of the items hold no line break. */
  predicate SingleLineItems(items: seq<CartItem>)
  {
    forall k :: 0 <= k < |items| ==> '\n' !in items[k].name && '\n' !in items[k].unit && '\n' !in items[k].value
  }

  /** create_shopping_cart's document starts with its title and has one line break per item. */
  lemma {:induction false} CartTextLines(items: seq<CartItem>)
    requires SingleLineItems(items)
    ensures Count(CartText(items), '\n') == |items|
    ensures CartHeader <= CartText(items)
  {
    if items == [] {
      CountAbsent(CartHeader, '\n');
    } else {
      var init := items[..|items| - 1];
      var it := items[|items| - 1];
      assert SingleLineItems(init) by {
        forall j | 0 <= j < |init|
          ensures '\n' !in init[j].name && '\n' !in init[j].unit && '\n' !in init[j].value
        {
          assert init[j] == items[j];
        }
      }
      CartTextLines(init);
      var rest := it.name + " (" + it.unit + ") - " + it.value;
      assert ItemLine(it) == "\n" + rest;
      assert '\n' !in rest;
      CountAbsent(rest, '\n');
      CountAppend("\n", rest, '\n');
      CountAppend(CartText(init), ItemLine(it), '\n');
    }
  }

  /** Items keep their input order: the document for the first k items is a prefix of the document. */
  lemma {:induction false} CartTextInOrder(items: seq<CartItem>, k: int)
    requires 0 <= k <= |items|
    ensures CartText(items[..k]) <= CartText(items)
    decreases |items|
  {
    if k < |items| {
      var init := items[..|items| - 1];
      assert items[..k] == init[..k];
      CartTextInOrder(init, k);
    } else {
      assert items[..k] == items;
    }
  }
}
