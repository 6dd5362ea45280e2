/**
 * Recipe composition: RecipeCreateSerializer.create_ingredients
 * (api/serializers.py).  For each submitted item, in order, the loop reads the
 * amount, looks the ingredient up (not found ends the request), and then does
 * an update-or-create of the (recipe, ingredient) row: a new row holds the
 * submitted amount, an existing row gets the submitted amount added to it.
 * Nothing is rolled back when an item fails: rows written for earlier items
 * stay.  The table is the sequence of IngredientsRecipe rows in primary-key
 * order; Compose is the specification the store's loop is proved against.
 */
module Composition {
  import opened Wrappers
  import opened Schema

  /** One element of the submitted "ingredients" list: the ingredient id and, if sent, the amount. */
  datatype PayloadItem = PayloadItem(id: int, amount: Option<Amount>)

  /**
   * MissingAmount: the item has no "amount" key (the model field has a default,
   * so the serializer does not require it, and the lookup at line 179 fails).
   * IngredientNotFound: get_object_or_404 on an unknown ingredient id.
   * MultipleRowsReturned: update_or_create found more than one matching row.
   */
  datatype ComposeError = MissingAmount | IngredientNotFound | MultipleRowsReturned

  /** The table after the loop, and the error that stopped it, if any. */
  datatype Outcome = Outcome(rows: seq<IngredientRow>, error: Option<ComposeError>)

  predicate Matches(row: IngredientRow, r: int, i: int)
  {
    row.recipe == r && row.ingredient == i
  }

  /** Number of rows for the pair (recipe r, ingredient i). */
  function Matching(rows: seq<IngredientRow>, r: int, i: int): (n: nat)
    ensures n <= |rows|
  {
    if rows == [] then 0
    else Matching(rows[..|rows| - 1], r, i) + (if Matches(rows[|rows| - 1], r, i) then 1 else 0)
  }

  /** Total amount stored for the pair (recipe r, ingredient i); 0 when there is no row. */
  function AmountOf(rows: seq<IngredientRow>, r: int, i: int): int
  {
    if rows == [] then 0
    else AmountOf(rows[..|rows| - 1], r, i) + (if Matches(rows[|rows| - 1], r, i) then rows[|rows| - 1].amount else 0)
  }

  /** The rows of every recipe but r, in table order: what `filter(recipe=r).delete()` leaves. */
  function Others(rows: seq<IngredientRow>, r: int): (o: seq<IngredientRow>)
    ensures |o| <= |rows|
    ensures forall k :: 0 <= k < |o| ==> o[k].recipe != r
    ensures forall k :: 0 <= k < |o| ==> o[k] in rows
    ensures forall k :: 0 <= k < |rows| && rows[k].recipe != r ==> rows[k] in o
  {
    if rows == [] then []
    else
      var init := Others(rows[..|rows| - 1], r);
      if rows[|rows| - 1].recipe == r then init else init + [rows[|rows| - 1]]
  }

  /** The invariant update_or_create relies on: at most one row for every (recipe, ingredient) pair. */
  ghost predicate OneRowPerPair(rows: seq<IngredientRow>)
  {
    forall r, i :: Matching(rows, r, i) <= 1
  }

  /** Every row points at an existing recipe and an existing ingredient (the two foreign keys). */
  ghost predicate References(rows: seq<IngredientRow>, recipes: set<int>, ingredients: set<int>)
  {
    forall k :: 0 <= k < |rows| ==> rows[k].recipe in recipes && rows[k].ingredient in ingredients
  }

  /** The rows with amount `a` added to the row(s) of the pair (r, i); the update branch of update_or_create. */
  function Bump(rows: seq<IngredientRow>, r: int, i: int, a: Amount): (b: seq<IngredientRow>)
    ensures |b| == |rows|
  {
    if rows == [] then []
    else
      var last := rows[|rows| - 1];
      Bump(rows[..|rows| - 1], r, i, a) + [if Matches(last, r, i) then IngredientRow(r, i, last.amount + a) else last]
  }

  /**
   * update_or_create(recipe=r, ingredient=i, defaults={"amount": ...}) where the
   * amount is `a` for a new row and `a + F("amount")` for an existing one.
   */
  function Write(rows: seq<IngredientRow>, r: int, i: int, a: Amount): (w: Result<seq<IngredientRow>, ComposeError>)
    ensures w.Err? <==> Matching(rows, r, i) >= 2
    ensures w.Err? ==> w.error == MultipleRowsReturned
    ensures w.Ok? ==> |w.value| == |rows| + (if Matching(rows, r, i) == 0 then 1 else 0)
    ensures w.Ok? ==> KeepsKeys(rows, w.value, r)
  {
    var n := Matching(rows, r, i);
    if n == 0 then Ok(rows + [IngredientRow(r, i, a)])
    else if n == 1 then BumpKeys(rows, r, i, a); Ok(Bump(rows, r, i, a))
    else Err(MultipleRowsReturned)
  }

  /**
   * `after` keeps every row of `before` at its position with its recipe and
   * ingredient (only amounts change), and every row added behind them belongs
   * to recipe r.
   */
  predicate KeepsKeys(before: seq<IngredientRow>, after: seq<IngredientRow>, r: int)
  {
    && |before| <= |after|
    && (forall k :: 0 <= k < |before| ==> after[k].recipe == before[k].recipe && after[k].ingredient == before[k].ingredient)
    && (forall k :: |before| <= k < |after| ==> after[k].recipe == r)
  }

  /** True when the loop body accepts the item: it has an amount and an existing ingredient id. */
  predicate Acceptable(item: PayloadItem, ingredients: set<int>)
  {
    item.amount.Some? && item.id in ingredients
  }

  /** One iteration of the loop of create_ingredients. */
  function Step(rows: seq<IngredientRow>, r: int, ingredients: set<int>, item: PayloadItem): (s: Result<seq<IngredientRow>, ComposeError>)
    ensures item.amount.None? ==> s == Err(MissingAmount)
    ensures item.amount.Some? && item.id !in ingredients ==> s == Err(IngredientNotFound)
    ensures s.Ok? <==> Acceptable(item, ingredients) && Matching(rows, r, item.id) <= 1
    ensures s.Ok? ==> |s.value| <= |rows| + 1 && KeepsKeys(rows, s.value, r)
  {
    match item.amount
    case None => Err(MissingAmount)
    case Some(a) =>
      if item.id !in ingredients then Err(IngredientNotFound)
      else Write(rows, r, item.id, a)
  }

  /** The whole loop, run on the payload in order, stopping at the first failing item. */
  function Compose(rows: seq<IngredientRow>, r: int, ingredients: set<int>, payload: seq<PayloadItem>): (o: Outcome)
    ensures |rows| <= |o.rows| <= |rows| + |payload|
    ensures payload == [] ==> o == Outcome(rows, None)
    decreases |payload|
  {
    if payload == [] then Outcome(rows, None)
    else
      match Step(rows, r, ingredients, payload[0])
      case Err(e) => Outcome(rows, Some(e))
      case Ok(next) => Compose(next, r, ingredients, payload[1..])
  }

  /** The loop never deletes a row or changes a row's pair; the rows it adds belong to recipe r. */
  lemma {:induction false} ComposeKeepsKeys(rows: seq<IngredientRow>, r: int, ingredients: set<int>, payload: seq<PayloadItem>)
    ensures KeepsKeys(rows, Compose(rows, r, ingredients, payload).rows, r)
    decreases |payload|
  {
    if payload != [] {
      match Step(rows, r, ingredients, payload[0])
      case Err(_) =>
      case Ok(next) =>
        ComposeKeepsKeys(next, r, ingredients, payload[1..]);
    }
  }

  /** Sum of the submitted amounts for ingredient i (items without an amount contribute nothing). */
  function PayloadSum(payload: seq<PayloadItem>, i: int): int
  {
    if payload == [] then 0
    else (if payload[0].id == i && payload[0].amount.Some? then payload[0].amount.value else 0) + PayloadSum(payload[1..], i)
  }

  /** True when some submitted item names ingredient i. */
  predicate Mentions(payload: seq<PayloadItem>, i: int)
  {
    exists k :: 0 <= k < |payload| && payload[k].id == i
  }

  // ---------------------------------------------------------------------
  // Facts about single rows operations

  lemma AppendFacts(rows: seq<IngredientRow>, x: IngredientRow, r: int, i: int)
    ensures Matching(rows + [x], r, i) == Matching(rows, r, i) + (if Matches(x, r, i) then 1 else 0)
    ensures AmountOf(rows + [x], r, i) == AmountOf(rows, r, i) + (if Matches(x, r, i) then x.amount else 0)
    ensures Others(rows + [x], r) == if x.recipe == r then Others(rows, r) else Others(rows, r) + [x]
  {
    assert (rows + [x])[..|rows|] == rows;
  }

  /** Bump unfolded once: the last row is bumped when it matches. */
  lemma BumpLast(rows: seq<IngredientRow>, r: int, i: int, a: Amount)
    requires rows != []
    ensures Bump(rows, r, i, a) == Bump(rows[..|rows| - 1], r, i, a) + [BumpRow(rows[|rows| - 1], r, i, a)]
  {
  }

  function BumpRow(row: IngredientRow, r: int, i: int, a: Amount): IngredientRow
  {
    if Matches(row, r, i) then IngredientRow(r, i, row.amount + a) else row
  }

  /** Bump leaves every pair's row count alone. */
  lemma {:induction false} BumpMatching(rows: seq<IngredientRow>, r: int, i: int, a: Amount, r': int, j: int)
    ensures Matching(Bump(rows, r, i, a), r', j) == Matching(rows, r', j)
  {
    if rows != [] {
      var init := rows[..|rows| - 1];
      BumpLast(rows, r, i, a);
      BumpMatching(init, r, i, a, r', j);
      AppendFacts(Bump(init, r, i, a), BumpRow(rows[|rows| - 1], r, i, a), r', j);
    }
  }

  /** When the pair (r, i) has at most one row, Bump adds `a` to its amount if it has one, and changes no other pair's amount. */
  lemma {:induction false} BumpAmount(rows: seq<IngredientRow>, r: int, i: int, a: Amount, r': int, j: int)
    requires Matching(rows, r, i) <= 1
    ensures AmountOf(Bump(rows, r, i, a), r', j) ==
      AmountOf(rows, r', j) + (if r' == r && j == i && Matching(rows, r, i) == 1 then a else 0)
  {
    if rows != [] {
      var init := rows[..|rows| - 1];
      BumpLast(rows, r, i, a);
      BumpAmount(init, r, i, a, r', j);
      AppendFacts(Bump(init, r, i, a), BumpRow(rows[|rows| - 1], r, i, a), r', j);
    }
  }

  /** Bump leaves the other recipes' rows alone. */
  lemma {:induction false} BumpOthers(rows: seq<IngredientRow>, r: int, i: int, a: Amount)
    ensures Others(Bump(rows, r, i, a), r) == Others(rows, r)
  {
    if rows != [] {
      var init := rows[..|rows| - 1];
      BumpLast(rows, r, i, a);
      BumpOthers(init, r, i, a);
      AppendFacts(Bump(init, r, i, a), BumpRow(rows[|rows| - 1], r, i, a), r, i);
    }
  }

  /** Bump keeps the recipe and ingredient of every row. */
  lemma {:induction false} BumpKeys(rows: seq<IngredientRow>, r: int, i: int, a: Amount)
    ensures forall k :: 0 <= k < |rows| ==>
      (Bump(rows, r, i, a)[k].recipe == rows[k].recipe && Bump(rows, r, i, a)[k].ingredient == rows[k].ingredient)
  {
    if rows != [] {
      var init := rows[..|rows| - 1];
      BumpLast(rows, r, i, a);
      BumpKeys(init, r, i, a);
    }
  }

  /** Without the other recipe's rows, recipe r has no rows and no amount. */
  lemma {:induction false} OthersHasNoRowsOf(rows: seq<IngredientRow>, r: int, j: int)
    ensures Matching(Others(rows, r), r, j) == 0
    ensures AmountOf(Others(rows, r), r, j) == 0
  {
    if rows != [] {
      var init := rows[..|rows| - 1];
      OthersHasNoRowsOf(init, r, j);
      if rows[|rows| - 1].recipe != r {
        AppendFacts(Others(init, r), rows[|rows| - 1], r, j);
      }
    }
  }

  /** A recipe with no rows has no amounts, and deleting its rows changes nothing. */
  lemma {:induction false} AbsentRecipe(rows: seq<IngredientRow>, r: int, j: int)
    requires forall k :: 0 <= k < |rows| ==> rows[k].recipe != r
    ensures Matching(rows, r, j) == 0 && AmountOf(rows, r, j) == 0
    ensures Others(rows, r) == rows
  {
    if rows != [] {
      var init := rows[..|rows| - 1];
      AbsentRecipe(init, r, j);
      assert rows == init + [rows[|rows| - 1]];
    }
  }

  /** Deleting recipe r's rows keeps the single-row invariant and the foreign keys. */
  lemma {:induction false} OthersKeepsInvariants(rows: seq<IngredientRow>, r: int, recipes: set<int>, ingredients: set<int>)
    ensures OneRowPerPair(rows) ==> OneRowPerPair(Others(rows, r))
    ensures References(rows, recipes, ingredients) ==> References(Others(rows, r), recipes, ingredients)
  {
    forall r', j
      ensures Matching(Others(rows, r), r', j) <= Matching(rows, r', j)
    {
      OthersMatching(rows, r, r', j);
    }
  }

  lemma {:induction false} OthersMatching(rows: seq<IngredientRow>, r: int, r': int, j: int)
    ensures Matching(Others(rows, r), r', j) <= Matching(rows, r', j)
  {
    if rows != [] {
      var init := rows[..|rows| - 1];
      var last := rows[|rows| - 1];
      OthersMatching(init, r, r', j);
      assert Matching(rows, r', j) == Matching(init, r', j) + (if Matches(last, r', j) then 1 else 0);
      if last.recipe != r {
        AppendFacts(Others(init, r), last, r', j);
      }
    }
  }

  /** Deleting recipe r's rows keeps the rows of every other recipe r': their count and total for each ingredient are unchanged. */
  lemma {:induction false} OthersKeepsOtherRecipes(rows: seq<IngredientRow>, r: int, r': int, j: int)
    requires r' != r
    ensures Matching(Others(rows, r), r', j) == Matching(rows, r', j)
    ensures AmountOf(Others(rows, r), r', j) == AmountOf(rows, r', j)
  {
    if rows != [] {
      var init := rows[..|rows| - 1];
      OthersKeepsOtherRecipes(init, r, r', j);
      if rows[|rows| - 1].recipe != r {
        AppendFacts(Others(init, r), rows[|rows| - 1], r', j);
      }
    }
  }

  /**
   * A successful write adds `a` to the pair (r, i) and to nothing else, touches
   * no other recipe's rows, and keeps the single-row invariant; under that
   * invariant the write cannot fail.
   */
  lemma WriteFacts(rows: seq<IngredientRow>, r: int, i: int, a: Amount)
    ensures Write(rows, r, i, a).Ok? ==>
      && (forall r', j :: AmountOf(Write(rows, r, i, a).value, r', j) ==
            AmountOf(rows, r', j) + (if r' == r && j == i then a else 0))
      && Others(Write(rows, r, i, a).value, r) == Others(rows, r)
      && Matching(Write(rows, r, i, a).value, r, i) >= 1
      && (forall r', j :: !(r' == r && j == i) ==> Matching(Write(rows, r, i, a).value, r', j) == Matching(rows, r', j))
    ensures OneRowPerPair(rows) ==> Write(rows, r, i, a).Ok? && OneRowPerPair(Write(rows, r, i, a).value)
  {
    var n := Matching(rows, r, i);
    var x := IngredientRow(r, i, a);
    if n == 0 {
      forall r', j
        ensures Matching(rows + [x], r', j) == Matching(rows, r', j) + (if r' == r && j == i then 1 else 0)
        ensures AmountOf(rows + [x], r', j) == AmountOf(rows, r', j) + (if r' == r && j == i then a else 0)
      {
        AppendFacts(rows, x, r', j);
      }
      AppendFacts(rows, x, r, i);
    } else if n == 1 {
      forall r', j
        ensures Matching(Bump(rows, r, i, a), r', j) == Matching(rows, r', j)
        ensures AmountOf(Bump(rows, r, i, a), r', j) == AmountOf(rows, r', j) + (if r' == r && j == i then a else 0)
      {
        BumpMatching(rows, r, i, a, r', j);
        BumpAmount(rows, r, i, a, r', j);
      }
      BumpOthers(rows, r, i, a);
    }
  }

  /** A write for an existing recipe and an existing ingredient keeps both foreign keys. */
  lemma WriteKeepsReferences(rows: seq<IngredientRow>, r: int, i: int, a: Amount, recipes: set<int>, ingredients: set<int>)
    requires References(rows, recipes, ingredients) && r in recipes && i in ingredients
    ensures Write(rows, r, i, a).Ok? ==> References(Write(rows, r, i, a).value, recipes, ingredients)
  {
    if Matching(rows, r, i) == 1 {
      BumpKeys(rows, r, i, a);
    }
  }

  // ---------------------------------------------------------------------
  // Properties of the whole loop

  /** create_ingredients changes only rows of the given recipe: the other recipes' rows are kept, in order. */
  lemma {:induction false} ComposeOnlyTouchesRecipe(rows: seq<IngredientRow>, r: int, ingredients: set<int>, payload: seq<PayloadItem>)
    ensures Others(Compose(rows, r, ingredients, payload).rows, r) == Others(rows, r)
    decreases |payload|
  {
    if payload != [] {
      var item := payload[0];
      if Step(rows, r, ingredients, item).Ok? {
        WriteFacts(rows, r, item.id, item.amount.value);
        ComposeOnlyTouchesRecipe(Step(rows, r, ingredients, item).value, r, ingredients, payload[1..]);
      }
    }
  }

  /**
   * When the loop completes, the amount stored for each ingredient of recipe r
   * is the amount stored before plus the sum of the submitted amounts with that
   * id (repeated ids accumulate); an ingredient the payload names has a row,
   * one it does not name keeps the rows it had.
   */
  lemma {:induction false} ComposeAccumulates(rows: seq<IngredientRow>, r: int, ingredients: set<int>, payload: seq<PayloadItem>, j: int)
    requires Compose(rows, r, ingredients, payload).error == None
    ensures AmountOf(Compose(rows, r, ingredients, payload).rows, r, j) == AmountOf(rows, r, j) + PayloadSum(payload, j)
    ensures Mentions(payload, j) ==> Matching(Compose(rows, r, ingredients, payload).rows, r, j) >= 1
    ensures !Mentions(payload, j) ==> Matching(Compose(rows, r, ingredients, payload).rows, r, j) == Matching(rows, r, j)
    decreases |payload|
  {
    if payload != [] {
      var item := payload[0];
      var next := Step(rows, r, ingredients, item).value;
      WriteFacts(rows, r, item.id, item.amount.value);
      ComposeAccumulates(next, r, ingredients, payload[1..], j);
      ComposeKeepsRow(next, r, ingredients, payload[1..], item.id);
      if Mentions(payload[1..], j) {
        var k :| 0 <= k < |payload[1..]| && payload[1..][k].id == j;
        assert payload[k + 1].id == j;
      }
      if Mentions(payload, j) && item.id != j {
        var k :| 0 <= k < |payload| && payload[k].id == j;
        assert payload[1..][k - 1].id == j;
      }
    }
  }

  /** A row of recipe r that exists before a completed loop still exists after it. */
  lemma {:induction false} ComposeKeepsRow(rows: seq<IngredientRow>, r: int, ingredients: set<int>, payload: seq<PayloadItem>, j: int)
    requires Compose(rows, r, ingredients, payload).error == None
    ensures Matching(rows, r, j) >= 1 ==> Matching(Compose(rows, r, ingredients, payload).rows, r, j) >= 1
    decreases |payload|
  {
    if payload != [] {
      var item := payload[0];
      WriteFacts(rows, r, item.id, item.amount.value);
      ComposeKeepsRow(Step(rows, r, ingredients, item).value, r, ingredients, payload[1..], j);
    }
  }

  /**
   * The loop keeps at most one row per (recipe, ingredient) pair and, starting
   * from such a table, never meets update_or_create's multiple-rows error.
   */
  lemma {:induction false} ComposeKeepsOneRowPerPair(rows: seq<IngredientRow>, r: int, ingredients: set<int>, payload: seq<PayloadItem>)
    requires OneRowPerPair(rows)
    ensures OneRowPerPair(Compose(rows, r, ingredients, payload).rows)
    ensures Compose(rows, r, ingredients, payload).error != Some(MultipleRowsReturned)
    decreases |payload|
  {
    if payload != [] {
      var item := payload[0];
      if item.amount.Some? && item.id in ingredients {
        WriteFacts(rows, r, item.id, item.amount.value);
        ComposeKeepsOneRowPerPair(Step(rows, r, ingredients, item).value, r, ingredients, payload[1..]);
      }
    }
  }

  /** Rows written for an existing recipe keep both foreign keys. */
  lemma {:induction false} ComposeKeepsReferences(rows: seq<IngredientRow>, r: int, recipes: set<int>, ingredients: set<int>, payload: seq<PayloadItem>)
    requires References(rows, recipes, ingredients) && r in recipes
    ensures References(Compose(rows, r, ingredients, payload).rows, recipes, ingredients)
    decreases |payload|
  {
    if payload != [] {
      var item := payload[0];
      if item.amount.Some? && item.id in ingredients {
        WriteKeepsReferences(rows, r, item.id, item.amount.value, recipes, ingredients);
        if Step(rows, r, ingredients, item).Ok? {
          ComposeKeepsReferences(Step(rows, r, ingredients, item).value, r, recipes, ingredients, payload[1..]);
        }
      }
    }
  }

  /**
   * Starting from a table with one row per pair, the loop completes exactly
   * when every item carries an amount and names an existing ingredient.
   */
  lemma {:induction false} ComposeSucceedsIff(rows: seq<IngredientRow>, r: int, ingredients: set<int>, payload: seq<PayloadItem>)
    requires OneRowPerPair(rows)
    ensures Compose(rows, r, ingredients, payload).error == None <==>
      forall k :: 0 <= k < |payload| ==> Acceptable(payload[k], ingredients)
    decreases |payload|
  {
    if payload != [] {
      var item := payload[0];
      if Acceptable(item, ingredients) {
        WriteFacts(rows, r, item.id, item.amount.value);
        ComposeSucceedsIff(Step(rows, r, ingredients, item).value, r, ingredients, payload[1..]);
        assert forall k :: 1 <= k < |payload| ==> payload[k] == payload[1..][k - 1];
      }
    }
  }

  /**
   * A failed loop stopped at some item k: every item before it was written (the
   * table is what the loop over the first k items produces) and item k fails.
   */
  lemma {:induction false} ComposeStopsAtFailure(rows: seq<IngredientRow>, r: int, ingredients: set<int>, payload: seq<PayloadItem>)
    requires Compose(rows, r, ingredients, payload).error.Some?
    ensures exists k :: (0 <= k < |payload|
      && Compose(rows, r, ingredients, payload[..k]) == Outcome(Compose(rows, r, ingredients, payload).rows, None)
      && Step(Compose(rows, r, ingredients, payload).rows, r, ingredients, payload[k]) == Err(Compose(rows, r, ingredients, payload).error.value))
    decreases |payload|
  {
    var out := Compose(rows, r, ingredients, payload);
    var item := payload[0];
    match Step(rows, r, ingredients, item)
    case Err(e) =>
      assert payload[..0] == [];
      assert Compose(rows, r, ingredients, payload[..0]) == Outcome(out.rows, None);
    case Ok(next) =>
      var tail := payload[1..];
      ComposeStopsAtFailure(next, r, ingredients, tail);
      var k :| 0 <= k < |tail|
        && Compose(next, r, ingredients, tail[..k]) == Outcome(out.rows, None)
        && Step(out.rows, r, ingredients, tail[k]) == Err(out.error.value);
      assert payload[..k + 1][0] == item;
      assert payload[..k + 1][1..] == tail[..k];
      assert Compose(rows, r, ingredients, payload[..k + 1]) == Outcome(out.rows, None);
      assert payload[k + 1] == tail[k];
  }

  /**
   * The update path: all of recipe r's rows are deleted and the loop is run on
   * the new payload.  If it completes, r's amounts are exactly the payload's
   * sums, every named ingredient has one row, every other ingredient has none,
   * and the other recipes' rows are as before.
   */
  lemma ReplaceGivesPayload(rows: seq<IngredientRow>, r: int, ingredients: set<int>, payload: seq<PayloadItem>, j: int)
    requires OneRowPerPair(rows)
    requires Compose(Others(rows, r), r, ingredients, payload).error == None
    ensures AmountOf(Compose(Others(rows, r), r, ingredients, payload).rows, r, j) == PayloadSum(payload, j)
    ensures Matching(Compose(Others(rows, r), r, ingredients, payload).rows, r, j) == if Mentions(payload, j) then 1 else 0
    ensures Others(Compose(Others(rows, r), r, ingredients, payload).rows, r) == Others(rows, r)
  {
    var start := Others(rows, r);
    OthersHasNoRowsOf(rows, r, j);
    OthersKeepsInvariants(rows, r, {}, {});
    ComposeAccumulates(start, r, ingredients, payload, j);
    ComposeKeepsOneRowPerPair(start, r, ingredients, payload);
    ComposeOnlyTouchesRecipe(start, r, ingredients, payload);
    OthersIdempotent(rows, r);
  }

  /** ReplaceGivesPayload for every ingredient at once. */
  lemma ReplaceGivesPayloadAll(rows: seq<IngredientRow>, r: int, ingredients: set<int>, payload: seq<PayloadItem>)
    requires OneRowPerPair(rows)
    ensures Others(Compose(Others(rows, r), r, ingredients, payload).rows, r) == Others(rows, r)
    ensures Compose(Others(rows, r), r, ingredients, payload).error == None ==>
      forall j :: AmountOf(Compose(Others(rows, r), r, ingredients, payload).rows, r, j) == PayloadSum(payload, j)
        && Matching(Compose(Others(rows, r), r, ingredients, payload).rows, r, j) == if Mentions(payload, j) then 1 else 0
  {
    ComposeOnlyTouchesRecipe(Others(rows, r), r, ingredients, payload);
    OthersIdempotent(rows, r);
    if Compose(Others(rows, r), r, ingredients, payload).error == None {
      forall j
        ensures AmountOf(Compose(Others(rows, r), r, ingredients, payload).rows, r, j) == PayloadSum(payload, j)
        ensures Matching(Compose(Others(rows, r), r, ingredients, payload).rows, r, j) == if Mentions(payload, j) then 1 else 0
      {
        ReplaceGivesPayload(rows, r, ingredients, payload, j);
      }
    }
  }

  /** The create path: a new recipe has no rows, so a completed loop leaves it exactly the payload's rows. */
  lemma FreshRecipeGetsPayload(rows: seq<IngredientRow>, r: int, ingredients: set<int>, payload: seq<PayloadItem>)
    requires OneRowPerPair(rows)
    requires forall k :: 0 <= k < |rows| ==> rows[k].recipe != r
    ensures Others(Compose(rows, r, ingredients, payload).rows, r) == rows
    ensures Compose(rows, r, ingredients, payload).error == None ==>
      forall j :: AmountOf(Compose(rows, r, ingredients, payload).rows, r, j) == PayloadSum(payload, j)
        && Matching(Compose(rows, r, ingredients, payload).rows, r, j) == if Mentions(payload, j) then 1 else 0
  {
    AbsentRecipe(rows, r, 0);
    ComposeOnlyTouchesRecipe(rows, r, ingredients, payload);
    if Compose(rows, r, ingredients, payload).error == None {
      forall j
        ensures AmountOf(Compose(rows, r, ingredients, payload).rows, r, j) == PayloadSum(payload, j)
        ensures Matching(Compose(rows, r, ingredients, payload).rows, r, j) == if Mentions(payload, j) then 1 else 0
      {
        ReplaceGivesPayload(rows, r, ingredients, payload, j);
      }
    }
  }

  lemma {:induction false} OthersIdempotent(rows: seq<IngredientRow>, r: int)
    ensures Others(Others(rows, r), r) == Others(rows, r)
  {
    if rows != [] {
      var init := rows[..|rows| - 1];
      OthersIdempotent(init, r);
      if rows[|rows| - 1].recipe != r {
        AppendFacts(Others(init, r), rows[|rows| - 1], r, 0);
      }
    }
  }

  /** Replacement, not merge: a recipe with {1: 2, 2: 3} updated with {2: 5, 3: 1} holds exactly {2: 5, 3: 1}. */
  lemma UpdateReplacesExample()
    ensures Compose(Others([IngredientRow(7, 1, 2), IngredientRow(7, 2, 3)], 7), 7, {1, 2, 3},
                    [PayloadItem(2, Some(5)), PayloadItem(3, Some(1))])
            == Outcome([IngredientRow(7, 2, 5), IngredientRow(7, 3, 1)], None)
  {
    var rows := [IngredientRow(7, 1, 2), IngredientRow(7, 2, 3)];
    assert rows[..1] == [IngredientRow(7, 1, 2)];
    assert rows[..1][..0] == [];
    var empty: seq<IngredientRow> := [];
    assert Others(rows, 7) == empty;
    var one := [IngredientRow(7, 2, 5)];
    assert empty + [IngredientRow(7, 2, 5)] == one;
    assert Step(empty, 7, {1, 2, 3}, PayloadItem(2, Some(5))) == Ok(one);
    assert one[..0] == [];
    assert Matching(one, 7, 3) == 0;
  }

  /** Repeated ids in one payload are accumulated into one row, not rejected. */
  lemma DuplicateIdsAccumulate()
    ensures Compose([], 7, {1}, [PayloadItem(1, Some(2)), PayloadItem(1, Some(3))])
      == Outcome([IngredientRow(7, 1, 5)], None)
  {
    var payload := [PayloadItem(1, Some(2)), PayloadItem(1, Some(3))];
    var empty: seq<IngredientRow> := [];
    var one := [IngredientRow(7, 1, 2)];
    var two := [IngredientRow(7, 1, 5)];
    assert empty + [IngredientRow(7, 1, 2)] == one;
    assert Step(empty, 7, {1}, payload[0]) == Ok(one);
    assert Compose(empty, 7, {1}, payload) == Compose(one, 7, {1}, payload[1..]);
    assert one[..0] == empty;
    assert Matching(one, 7, 1) == 1;
    BumpLast(one, 7, 1, 3);
    assert Bump(one, 7, 1, 3) == two;
    assert payload[1..][0] == PayloadItem(1, Some(3));
    assert Step(one, 7, {1}, payload[1..][0]) == Ok(two);
    assert payload[1..][1..] == [];
  }
}
