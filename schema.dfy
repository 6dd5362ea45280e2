/**
 * The relational schema of recipes/models.py and users/models.py: one datatype
 * per table row, and one predicate per declared constraint.  Tables are maps
 * from primary key to row, except IngredientsRecipe, which is kept as a
 * sequence of rows in primary-key order (it has no unique constraint, so two
 * rows for the same pair are representable).
 */
module Schema {

  /** IngredientsRecipe.amount: declared minimum 1 (the FloatField is modelled on integers). */
  type Amount = x: int | x >= 1 witness 1

  /** Largest value a PositiveSmallIntegerField column holds. */
  const MaxSmallInt: int := 32767

  datatype Ingredient = Ingredient(name: string, measurementUnit: string)

  datatype Tag = Tag(name: string, color: string, slug: string)

  datatype User = User(username: string, email: string, firstName: string, lastName: string)

  datatype Recipe = Recipe(author: int, name: string, text: string, cookingTime: int, tags: set<int>)

  datatype IngredientRow = IngredientRow(recipe: int, ingredient: int, amount: Amount)

  /** A row of Favorite or of ShoppingList. */
  datatype Membership = Membership(user: int, recipe: int)

  datatype Follow = Follow(user: int, author: int)

  /**
   * What the Recipe.cooking_time column stores: a PositiveSmallIntegerField
   * holds 0 .. 32767 (its check constraint and the smallint range).  The
   * model's MinValueValidator(1) is not part of this: it runs only in model
   * validation, which neither the serializer nor save() performs.
   */
  predicate CookingTimeStorable(t: int)
  {
    0 <= t <= MaxSmallInt
  }

  /** A UniqueConstraint over all columns of a row: no two primary keys hold the same row. */
  ghost predicate UniqueRows<T>(m: map<int, T>)
  {
    forall a, b :: a in m && b in m && m[a] == m[b] ==> a == b
  }

  /** Tag: name, color and slug are each unique. */
  ghost predicate UniqueTagFields(tags: map<int, Tag>)
  {
    forall a, b :: a in tags && b in tags && a != b ==>
      tags[a].name != tags[b].name && tags[a].color != tags[b].color && tags[a].slug != tags[b].slug
  }

  /** CustomUser: username and email are each unique. */
  ghost predicate UniqueUserFields(users: map<int, User>)
  {
    forall a, b :: a in users && b in users && a != b ==>
      users[a].username != users[b].username && users[a].email != users[b].email
  }

  /** Follow's check constraint no_self_follow. */
  ghost predicate NoSelfFollow(follows: map<int, Follow>)
  {
    forall k :: k in follows ==> follows[k].user != follows[k].author
  }

  /** Inserting a tag keeps the three unique constraints exactly when no stored tag shares one of its values. */
  lemma AddTagKeepsUnique(tags: map<int, Tag>, id: int, t: Tag)
    requires UniqueTagFields(tags) && id !in tags
    ensures UniqueTagFields(tags[id := t]) <==>
      forall k :: k in tags ==> tags[k].name != t.name && tags[k].color != t.color && tags[k].slug != t.slug
  {
    var t' := tags[id := t];
    if UniqueTagFields(t') {
      forall k | k in tags
        ensures tags[k].name != t.name && tags[k].color != t.color && tags[k].slug != t.slug
      {
        assert k != id && k in t' && id in t';
      }
    }
  }

  /** Inserting a user keeps username and email unique exactly when neither is taken. */
  lemma AddUserKeepsUnique(users: map<int, User>, id: int, u: User)
    requires UniqueUserFields(users) && id !in users
    ensures UniqueUserFields(users[id := u]) <==>
      forall k :: k in users ==> users[k].username != u.username && users[k].email != u.email
  {
    var u' := users[id := u];
    if UniqueUserFields(u') {
      forall k | k in users
        ensures users[k].username != u.username && users[k].email != u.email
      {
        assert k != id && k in u' && id in u';
      }
    }
  }

  /** The largest element of a non-empty set of keys. */
  ghost function MaxKey(s: set<int>): (m: int)
    requires s != {}
    ensures m in s && forall y :: y in s ==> y <= m
  {
    MaxKeyExists(s);
    var m :| m in s && forall y :: y in s ==> y <= m; m
  }

  /** A non-empty set has an element. */
  lemma HasElement(s: set<int>)
    requires s != {}
    ensures exists x :: x in s
  {
    if forall x :: x !in s {
      assert false;
    }
  }

  /** A value stored in a table is stored under some key. */
  lemma ValueHasKey<T>(m: map<int, T>, v: T)
    requires v in m.Values
    ensures exists k :: k in m && m[k] == v
  {
    if forall k :: k in m ==> m[k] != v {
      assert false;
    }
  }

  /** A subset is no larger than the set that contains it. */
  lemma {:induction false} SubsetSize(a: set<int>, b: set<int>)
    requires a <= b
    ensures |a| <= |b|
    decreases |b|
  {
    if a != {} {
      HasElement(a);
      var x :| x in a;
      SubsetSize(a - {x}, b - {x});
    }
  }

  lemma {:induction false} MaxKeyExists(s: set<int>)
    requires s != {}
    ensures exists m :: m in s && forall y :: y in s ==> y <= m
    decreases |s|
  {
    HasElement(s);
    var x :| x in s;
    if s != {x} {
      MaxKeyExists(s - {x});
      var m :| m in s - {x} && forall y :: y in s - {x} ==> y <= m;
      var top := if x <= m then m else x;
      forall y | y in s
        ensures y <= top
      {
        if y != x {
          assert y in s - {x};
        }
      }
    } else {
      assert forall y :: y in s ==> y <= x;
    }
  }

  /** Primary keys in descending order: the `ordering = ['-id']` of Recipe and Follow. */
  ghost function Descending(s: set<int>): (r: seq<int>)
    ensures |r| == |s|
    ensures forall x :: x in r <==> x in s
    ensures forall i, j :: 0 <= i < j < |r| ==> r[i] > r[j]
    decreases |s|
  {
    if s == {} then []
    else
      var m := MaxKey(s);
      [m] + Descending(s - {m})
  }

  /** The sequence read back to front. */
  function Reverse(q: seq<int>): (r: seq<int>)
    ensures |r| == |q|
    ensures forall k :: 0 <= k < |q| ==> r[k] == q[|q| - 1 - k]
  {
    seq(|q|, k requires 0 <= k < |q| => q[|q| - 1 - k])
  }

  /** Reversing a strictly descending sequence gives a strictly ascending one with the same elements. */
  lemma ReverseDescending(q: seq<int>)
    requires forall i, j :: 0 <= i < j < |q| ==> q[i] > q[j]
    ensures forall x :: x in Reverse(q) <==> x in q
    ensures forall i, j :: 0 <= i < j < |q| ==> Reverse(q)[i] < Reverse(q)[j]
  {
    var r := Reverse(q);
    forall x | x in q
      ensures x in r
    {
      var i :| 0 <= i < |q| && q[i] == x;
      assert r[|q| - 1 - i] == x;
    }
    forall i, j | 0 <= i < j < |q|
      ensures r[i] < r[j]
    {
      assert r[i] == q[|q| - 1 - i] && r[j] == q[|q| - 1 - j];
    }
  }

  /** Primary keys in ascending order: the `ordering = ['id']` of CustomUser. */
  ghost function Ascending(s: set<int>): (r: seq<int>)
    ensures |r| == |s|
    ensures forall x :: x in r <==> x in s
    ensures forall i, j :: 0 <= i < j < |r| ==> r[i] < r[j]
  {
    var d := Descending(s);
    ReverseDescending(d);
    Reverse(d)
  }

  /** Recipe listing order (recipes/models.py, Meta.ordering). */
  ghost function RecipeOrder(recipes: map<int, Recipe>): (r: seq<int>)
    ensures forall x :: x in r <==> x in recipes
    ensures forall i, j :: 0 <= i < j < |r| ==> r[i] > r[j]
  {
    Descending(recipes.Keys)
  }

  /** User listing order (users/models.py, Meta.ordering). */
  ghost function UserOrder(users: map<int, User>): (r: seq<int>)
    ensures forall x :: x in r <==> x in users
    ensures forall i, j :: 0 <= i < j < |r| ==> r[i] < r[j]
  {
    Ascending(users.Keys)
  }

  /** Follow listing order (users/models.py, Meta.ordering). */
  ghost function FollowOrder(follows: map<int, Follow>): (r: seq<int>)
    ensures forall x :: x in r <==> x in follows
    ensures forall i, j :: 0 <= i < j < |r| ==> r[i] > r[j]
  {
    Descending(follows.Keys)
  }

  /** A primary key for the next inserted row: one larger than every key in use (the database may pick a larger one, since it never reuses a deleted key). */
  method NextRowId<T>(table: map<int, T>) returns (id: int)
    ensures id !in table
    ensures id >= 1
    ensures forall k :: k in table ==> k < id
  {
    id := 1;
    var keys := table.Keys;
    while keys != {}
      invariant keys <= table.Keys
      invariant id >= 1
      invariant forall k :: k in table && k !in keys ==> k < id
      decreases keys
    {
      HasElement(keys);
      var k :| k in keys;
      if k >= id {
        id := k + 1;
      }
      keys := keys - {k};
    }
  }
}
