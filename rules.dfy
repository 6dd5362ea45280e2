/**
 * The validation and query rules of api/serializers.py, as functions over the
 * tables: the duplicate checks of FavoriteSerializer, ShoppingListSerializer
 * and FollowSerializer, the is_subscribed flag of UserSerializer and the
 * recipes_count of FollowSerializer, with the facts that the store's
 * operations need about inserting and deleting rows.
 */
module Rules {
  import opened Wrappers
  import opened Schema

  /** Why a serializer's validation failed. */
  datatype Reason = UnknownRecipe | AlreadyPresent | AlreadySubscribed | SelfSubscription

  /**
   * The outcomes a handler reports instead of a normal response: a serializer
   * ValidationError, get_object_or_404's not-found, delete_obj's 400 response,
   * and a method the subscribe action does not serve.
   */
  datatype Error = ValidationError(reason: Reason) | NotFound | BadRequest | MethodNotAllowed

  /** Which membership table an add or delete works on. */
  datatype MembershipKind = FavoriteKind | ShoppingListKind

  /**
   * FavoriteSerializer.validate and ShoppingListSerializer.validate, preceded
   * by the serializer's check that the "recipe" key names an existing recipe:
   * the data is accepted unchanged unless the pair is already in the table.
   */
  function ValidateMembership(table: map<int, Membership>, recipes: set<int>, user: int, recipe: int): (r: Result<Membership, Error>)
    ensures r.Ok? <==> recipe in recipes && Membership(user, recipe) !in table.Values
    ensures r.Ok? ==> r.value == Membership(user, recipe)
    ensures recipe in recipes && Membership(user, recipe) in table.Values ==> r == Err(ValidationError(AlreadyPresent))
  {
    if recipe !in recipes then Err(ValidationError(UnknownRecipe))
    else if Membership(user, recipe) in table.Values then Err(ValidationError(AlreadyPresent))
    else Ok(Membership(user, recipe))
  }

  /**
   * FollowSerializer.validate: the author must exist; an existing follow is
   * rejected first, then a follow of oneself; otherwise the data is accepted.
   */
  function ValidateFollow(follows: map<int, Follow>, users: set<int>, user: int, author: int): (r: Result<Follow, Error>)
    ensures r.Ok? <==> author in users && Follow(user, author) !in follows.Values && user != author
    ensures r.Ok? ==> r.value == Follow(user, author)
    ensures author !in users ==> r == Err(NotFound)
    ensures author in users && Follow(user, author) in follows.Values ==> r == Err(ValidationError(AlreadySubscribed))
    ensures author in users && Follow(user, author) !in follows.Values && user == author ==> r == Err(ValidationError(SelfSubscription))
  {
    if author !in users then Err(NotFound)
    else if Follow(user, author) in follows.Values then Err(ValidationError(AlreadySubscribed))
    else if user == author then Err(ValidationError(SelfSubscription))
    else Ok(Follow(user, author))
  }

  /** A request to follow oneself never validates, whatever the tables hold. */
  lemma SelfFollowAlwaysRejected(follows: map<int, Follow>, users: set<int>, user: int)
    requires NoSelfFollow(follows)
    ensures ValidateFollow(follows, users, user, user).Err?
    ensures user in users ==> ValidateFollow(follows, users, user, user) == Err(ValidationError(SelfSubscription))
  {
    if Follow(user, user) in follows.Values {
      ValueHasKey(follows, Follow(user, user));
      assert false;
    }
  }

  /** Inserting a row under a fresh key keeps the unique constraint exactly when the row is not already present. */
  lemma InsertKeepsUnique<T>(table: map<int, T>, id: int, row: T)
    requires UniqueRows(table) && id !in table
    ensures UniqueRows(table[id := row]) <==> row !in table.Values
    ensures row in table[id := row].Values
  {
    var t := table[id := row];
    assert t[id] == row;
    if row in table.Values {
      ValueHasKey(table, row);
      var k :| k in table && table[k] == row;
      assert k in t && t[k] == t[id] && k != id;
    }
  }

  /** Inserting a validated follow keeps the no-self-follow check constraint. */
  lemma InsertKeepsNoSelfFollow(follows: map<int, Follow>, id: int, f: Follow)
    requires NoSelfFollow(follows)
    ensures NoSelfFollow(follows[id := f]) <==> f.user != f.author
  {
    assert follows[id := f][id] == f;
  }

  /** All rows equal to `row` removed: what `filter(...).delete()` does. */
  function RemoveRow<T(==)>(table: map<int, T>, row: T): (m: map<int, T>)
    ensures row !in m.Values
    ensures forall k :: k in m <==> k in table && table[k] != row
    ensures forall k :: k in m ==> m[k] == table[k]
  {
    map k | k in table && table[k] != row :: table[k]
  }

  /** Removing rows keeps the no-self-follow constraint. */
  lemma RemoveKeepsNoSelfFollow(follows: map<int, Follow>, f: Follow)
    ensures NoSelfFollow(follows) ==> NoSelfFollow(RemoveRow(follows, f))
  {
  }

  /** Under the unique constraint, a present row is held by exactly one key, and removing it drops exactly one row. */
  lemma RemoveDropsOneRow<T>(table: map<int, T>, row: T)
    requires UniqueRows(table) && row in table.Values
    ensures exists k :: k in table && table[k] == row && RemoveRow(table, row) == map j | j in table && j != k :: table[j]
    ensures |RemoveRow(table, row)| == |table| - 1
  {
    ValueHasKey(table, row);
    var k :| k in table && table[k] == row;
    var m := RemoveRow(table, row);
    forall j | j in table && j != k
      ensures j in m
    {
      assert table[j] != table[k];
    }
    assert m.Keys == table.Keys - {k};
    assert m == map j | j in table && j != k :: table[j];
  }

  /** UserSerializer.get_is_subscribed as written: anonymous users get false; otherwise it asks whether the user follows anyone. */
  function IsSubscribedAsWritten(follows: map<int, Follow>, user: Option<int>, obj: int): (b: bool)
    ensures user.None? ==> !b
    ensures b <==> user.Some? && exists author :: Follow(user.value, author) in follows.Values
  {
    if user.Some? then FollowsSomeone(follows, user.value); exists k :: k in follows && follows[k].user == user.value
    else false
  }

  /** Some row has `user` as follower exactly when some follow of `user` is stored. */
  lemma FollowsSomeone(follows: map<int, Follow>, user: int)
    ensures (exists k :: k in follows && follows[k].user == user) <==> exists author :: Follow(user, author) in follows.Values
  {
    if exists k :: k in follows && follows[k].user == user {
      var k :| k in follows && follows[k].user == user;
      assert Follow(user, follows[k].author) == follows[k];
    }
    if exists author :: Follow(user, author) in follows.Values {
      var author :| Follow(user, author) in follows.Values;
      ValueHasKey(follows, Follow(user, author));
    }
  }

  /** The flag as the field evidently means it: the requesting user follows `obj`. */
  function IsSubscribed(follows: map<int, Follow>, user: Option<int>, obj: int): (b: bool)
    ensures user.None? ==> !b
    ensures b <==> user.Some? && exists k :: k in follows && follows[k] == Follow(user.value, obj)
  {
    if user.Some? && Follow(user.value, obj) in follows.Values then
      ValueHasKey(follows, Follow(user.value, obj));
      true
    else
      false
  }

  /** Every user the corrected flag reports is also reported by the code as written. */
  lemma CorrectedImpliesAsWritten(follows: map<int, Follow>, user: Option<int>, obj: int)
    ensures IsSubscribed(follows, user, obj) ==> IsSubscribedAsWritten(follows, user, obj)
  {
    if IsSubscribed(follows, user, obj) {
      var k :| k in follows && follows[k] == Follow(user.value, obj);
      assert follows[k].user == user.value;
    }
  }

  /** As written, the flag does not depend on the user being shown. */
  lemma AsWrittenIgnoresObj(follows: map<int, Follow>, user: Option<int>, a: int, b: int)
    ensures user.None? ==> !IsSubscribedAsWritten(follows, user, a)
    ensures IsSubscribedAsWritten(follows, user, a) == IsSubscribedAsWritten(follows, user, b)
  {
  }

  /** A user who follows only user 6 is shown as subscribed to user 7 as well. */
  lemma AsWrittenDisagrees()
    ensures IsSubscribedAsWritten(map[1 := Follow(5, 6)], Some(5), 7)
    ensures !IsSubscribed(map[1 := Follow(5, 6)], Some(5), 7)
  {
    var f := map[1 := Follow(5, 6)];
    assert 1 in f && f[1].user == 5;
    assert f.Values == {Follow(5, 6)};
  }

  /** The corrected flag tracks subscribe: true right after a follow row is inserted, false after it is removed. */
  lemma IsSubscribedTracksFollow(follows: map<int, Follow>, id: int, user: int, author: int)
    ensures IsSubscribed(follows[id := Follow(user, author)], Some(user), author)
    ensures !IsSubscribed(RemoveRow(follows, Follow(user, author)), Some(user), author)
  {
    assert follows[id := Follow(user, author)][id] == Follow(user, author);
  }

  /** FollowSerializer.get_recipes_count: the number of recipes whose author is `author`. */
  function RecipesCount(recipes: map<int, Recipe>, author: int): (n: nat)
    ensures n <= |recipes|
    ensures n == 0 <==> forall k :: k in recipes ==> recipes[k].author != author
  {
    var mine := set k | k in recipes && recipes[k].author == author;
    SubsetSize(mine, recipes.Keys);
    assert forall k :: k in recipes && recipes[k].author == author ==> k in mine;
    assert (forall k :: k in recipes ==> recipes[k].author != author) ==> mine == {};
    |mine|
  }

  /** Adding a recipe under a fresh key adds one to its author's count and leaves every other author's count alone. */
  lemma RecipesCountAfterInsert(recipes: map<int, Recipe>, id: int, r: Recipe, author: int)
    requires id !in recipes
    ensures RecipesCount(recipes[id := r], author) == RecipesCount(recipes, author) + (if r.author == author then 1 else 0)
  {
    var after := recipes[id := r];
    var before := set k | k in recipes && recipes[k].author == author;
    var now := set k | k in after && after[k].author == author;
    if r.author == author {
      assert now == before + {id};
    } else {
      assert now == before;
    }
  }
}
