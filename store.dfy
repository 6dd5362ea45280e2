/**
 * The request handlers of api/views.py and the writing serializer methods of
 * api/serializers.py, on one object that holds every table.  The acting user
 * is passed in as an id (authentication is outside the model); each handler
 * returns the error it would report instead of an HTTP response.
 */
module Foodgram {
  import opened Wrappers
  import opened Schema
  import opened Composition
  import opened Rules
  import opened ShoppingExport

  /** The request method of the subscribe action. */
  datatype HttpMethod = Post | Delete | OtherMethod

  /**
   * Why saving a recipe failed: an ingredient row could not be written, the
   * column rejected the cooking time, or a partial update left out
   * "ingredients" or "tags", which update pops unconditionally.
   */
  datatype SaveError = IngredientError(cause: ComposeError) | CookingTimeRejected | MissingField

  /** A failure of create_ingredients as a failure of the save that called it. */
  function Lift(e: Option<ComposeError>): Option<SaveError>
  {
    match e
    case None => None
    case Some(c) => Some(IngredientError(c))
  }

  /** A value the request gives, or the stored one when it leaves the field out. */
  function OrKeep<T>(given: Option<T>, stored: T): (v: T)
    ensures given.Some? ==> v == given.value
    ensures given.None? ==> v == stored
  {
    match given
    case Some(x) => x
    case None => stored
  }

  /** ModelSerializer.update on a recipe: the given fields replace the stored ones, the author stays. */
  function Patched(rec: Recipe, name: Option<string>, text: Option<string>, cookingTime: Option<int>, tags: set<int>): (p: Recipe)
    ensures p.author == rec.author && p.tags == tags
    ensures p.name == OrKeep(name, rec.name) && p.text == OrKeep(text, rec.text)
    ensures p.cookingTime == OrKeep(cookingTime, rec.cookingTime)
  {
    Recipe(rec.author, OrKeep(name, rec.name), OrKeep(text, rec.text), OrKeep(cookingTime, rec.cookingTime), tags)
  }

  /** Every recipe's tags exist and its cooking time fits its column. */
  ghost predicate RecipesStorable(recipes: map<int, Recipe>, tags: set<int>)
  {
    forall k :: k in recipes ==> recipes[k].tags <= tags && CookingTimeStorable(recipes[k].cookingTime)
  }

  /** Storing a recipe whose tags exist and whose cooking time fits keeps RecipesStorable. */
  lemma StoreRecipe(recipes: map<int, Recipe>, tags: set<int>, id: int, r: Recipe)
    requires RecipesStorable(recipes, tags)
    requires r.tags <= tags && CookingTimeStorable(r.cookingTime)
    ensures RecipesStorable(recipes[id := r], tags)
  {
  }

  /** The tag list of a request as the set `recipe.tags.set(...)` stores. */
  function TagSet(tagIds: seq<int>): (s: set<int>)
    ensures forall t :: t in s <==> t in tagIds
  {
    set t | t in tagIds
  }

  class Store {
    var ingredients: map<int, Ingredient>
    var tags: map<int, Tag>
    var users: map<int, User>
    var recipes: map<int, Recipe>
    /** IngredientsRecipe, in primary-key order. */
    var recipeRows: seq<IngredientRow>
    var favorites: map<int, Membership>
    var shoppingLists: map<int, Membership>
    var follows: map<int, Follow>

    /** The constraints the database enforces, and the foreign keys of IngredientsRecipe and of the recipes' tags. */
    ghost predicate Constraints()
      reads this
    {
      && UniqueRows(favorites)
      && UniqueRows(shoppingLists)
      && UniqueRows(follows)
      && NoSelfFollow(follows)
      && UniqueTagFields(tags)
      && UniqueUserFields(users)
      && References(recipeRows, recipes.Keys, ingredients.Keys)
      && RecipesStorable(recipes, tags.Keys)
    }

    /** The constraints, and one IngredientsRecipe row per (recipe, ingredient) pair, which the writers keep. */
    ghost predicate Valid()
      reads this
    {
      Constraints() && OneRowPerPair(recipeRows)
    }

    /** A store holding the reference data (ingredients, tags, users) and nothing else. */
    constructor (ingredients: map<int, Ingredient>, tags: map<int, Tag>, users: map<int, User>)
      requires UniqueTagFields(tags) && UniqueUserFields(users)
      ensures Valid()
      ensures this.ingredients == ingredients && this.tags == tags && this.users == users
      ensures recipes == map[] && recipeRows == [] && favorites == map[] && shoppingLists == map[] && follows == map[]
    {
      this.ingredients := ingredients;
      this.tags := tags;
      this.users := users;
      recipes := map[];
      recipeRows := [];
      favorites := map[];
      shoppingLists := map[];
      follows := map[];
    }

    /** The membership table a favorite or shopping-cart request works on. */
    function Table(kind: MembershipKind): map<int, Membership>
      reads this
    {
      match kind
      case FavoriteKind => favorites
      case ShoppingListKind => shoppingLists
    }

    /**
     * RecipeCreateSerializer.create_ingredients: the loop over the payload,
     * proved to leave the table Compose describes and to report its error.
     */
    method CreateIngredients(payload: seq<PayloadItem>, recipe: int) returns (error: Option<ComposeError>)
      requires Constraints() && recipe in recipes
      modifies this`recipeRows
      ensures Constraints()
      ensures Outcome(recipeRows, error) == Compose(old(recipeRows), recipe, ingredients.Keys, payload)
      ensures OneRowPerPair(old(recipeRows)) ==> OneRowPerPair(recipeRows) && error != Some(MultipleRowsReturned)
    {
      var k := 0;
      while k < |payload|
        invariant 0 <= k <= |payload|
        invariant Compose(old(recipeRows), recipe, ingredients.Keys, payload) == Compose(recipeRows, recipe, ingredients.Keys, payload[k..])
        invariant References(recipeRows, recipes.Keys, ingredients.Keys)
        invariant OneRowPerPair(old(recipeRows)) ==> OneRowPerPair(recipeRows)
      {
        var item := payload[k];
        assert payload[k..][0] == item && payload[k..][1..] == payload[k + 1..];
        if item.amount.None? {
          return Some(MissingAmount);
        }
        var amount := item.amount.value;
        if item.id !in ingredients {
          return Some(IngredientNotFound);
        }
        WriteFacts(recipeRows, recipe, item.id, amount);
        WriteKeepsReferences(recipeRows, recipe, item.id, amount, recipes.Keys, ingredients.Keys);
        match Write(recipeRows, recipe, item.id, amount)
        case Err(e) =>
          return Some(e);
        case Ok(next) =>
          recipeRows := next;
        k := k + 1;
      }
      assert payload[k..] == [];
      error := None;
    }

    /**
     * RecipeCreateSerializer.create: insert the recipe, write its ingredient
     * rows, then set its tags.  A cooking time the column cannot hold makes the
     * insert fail before anything is written; a failing ingredient leaves the
     * recipe in place with the rows written so far and no tags.
     */
    method Create(author: int, name: string, text: string, cookingTime: int, payload: seq<PayloadItem>, tagIds: seq<int>)
      returns (id: int, error: Option<SaveError>)
      requires Valid()
      requires forall t :: t in tagIds ==> t in tags
      modifies this`recipes, this`recipeRows
      ensures Valid()
      ensures !CookingTimeStorable(cookingTime) ==>
        error == Some(CookingTimeRejected) && recipes == old(recipes) && recipeRows == old(recipeRows)
      ensures CookingTimeStorable(cookingTime) ==> id !in old(recipes)
      ensures CookingTimeStorable(cookingTime) ==>
        recipes == old(recipes)[id := Recipe(author, name, text, cookingTime, if error == None then TagSet(tagIds) else {})]
      ensures CookingTimeStorable(cookingTime) ==>
        recipeRows == Compose(old(recipeRows), id, ingredients.Keys, payload).rows
          && error == Lift(Compose(old(recipeRows), id, ingredients.Keys, payload).error)
      ensures CookingTimeStorable(cookingTime) ==> Others(recipeRows, id) == old(recipeRows)
      ensures error != Some(IngredientError(MultipleRowsReturned))
      ensures error == None ==> forall j :: AmountOf(recipeRows, id, j) == PayloadSum(payload, j)
      ensures error == None ==> forall j :: Matching(recipeRows, id, j) == if Mentions(payload, j) then 1 else 0
    {
      if !CookingTimeStorable(cookingTime) {
        return 0, Some(CookingTimeRejected);
      }
      forall t | t in TagSet(tagIds)
        ensures t in tags
      {
        assert t in tagIds;
      }
      id := InsertRecipe(Recipe(author, name, text, cookingTime, {}));
      FreshRecipeGetsPayload(recipeRows, id, ingredients.Keys, payload);
      var e := CreateIngredients(payload, id);
      error := Lift(e);
      if e == None {
        SetTags(id, TagSet(tagIds));
      }
    }

    /** Recipe.objects.create: the recipe under a new primary key, with no ingredient rows yet. */
    method InsertRecipe(r: Recipe) returns (id: int)
      requires Valid() && r.tags <= tags.Keys && CookingTimeStorable(r.cookingTime)
      modifies this`recipes
      ensures Valid()
      ensures id !in old(recipes) && recipes == old(recipes)[id := r]
      ensures forall k :: 0 <= k < |recipeRows| ==> recipeRows[k].recipe != id
    {
      id := NextRowId(recipes);
      StoreRecipe(recipes, tags.Keys, id, r);
      recipes := recipes[id := r];
    }

    /**
     * RecipeCreateSerializer.update, for a full (PUT) or a partial (PATCH)
     * request; a field the request leaves out is None.  A missing "ingredients"
     * or "tags" fails before anything changes.  Otherwise: delete all of the
     * recipe's ingredient rows, write the new ones, replace the tag set, then
     * save the fields the request gives.  A failing ingredient stops it with
     * the rows written so far and the old tags and fields; a cooking time the
     * column cannot hold fails the final save, after the rows and the tags
     * have been replaced.
     */
    method Update(id: int, name: Option<string>, text: Option<string>, cookingTime: Option<int>,
                  payload: Option<seq<PayloadItem>>, tagIds: Option<seq<int>>)
      returns (error: Option<SaveError>)
      requires Valid() && id in recipes
      requires tagIds.Some? ==> forall t :: t in tagIds.value ==> t in tags
      modifies this`recipes, this`recipeRows
      ensures Valid()
      ensures payload.None? || tagIds.None? ==>
        error == Some(MissingField) && recipes == old(recipes) && recipeRows == old(recipeRows)
      ensures payload.Some? && tagIds.Some? ==>
        recipeRows == Compose(Others(old(recipeRows), id), id, ingredients.Keys, payload.value).rows
          && Others(recipeRows, id) == Others(old(recipeRows), id)
      ensures payload.Some? && tagIds.Some? && Compose(Others(old(recipeRows), id), id, ingredients.Keys, payload.value).error != None ==>
        error == Lift(Compose(Others(old(recipeRows), id), id, ingredients.Keys, payload.value).error) && recipes == old(recipes)
      ensures payload.Some? && tagIds.Some? && Compose(Others(old(recipeRows), id), id, ingredients.Keys, payload.value).error == None ==>
        error == (if cookingTime.Some? && !CookingTimeStorable(cookingTime.value) then Some(CookingTimeRejected) else None)
          && (forall j :: AmountOf(recipeRows, id, j) == PayloadSum(payload.value, j))
          && (forall j :: Matching(recipeRows, id, j) == if Mentions(payload.value, j) then 1 else 0)
      ensures error != Some(IngredientError(MultipleRowsReturned))
      ensures error == None ==>
        recipes == old(recipes)[id := Patched(old(recipes)[id], name, text, cookingTime, TagSet(tagIds.value))]
      ensures error == Some(CookingTimeRejected) ==> recipes == old(recipes)[id := old(recipes)[id].(tags := TagSet(tagIds.value))]
    {
      if payload.None? || tagIds.None? {
        return Some(MissingField);
      }
      forall t | t in TagSet(tagIds.value)
        ensures t in tags
      {
        assert t in tagIds.value;
      }
      var kept := Others(recipeRows, id);
      ghost var c := Compose(kept, id, ingredients.Keys, payload.value);
      OthersKeepsInvariants(recipeRows, id, recipes.Keys, ingredients.Keys);
      ReplaceGivesPayloadAll(recipeRows, id, ingredients.Keys, payload.value);
      recipeRows := kept;
      var e := CreateIngredients(payload.value, id);
      assert recipeRows == c.rows && e == c.error;
      error := Lift(e);
      if e == None {
        SetTags(id, TagSet(tagIds.value));
        error := SaveFields(id, name, text, cookingTime);
      }
    }

    /** recipe.tags.set(...): the recipe's tag set becomes the given one. */
    method SetTags(id: int, tagSet: set<int>)
      requires Constraints() && id in recipes && tagSet <= tags.Keys
      modifies this`recipes
      ensures Constraints()
      ensures recipes == old(recipes)[id := old(recipes)[id].(tags := tagSet)]
    {
      assert CookingTimeStorable(recipes[id].cookingTime);
      StoreRecipe(recipes, tags.Keys, id, recipes[id].(tags := tagSet));
      recipes := recipes[id := recipes[id].(tags := tagSet)];
    }

    /**
     * The save of ModelSerializer.update: the fields the request gives replace
     * the stored ones, unless the column rejects the cooking time.
     */
    method SaveFields(id: int, name: Option<string>, text: Option<string>, cookingTime: Option<int>)
      returns (error: Option<SaveError>)
      requires Constraints() && id in recipes
      modifies this`recipes
      ensures Constraints()
      ensures error == (if cookingTime.Some? && !CookingTimeStorable(cookingTime.value) then Some(CookingTimeRejected) else None)
      ensures error == None ==> recipes == old(recipes)[id := Patched(old(recipes)[id], name, text, cookingTime, old(recipes)[id].tags)]
      ensures error != None ==> recipes == old(recipes)
    {
      if cookingTime.Some? && !CookingTimeStorable(cookingTime.value) {
        return Some(CookingTimeRejected);
      }
      assert CookingTimeStorable(recipes[id].cookingTime);
      StoreRecipe(recipes, tags.Keys, id, Patched(recipes[id], name, text, cookingTime, recipes[id].tags));
      recipes := recipes[id := Patched(recipes[id], name, text, cookingTime, recipes[id].tags)];
      error := None;
    }

    /**
     * RecipeViewSet.add_obj: validate the (user, recipe) pair with the table's
     * serializer and insert it under a new primary key only if it validates.
     */
    method AddObj(kind: MembershipKind, user: int, recipe: int) returns (res: Result<Membership, Error>, rowId: int)
      requires Valid()
      modifies this`favorites, this`shoppingLists
      ensures Valid()
      ensures res == ValidateMembership(old(Table(kind)), recipes.Keys, user, recipe)
      ensures res.Ok? ==> rowId !in old(Table(kind)) && Table(kind) == old(Table(kind))[rowId := res.value]
      ensures res.Ok? ==> Membership(user, recipe) in Table(kind).Values
      ensures res.Err? ==> Table(kind) == old(Table(kind))
      ensures kind == FavoriteKind ==> shoppingLists == old(shoppingLists)
      ensures kind == ShoppingListKind ==> favorites == old(favorites)
    {
      res := ValidateMembership(Table(kind), recipes.Keys, user, recipe);
      rowId := 0;
      if res.Ok? {
        rowId := NextRowId(Table(kind));
        InsertKeepsUnique(Table(kind), rowId, res.value);
        if kind == FavoriteKind {
          favorites := favorites[rowId := res.value];
        } else {
          shoppingLists := shoppingLists[rowId := res.value];
        }
      }
    }

    /**
     * RecipeViewSet.delete_obj: delete the user's rows for the recipe (204),
     * or answer 400 and change nothing when there are none.
     */
    method DeleteObj(kind: MembershipKind, user: int, recipe: int) returns (res: Result<(), Error>)
      requires Valid()
      modifies this`favorites, this`shoppingLists
      ensures Valid()
      ensures Membership(user, recipe) in old(Table(kind)).Values ==>
        res == Ok(()) && Table(kind) == RemoveRow(old(Table(kind)), Membership(user, recipe))
          && |Table(kind)| == |old(Table(kind))| - 1
      ensures Membership(user, recipe) !in old(Table(kind)).Values ==>
        res == Err(BadRequest) && Table(kind) == old(Table(kind))
      ensures Membership(user, recipe) !in Table(kind).Values
      ensures kind == FavoriteKind ==> shoppingLists == old(shoppingLists)
      ensures kind == ShoppingListKind ==> favorites == old(favorites)
    {
      var row := Membership(user, recipe);
      if row in Table(kind).Values {
        RemoveDropsOneRow(Table(kind), row);
        if kind == FavoriteKind {
          favorites := RemoveRow(favorites, row);
        } else {
          shoppingLists := RemoveRow(shoppingLists, row);
        }
        res := Ok(());
      } else {
        res := Err(BadRequest);
      }
    }

    /**
     * CustomUserViewSet.subscribe: the author must exist; POST inserts the
     * follow once FollowSerializer.validate accepts it; DELETE removes the
     * follow, or is not-found when there is none.
     */
    method Subscribe(user: int, author: int, verb: HttpMethod) returns (res: Result<Follow, Error>, rowId: int)
      requires Valid()
      modifies this`follows
      ensures Valid()
      ensures author !in users ==> res == Err(NotFound) && follows == old(follows)
      ensures author in users && verb == Post ==> res == ValidateFollow(old(follows), users.Keys, user, author)
      ensures author in users && verb == Post && res.Ok? ==>
        rowId !in old(follows) && follows == old(follows)[rowId := Follow(user, author)]
      ensures author in users && verb == Delete && Follow(user, author) in old(follows).Values ==>
        res == Ok(Follow(user, author)) && follows == RemoveRow(old(follows), Follow(user, author))
          && |follows| == |old(follows)| - 1
      ensures author in users && verb == Delete && Follow(user, author) !in old(follows).Values ==>
        res == Err(NotFound)
      ensures author in users && verb == OtherMethod ==> res == Err(MethodNotAllowed)
      ensures res.Err? ==> follows == old(follows)
    {
      rowId := 0;
      if author !in users {
        return Err(NotFound), rowId;
      }
      var f := Follow(user, author);
      match verb
      case Post =>
        res := ValidateFollow(follows, users.Keys, user, author);
        if res.Ok? {
          rowId := NextRowId(follows);
          InsertKeepsUnique(follows, rowId, f);
          InsertKeepsNoSelfFollow(follows, rowId, f);
          follows := follows[rowId := f];
        }
      case Delete =>
        if f in follows.Values {
          RemoveDropsOneRow(follows, f);
          RemoveKeepsNoSelfFollow(follows, f);
          follows := RemoveRow(follows, f);
          res := Ok(f);
        } else {
          res := Err(NotFound);
        }
      case OtherMethod =>
        res := Err(MethodNotAllowed);
    }

    /**
     * RecipeViewSet.download_shopping_cart: the document for the grouped
     * amounts of the user's shopping-list recipes.
     */
    method DownloadShoppingCart(user: int) returns (text: string)
      requires Valid()
      ensures text == ExportText(Aggregate(CartLines(recipeRows, ingredients, Cart(shoppingLists, user))))
      ensures (forall k :: k in shoppingLists ==> shoppingLists[k].user != user) ==> text == Header
    {
      var cart := Cart(shoppingLists, user);
      var groups := Aggregate(CartLines(recipeRows, ingredients, cart));
      text := RenderShoppingCart(groups);
      if forall k :: k in shoppingLists ==> shoppingLists[k].user != user {
        assert cart == {};
      }
    }
  }
}
