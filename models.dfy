/** The relational schema of the recipe store: every table as a value, the uniqueness,
    check and minimum-value constraints as predicates over those values, and the
    short-link hash a recipe receives when it is saved without one. */
module Models {
  import opened Common

  type UserId = int
  type RecipeId = int
  type IngredientId = int
  type TagId = int

  /** Floor of the minimum-value validators on cooking time and amounts. */
  const MIN_VALUE := 1
  /** Length of a generated short-link hash (the column holds six characters). */
  const SHORT_LINK_LENGTH := 6
  /** Longest recipe name the column holds, once surrounding whitespace is trimmed. Its
      value is set in `backend/foodgram/constants.py`, which is not part of this model, so
      it is left open and every property here holds whatever it is. */
  const RECIPE_NAME_MAX_LENGTH: nat

  datatype Ingredient = Ingredient(name: string, unit: string)

  /** A recipe row; `image` is the stored file name, empty when there is none. */
  datatype Recipe = Recipe(author: UserId, name: string, image: string, text: string,
                           cookingTime: int, tags: set<TagId>, shortLink: string)

  datatype RecipeIngredient = RecipeIngredient(recipe: RecipeId, ingredient: IngredientId, amount: int)

  /** One `{id, amount}` item of a recipe payload. */
  datatype IngredientEntry = IngredientEntry(id: IngredientId, amount: int)

  // ---------------------------------------------------------------------------
  // Constraints

  /** Check constraint `prevent_self_subscription`; `unique_subscription` holds because
      the table is a set of pairs. */
  predicate NoSelfSubscription(subs: set<(UserId, UserId)>)
  {
    forall p | p in subs :: p.0 != p.1
  }

  /** Unique constraint `unique_ingredient_name_unit`. */
  predicate IngredientPairsUnique(m: map<IngredientId, Ingredient>)
  {
    forall a, b | a in m && b in m && a != b :: m[a] != m[b]
  }

  /** Unique constraint `unique_recipe_ingredient`. */
  predicate RowKeysUnique(rows: seq<RecipeIngredient>)
  {
    forall i, j | 0 <= i < j < |rows| ::
      rows[i].recipe != rows[j].recipe || rows[i].ingredient != rows[j].ingredient
  }

  /** Minimum-value validator on `RecipeIngredient.amount`. */
  predicate AmountsValid(rows: seq<RecipeIngredient>)
  {
    forall i | 0 <= i < |rows| :: rows[i].amount >= MIN_VALUE
  }

  /** Minimum-value validator on `Recipe.cooking_time`. */
  predicate CookingTimesValid(recipes: map<RecipeId, Recipe>)
  {
    forall id | id in recipes :: recipes[id].cookingTime >= MIN_VALUE
  }

  predicate UsernamesUnique(users: map<UserId, string>)
  {
    forall a, b | a in users && b in users && a != b :: users[a] != users[b]
  }

  /** The whole store. Favorites and shopping-cart rows are sets of (user, recipe) pairs,
      which is their `unique_..._user_recipe` constraint; recipe ids are allocated in
      increasing order from `nextRecipeId`. */
  datatype Tables = Tables(
    users: map<UserId, string>,
    tags: set<TagId>,
    ingredients: map<IngredientId, Ingredient>,
    nextIngredientId: IngredientId,
    recipes: map<RecipeId, Recipe>,
    nextRecipeId: RecipeId,
    recipeIngredients: seq<RecipeIngredient>,
    favorites: set<(UserId, RecipeId)>,
    carts: set<(UserId, RecipeId)>,
    subscriptions: set<(UserId, UserId)>)
  {
    /** Every declared constraint, plus the foreign keys. */
    predicate Valid()
    {
      && UsernamesUnique(users)
      && NoSelfSubscription(subscriptions)
      && IngredientPairsUnique(ingredients)
      && RowKeysUnique(recipeIngredients)
      && AmountsValid(recipeIngredients)
      && CookingTimesValid(recipes)
      && 0 <= nextIngredientId && 0 <= nextRecipeId
      && (forall id | id in ingredients :: 0 <= id < nextIngredientId)
      && (forall id | id in recipes ::
            0 <= id < nextRecipeId && recipes[id].author in users && recipes[id].tags <= tags)
      && (forall i | 0 <= i < |recipeIngredients| ::
            recipeIngredients[i].recipe in recipes && recipeIngredients[i].ingredient in ingredients)
      && (forall p | p in favorites :: p.0 in users && p.1 in recipes)
      && (forall p | p in carts :: p.0 in users && p.1 in recipes)
      && (forall p | p in subscriptions :: p.0 in users && p.1 in users)
    }
  }

  /** The two (user, recipe) membership tables, favorites and shopping cart. */
  datatype Collection = Favorites | ShoppingCart

  function Members(t: Tables, c: Collection): set<(UserId, RecipeId)>
  {
    match c
    case Favorites => t.favorites
    case ShoppingCart => t.carts
  }

  function WithMembers(t: Tables, c: Collection, m: set<(UserId, RecipeId)>): Tables
  {
    match c
    case Favorites => t.(favorites := m)
    case ShoppingCart => t.(carts := m)
  }

  // ---------------------------------------------------------------------------
  // Short links

  function ShortLinks(recipes: map<RecipeId, Recipe>): set<string>
  {
    set id | id in recipes :: recipes[id].shortLink
  }

  /** What sequential generation maintains (the column itself is not unique). */
  predicate ShortLinksDistinct(recipes: map<RecipeId, Recipe>)
  {
    && (forall id | id in recipes :: recipes[id].shortLink != "")
    && (forall a, b | a in recipes && b in recipes && a != b ::
          recipes[a].shortLink != recipes[b].shortLink)
  }

  /** The random draws are six-character strings. */
  predicate DrawsWellFormed(draws: seq<string>)
  {
    forall i | 0 <= i < |draws| :: |draws[i]| == SHORT_LINK_LENGTH
  }

  /** The first draw not already taken, if the draws contain one. */
  function FirstFresh(taken: set<string>, draws: seq<string>): (r: Option<string>)
    ensures r.Some? <==> exists i :: 0 <= i < |draws| && draws[i] !in taken
    ensures r.Some? ==> exists i :: 0 <= i < |draws| && draws[i] == r.value && r.value !in taken
                          && forall j :: 0 <= j < i ==> draws[j] in taken
  {
    if |draws| == 0 then None
    else if draws[0] !in taken then Some(draws[0])
    else
      var r := FirstFresh(taken, draws[1..]);
      assert forall i :: 1 <= i < |draws| ==> draws[i] == draws[1..][i - 1];
      r
  }

  /** `generate_short_link`: draw until the value is not any recipe's hash. The draws
      stand for `get_random_string`; the loop ends because some draw is fresh. */
  method GenerateShortLink(taken: set<string>, draws: seq<string>) returns (link: string)
    requires exists i :: 0 <= i < |draws| && draws[i] !in taken
    ensures link !in taken
    ensures Some(link) == FirstFresh(taken, draws)
  {
    var i := 0;
    while draws[i] in taken
      invariant 0 <= i < |draws|
      invariant exists j :: i <= j < |draws| && draws[j] !in taken
      invariant FirstFresh(taken, draws[i..]) == FirstFresh(taken, draws)
      decreases |draws| - i
    {
      assert draws[i..][1..] == draws[i + 1..];
      i := i + 1;
    }
    link := draws[i];
  }

  /** The hash `save` leaves on a recipe: kept when non-empty, otherwise generated. */
  function FillShortLink(r: Recipe, taken: set<string>, draws: seq<string>): (s: Recipe)
    requires r.shortLink == "" ==> exists i :: 0 <= i < |draws| && draws[i] !in taken
    ensures s.(shortLink := r.shortLink) == r
    ensures r.shortLink != "" ==> s == r
    ensures r.shortLink == "" ==> s.shortLink !in taken && s.shortLink in draws
  {
    if r.shortLink != "" then r else r.(shortLink := FirstFresh(taken, draws).value)
  }

  /** Saving twice changes nothing more than saving once: the first save leaves a
      non-empty hash whenever the draws are six-character strings. */
  lemma SaveIdempotent(r: Recipe, taken: set<string>, draws: seq<string>,
                       taken': set<string>, draws': seq<string>)
    requires DrawsWellFormed(draws)
    requires r.shortLink == "" ==> exists i :: 0 <= i < |draws| && draws[i] !in taken
    ensures FillShortLink(FillShortLink(r, taken, draws), taken', draws') == FillShortLink(r, taken, draws)
  {
    if r.shortLink == "" {
      var s := FillShortLink(r, taken, draws);
      var i :| 0 <= i < |draws| && draws[i] == s.shortLink;
      assert |s.shortLink| == SHORT_LINK_LENGTH;
    }
  }

  /** The schema alone admits two recipes sharing a hash: only generation keeps them apart. */
  lemma SchemaAllowsSharedShortLink()
    ensures var r := Recipe(1, "soup", "soup.png", "boil", 10, {}, "abcdef");
            var t := Tables(map[1 := "ann"], {}, map[], 0, map[0 := r, 1 := r], 2, [], {}, {}, {});
            t.Valid() && !ShortLinksDistinct(t.recipes)
  {
    var r := Recipe(1, "soup", "soup.png", "boil", 10, {}, "abcdef");
    var recipes := map[0 := r, 1 := r];
    assert recipes.Keys == {0, 1};
    assert recipes[0].shortLink == recipes[1].shortLink;
  }

  // ---------------------------------------------------------------------------
  // Ingredient rows of a recipe

  predicate DistinctIds(entries: seq<IngredientEntry>)
  {
    forall i, j | 0 <= i < j < |entries| :: entries[i].id != entries[j].id
  }

  /** `_save_ingredients`: one row per payload entry, in payload order. */
  function RowsFor(recipe: RecipeId, entries: seq<IngredientEntry>): seq<RecipeIngredient>
  {
    seq(|entries|, i requires 0 <= i < |entries| =>
      RecipeIngredient(recipe, entries[i].id, entries[i].amount))
  }

  /** The rows left after deleting those of `recipe`. */
  function RowsWithout(rows: seq<RecipeIngredient>, recipe: RecipeId): seq<RecipeIngredient>
  {
    if |rows| == 0 then []
    else if rows[0].recipe == recipe then RowsWithout(rows[1..], recipe)
    else [rows[0]] + RowsWithout(rows[1..], recipe)
  }

  /** Deleting a recipe's rows keeps exactly the other rows and keeps their keys unique. */
  lemma {:induction false} RowsWithoutSpec(rows: seq<RecipeIngredient>, recipe: RecipeId)
    ensures forall x :: x in RowsWithout(rows, recipe) <==> x in rows && x.recipe != recipe
    ensures RowKeysUnique(rows) ==> RowKeysUnique(RowsWithout(rows, recipe))
    ensures AmountsValid(rows) ==> AmountsValid(RowsWithout(rows, recipe))
  {
    if |rows| > 0 {
      RowsWithoutSpec(rows[1..], recipe);
      assert forall x :: x in rows <==> x == rows[0] || x in rows[1..];
      if RowKeysUnique(rows) {
        assert RowKeysUnique(rows[1..]) by {
          forall i, j | 0 <= i < j < |rows[1..]|
            ensures rows[1..][i].recipe != rows[1..][j].recipe || rows[1..][i].ingredient != rows[1..][j].ingredient
          {
            assert rows[1..][i] == rows[i + 1] && rows[1..][j] == rows[j + 1];
          }
        }
        var rest := RowsWithout(rows[1..], recipe);
        forall j | 0 <= j < |rest|
          ensures rows[0].recipe != rest[j].recipe || rows[0].ingredient != rest[j].ingredient
        {
          assert rest[j] in rows[1..];
          var k :| 0 <= k < |rows[1..]| && rows[1..][k] == rest[j];
          assert rows[k + 1] == rest[j];
        }
      }
      if AmountsValid(rows) {
        assert AmountsValid(rows[1..]) by {
          forall i | 0 <= i < |rows[1..]| ensures rows[1..][i].amount >= MIN_VALUE {
            assert rows[1..][i] == rows[i + 1];
          }
        }
      }
    }
  }

  /** Payload rows with distinct ingredient ids have unique keys. */
  lemma RowsForSpec(recipe: RecipeId, entries: seq<IngredientEntry>)
    requires DistinctIds(entries)
    ensures RowKeysUnique(RowsFor(recipe, entries))
    ensures forall x :: x in RowsFor(recipe, entries) ==> x.recipe == recipe
  {
  }

  /** Two blocks of rows for different recipes can be stored side by side. */
  lemma AppendRowsUnique(a: seq<RecipeIngredient>, b: seq<RecipeIngredient>)
    requires RowKeysUnique(a) && RowKeysUnique(b)
    requires forall x, y | x in a && y in b :: x.recipe != y.recipe
    ensures RowKeysUnique(a + b)
  {
    forall i, j | 0 <= i < j < |a + b|
      ensures (a + b)[i].recipe != (a + b)[j].recipe || (a + b)[i].ingredient != (a + b)[j].ingredient
    {
      if i < |a| && j >= |a| {
        assert (a + b)[i] in a && (a + b)[j] in b;
      } else if i >= |a| {
        assert (a + b)[i] == b[i - |a|] && (a + b)[j] == b[j - |a|];
      }
    }
  }

  /** Replacing a recipe's rows by the rows of a payload without duplicate ids keeps
      `unique_recipe_ingredient`. */
  lemma ReplaceRowsUnique(rows: seq<RecipeIngredient>, recipe: RecipeId, entries: seq<IngredientEntry>)
    requires RowKeysUnique(rows) && DistinctIds(entries)
    ensures RowKeysUnique(RowsWithout(rows, recipe) + RowsFor(recipe, entries))
  {
    RowsWithoutSpec(rows, recipe);
    RowsForSpec(recipe, entries);
    AppendRowsUnique(RowsWithout(rows, recipe), RowsFor(recipe, entries));
  }

  // ---------------------------------------------------------------------------
  // The database object

  /** The store as a mutable object; `Snapshot` is its value. */
  class Database {
    var users: map<UserId, string>
    var tags: set<TagId>
    var ingredients: map<IngredientId, Ingredient>
    var nextIngredientId: IngredientId
    var recipes: map<RecipeId, Recipe>
    var nextRecipeId: RecipeId
    var recipeIngredients: seq<RecipeIngredient>
    var favorites: set<(UserId, RecipeId)>
    var carts: set<(UserId, RecipeId)>
    var subscriptions: set<(UserId, UserId)>

    function Snapshot(): Tables
      reads this
    {
      Tables(users, tags, ingredients, nextIngredientId, recipes, nextRecipeId,
             recipeIngredients, favorites, carts, subscriptions)
    }

    ghost predicate Valid()
      reads this
    {
      Snapshot().Valid()
    }

    constructor (t: Tables)
      requires t.Valid()
      ensures Valid() && Snapshot() == t
    {
      users, tags, ingredients, nextIngredientId := t.users, t.tags, t.ingredients, t.nextIngredientId;
      recipes, nextRecipeId, recipeIngredients := t.recipes, t.nextRecipeId, t.recipeIngredients;
      favorites, carts, subscriptions := t.favorites, t.carts, t.subscriptions;
    }

    /** `Recipe.save`: fill an empty hash with a fresh one, then write the row under `id`
        (an existing recipe, or the next id for a new one). */
    method SaveRecipe(id: RecipeId, r: Recipe, draws: seq<string>) returns (saved: Recipe)
      requires Valid()
      requires id in recipes || id == nextRecipeId
      requires r.cookingTime >= MIN_VALUE && r.author in users && r.tags <= tags
      requires r.shortLink == "" ==> exists i :: 0 <= i < |draws| && draws[i] !in ShortLinks(recipes)
      modifies this
      ensures Valid()
      ensures saved == FillShortLink(r, old(ShortLinks(recipes)), draws)
      ensures Snapshot() == old(Snapshot()).(recipes := old(recipes)[id := saved],
                                             nextRecipeId := if id == old(nextRecipeId) then id + 1 else old(nextRecipeId))
      ensures old(ShortLinksDistinct(recipes)) && DrawsWellFormed(draws)
              && (id in old(recipes) ==> r.shortLink == old(recipes)[id].shortLink)
              && (id !in old(recipes) ==> r.shortLink == "")
              ==> ShortLinksDistinct(recipes)
    {
      var link := r.shortLink;
      if link == "" {
        link := GenerateShortLink(ShortLinks(recipes), draws);
      }
      saved := r.(shortLink := link);
      ghost var before := recipes;
      recipes := recipes[id := saved];
      if id == nextRecipeId {
        nextRecipeId := nextRecipeId + 1;
      }
      if ShortLinksDistinct(before) && DrawsWellFormed(draws)
         && (id in before ==> r.shortLink == before[id].shortLink)
         && (id !in before ==> r.shortLink == "")
      {
        if r.shortLink == "" {
          var i :| 0 <= i < |draws| && draws[i] == link;
          assert |link| == SHORT_LINK_LENGTH;
          forall a | a in before && a != id ensures before[a].shortLink != link {
            assert before[a].shortLink in ShortLinks(before);
          }
        }
      }
    }

    /** `recipe.tags.set(...)`: the recipe's tag links become exactly `newTags`. */
    method SetTags(id: RecipeId, newTags: set<TagId>)
      requires Valid() && id in recipes && newTags <= tags
      modifies this
      ensures Valid()
      ensures Snapshot() == old(Snapshot()).(recipes := old(recipes)[id := old(recipes)[id].(tags := newTags)])
      ensures ShortLinks(recipes) == old(ShortLinks(recipes))
      ensures old(ShortLinksDistinct(recipes)) ==> ShortLinksDistinct(recipes)
    {
      ghost var before := recipes;
      recipes := recipes[id := recipes[id].(tags := newTags)];
      assert forall k | k in recipes :: recipes[k].shortLink == before[k].shortLink;
      assert ShortLinks(recipes) == ShortLinks(before) by {
        forall l | l in ShortLinks(before) ensures l in ShortLinks(recipes) {
          var k :| k in before && before[k].shortLink == l;
          assert recipes[k].shortLink == l;
        }
      }
    }

    /** Deletes every ingredient row of `recipe`. */
    method DeleteRows(recipe: RecipeId)
      requires Valid()
      modifies this
      ensures Valid()
      ensures Snapshot() == old(Snapshot()).(recipeIngredients := RowsWithout(old(recipeIngredients), recipe))
      ensures forall x | x in recipeIngredients :: x.recipe != recipe
    {
      RowsWithoutSpec(recipeIngredients, recipe);
      var kept := RowsWithout(recipeIngredients, recipe);
      assert forall i | 0 <= i < |kept| :: kept[i] in recipeIngredients;
      recipeIngredients := kept;
    }
  }
}
