/** The older recipe serializer of the `foodgram` application: `create` and `update`
    write the recipe, then create its ingredient rows one at a time and set its tags,
    with no transaction around them, so a row that cannot be written stops the sequence
    and leaves what was written before it. */
module LegacySerializers {
  import opened Common
  import opened Models

  /** The serializer's validated data. `description` is the recipe's text column; the
      nested ingredient list and the tag list are popped unconditionally. */
  datatype LegacyData = LegacyData(
    name: Option<string>,
    image: Option<string>,
    description: Option<string>,
    ingredients: Option<seq<IngredientEntry>>,
    tags: Option<set<TagId>>,
    cookingTime: Option<int>)

  /** Every payload amount passed `validate_positive`. */
  predicate AmountsPositive(entries: seq<IngredientEntry>)
  {
    forall i | 0 <= i < |entries| :: entries[i].amount >= MIN_VALUE
  }

  /** Creating the row for `e` fails: its ingredient does not exist (foreign key), or the
      recipe already has a row for it (`unique_recipe_ingredient`). */
  predicate Clashes(ingredients: map<IngredientId, Ingredient>, rows: seq<RecipeIngredient>,
                    recipe: RecipeId, e: IngredientEntry)
  {
    || e.id !in ingredients
    || exists k | 0 <= k < |rows| :: rows[k].recipe == recipe && rows[k].ingredient == e.id
  }

  /** How many entries, from `k` on, are written one by one before the first that clashes
      with the rows written so far. */
  function Saved(ingredients: map<IngredientId, Ingredient>, rows: seq<RecipeIngredient>,
                 recipe: RecipeId, entries: seq<IngredientEntry>, k: nat): (r: nat)
    requires k <= |entries|
    ensures k <= r <= |entries|
    ensures forall j | k <= j < r :: !Clashes(ingredients, rows + RowsFor(recipe, entries[..j]), recipe, entries[j])
    ensures r < |entries| ==> Clashes(ingredients, rows + RowsFor(recipe, entries[..r]), recipe, entries[r])
    decreases |entries| - k
  {
    if k == |entries| then k
    else if Clashes(ingredients, rows + RowsFor(recipe, entries[..k]), recipe, entries[k]) then k
    else Saved(ingredients, rows, recipe, entries, k + 1)
  }

  /** The rows written before the entry at `j` hold a row for `id` exactly when an earlier
      entry has that id or the recipe already had one. */
  lemma RowsBefore(rows: seq<RecipeIngredient>, recipe: RecipeId, entries: seq<IngredientEntry>,
                   j: nat, id: IngredientId)
    requires j <= |entries|
    ensures (exists k | 0 <= k < |rows + RowsFor(recipe, entries[..j])| ::
               (rows + RowsFor(recipe, entries[..j]))[k].recipe == recipe
               && (rows + RowsFor(recipe, entries[..j]))[k].ingredient == id)
            <==> (exists k | 0 <= k < |rows| :: rows[k].recipe == recipe && rows[k].ingredient == id)
                 || (exists k | 0 <= k < j :: entries[k].id == id)
  {
    var all := rows + RowsFor(recipe, entries[..j]);
    if exists k | 0 <= k < j :: entries[k].id == id {
      var k :| 0 <= k < j && entries[k].id == id;
      assert all[|rows| + k] == RecipeIngredient(recipe, id, entries[k].amount);
    }
    if exists k | 0 <= k < |rows| :: rows[k].recipe == recipe && rows[k].ingredient == id {
      var k :| 0 <= k < |rows| && rows[k].recipe == recipe && rows[k].ingredient == id;
      assert all[k] == rows[k];
    }
    if exists k | 0 <= k < |all| :: all[k].recipe == recipe && all[k].ingredient == id {
      var k :| 0 <= k < |all| && all[k].recipe == recipe && all[k].ingredient == id;
      if k >= |rows| {
        assert all[k] == RowsFor(recipe, entries[..j])[k - |rows|];
        assert entries[..j][k - |rows|] == entries[k - |rows|];
        assert entries[k - |rows|].id == id;
      } else {
        assert rows[k] == all[k];
      }
    }
  }

  /** When the recipe starts with no rows, every entry is written exactly when the
      ingredients all exist and no id repeats. */
  lemma AllSavedIff(ingredients: map<IngredientId, Ingredient>, rows: seq<RecipeIngredient>,
                    recipe: RecipeId, entries: seq<IngredientEntry>)
    requires forall k | 0 <= k < |rows| :: rows[k].recipe != recipe
    ensures Saved(ingredients, rows, recipe, entries, 0) == |entries|
            <==> DistinctIds(entries) && forall i | 0 <= i < |entries| :: entries[i].id in ingredients
  {
    var r := Saved(ingredients, rows, recipe, entries, 0);
    if r == |entries| {
      forall i | 0 <= i < |entries| ensures entries[i].id in ingredients {
        assert !Clashes(ingredients, rows + RowsFor(recipe, entries[..i]), recipe, entries[i]);
      }
      forall i, j | 0 <= i < j < |entries| ensures entries[i].id != entries[j].id {
        assert !Clashes(ingredients, rows + RowsFor(recipe, entries[..j]), recipe, entries[j]);
        RowsBefore(rows, recipe, entries, j, entries[j].id);
      }
    } else if DistinctIds(entries) && forall i | 0 <= i < |entries| :: entries[i].id in ingredients {
      RowsBefore(rows, recipe, entries, r, entries[r].id);
      assert false;
    }
  }

  /** A row whose key no stored row has can be appended without breaking
      `unique_recipe_ingredient`. */
  lemma AppendUnclashed(rows: seq<RecipeIngredient>, recipe: RecipeId, e: IngredientEntry)
    requires RowKeysUnique(rows)
    requires !exists k | 0 <= k < |rows| :: rows[k].recipe == recipe && rows[k].ingredient == e.id
    ensures RowKeysUnique(rows + [RecipeIngredient(recipe, e.id, e.amount)])
  {
    var all := rows + [RecipeIngredient(recipe, e.id, e.amount)];
    forall a, b | 0 <= a < b < |all|
      ensures all[a].recipe != all[b].recipe || all[a].ingredient != all[b].ingredient
    {
      assert all[a] == rows[a];
      if b < |rows| {
        assert all[b] == rows[b];
      }
    }
  }

  /** `_save_ingredients`: create one row per entry, in order, stopping at the first that
      cannot be written; the rows written before it stay. */
  method SaveOneByOne(db: Database, recipe: RecipeId, entries: seq<IngredientEntry>) returns (saved: nat)
    requires db.Valid() && recipe in db.recipes && AmountsPositive(entries)
    modifies db
    ensures db.Valid()
    ensures saved == Saved(old(db.ingredients), old(db.recipeIngredients), recipe, entries, 0)
    ensures db.Snapshot() == old(db.Snapshot()).(recipeIngredients := old(db.recipeIngredients) + RowsFor(recipe, entries[..saved]))
  {
    ghost var rows0 := db.recipeIngredients;
    var i := 0;
    while i < |entries|
      invariant 0 <= i <= |entries|
      invariant db.Valid()
      invariant db.Snapshot() == old(db.Snapshot()).(recipeIngredients := rows0 + RowsFor(recipe, entries[..i]))
      invariant Saved(db.ingredients, rows0, recipe, entries, i) == Saved(db.ingredients, rows0, recipe, entries, 0)
    {
      var e := entries[i];
      if Clashes(db.ingredients, db.recipeIngredients, recipe, e) {
        break;
      }
      var row := RecipeIngredient(recipe, e.id, e.amount);
      AppendUnclashed(db.recipeIngredients, recipe, e);
      db.recipeIngredients := db.recipeIngredients + [row];
      assert RowsFor(recipe, entries[..i + 1]) == RowsFor(recipe, entries[..i]) + [row];
      i := i + 1;
    }
    saved := i;
  }

  /** The recipe `Recipe.objects.create` writes: the requesting user as author, the
      scalar fields of the data, no tags yet and an empty hash. */
  function NewLegacyRecipe(user: UserId, data: LegacyData): (r: Recipe)
    requires data.name.Some? && data.image.Some? && data.description.Some? && data.cookingTime.Some?
    ensures r.author == user && r.tags == {} && r.shortLink == ""
    ensures r.name == data.name.value && r.image == data.image.value
    ensures r.text == data.description.value && r.cookingTime == data.cookingTime.value
  {
    Recipe(user, data.name.value, data.image.value, data.description.value, data.cookingTime.value, {}, "")
  }

  /** The field assignments of `update`: name, description and cooking time are replaced
      when present and kept when absent; the image only when a non-empty one is given. */
  function UpdatedFields(r: Recipe, data: LegacyData): (s: Recipe)
    ensures data.name.None? ==> s.name == r.name
    ensures data.description.None? ==> s.text == r.text
    ensures data.cookingTime.None? ==> s.cookingTime == r.cookingTime
    ensures !Filled(data.image) ==> s.image == r.image
    ensures Filled(data.image) ==> s.image == data.image.value
    ensures s.author == r.author && s.tags == r.tags && s.shortLink == r.shortLink
    ensures data == LegacyData(None, None, None, data.ingredients, data.tags, None) ==> s == r
  {
    r.(name := if data.name.Some? then data.name.value else r.name,
       text := if data.description.Some? then data.description.value else r.text,
       cookingTime := if data.cookingTime.Some? then data.cookingTime.value else r.cookingTime,
       image := if Filled(data.image) then data.image.value else r.image)
  }

  /** `create`: the recipe (author from the view), then its rows one by one, then its
      tags. A row that cannot be written ends the request with a server error, leaving
      the recipe without tags and with the rows written so far. */
  method LegacyCreate(db: Database, user: UserId, data: LegacyData, draws: seq<string>)
    returns (status: Status, id: RecipeId, saved: nat)
    requires db.Valid() && user in db.users
    requires data.name.Some? && data.image.Some? && data.description.Some? && data.cookingTime.Some?
    requires data.ingredients.Some? && data.tags.Some?
    requires data.cookingTime.value >= MIN_VALUE && data.tags.value <= db.tags
    requires AmountsPositive(data.ingredients.value)
    requires exists i :: 0 <= i < |draws| && draws[i] !in ShortLinks(db.recipes)
    modifies db
    ensures db.Valid()
    ensures id == old(db.nextRecipeId)
    ensures saved == Saved(old(db.ingredients), old(db.recipeIngredients), id, data.ingredients.value, 0)
    ensures status == if saved == |data.ingredients.value| then Created201 else ServerError500
    ensures var r := FillShortLink(NewLegacyRecipe(user, data), old(ShortLinks(db.recipes)), draws);
            db.Snapshot() == old(db.Snapshot()).(
              recipes := old(db.recipes)[id := if status == Created201 then r.(tags := data.tags.value) else r],
              nextRecipeId := id + 1,
              recipeIngredients := old(db.recipeIngredients) + RowsFor(id, data.ingredients.value[..saved]))
  {
    var entries := data.ingredients.value;
    id := db.nextRecipeId;
    var r := db.SaveRecipe(id, NewLegacyRecipe(user, data), draws);
    saved := SaveOneByOne(db, id, entries);
    if saved < |entries| {
      return ServerError500, id, saved;
    }
    db.SetTags(id, data.tags.value);
    status := Created201;
  }

  /** The second half of `update`: `instance.ingredients.clear()`, then `_save_ingredients`
      writing the entries one by one up to the first failure, then `tags.set` once every
      entry is written. */
  method ReplaceRowsAndTags(db: Database, recipe: RecipeId, entries: seq<IngredientEntry>, tags: set<TagId>)
    returns (saved: nat)
    requires db.Valid() && recipe in db.recipes && AmountsPositive(entries) && tags <= db.tags
    modifies db
    ensures db.Valid()
    ensures saved == Saved(old(db.ingredients), RowsWithout(old(db.recipeIngredients), recipe), recipe, entries, 0)
    ensures db.Snapshot() == old(db.Snapshot()).(
              recipes := if saved == |entries| then old(db.recipes)[recipe := old(db.recipes)[recipe].(tags := tags)]
                         else old(db.recipes),
              recipeIngredients := RowsWithout(old(db.recipeIngredients), recipe) + RowsFor(recipe, entries[..saved]))
  {
    db.DeleteRows(recipe);
    saved := SaveOneByOne(db, recipe, entries);
    if saved == |entries| {
      db.SetTags(recipe, tags);
    }
  }

  /** `update`: without an ingredient or tag list the pop fails before anything is
      written. Otherwise the fields are assigned and saved, every row of the recipe is
      deleted, the entries are written one by one, and the tags are set once all are. */
  method LegacyUpdate(db: Database, id: RecipeId, data: LegacyData, draws: seq<string>)
    returns (status: Status, saved: nat)
    requires db.Valid() && id in db.recipes
    requires data.cookingTime.Some? ==> data.cookingTime.value >= MIN_VALUE
    requires data.tags.Some? ==> data.tags.value <= db.tags
    requires data.ingredients.Some? ==> AmountsPositive(data.ingredients.value)
    requires db.recipes[id].shortLink == "" ==> exists i :: 0 <= i < |draws| && draws[i] !in ShortLinks(db.recipes)
    modifies db
    ensures db.Valid()
    ensures data.ingredients.None? || data.tags.None? ==>
              status == ServerError500 && saved == 0 && db.Snapshot() == old(db.Snapshot())
    ensures data.ingredients.Some? && data.tags.Some? ==>
              var kept := RowsWithout(old(db.recipeIngredients), id);
              var entries := data.ingredients.value;
              var r := FillShortLink(UpdatedFields(old(db.recipes)[id], data), old(ShortLinks(db.recipes)), draws);
              && saved == Saved(old(db.ingredients), kept, id, entries, 0)
              && status == (if saved == |entries| then Ok200 else ServerError500)
              && db.Snapshot() == old(db.Snapshot()).(
                   recipes := old(db.recipes)[id := if status == Ok200 then r.(tags := data.tags.value) else r],
                   recipeIngredients := kept + RowsFor(id, entries[..saved]))
  {
    if data.ingredients.None? || data.tags.None? {
      return ServerError500, 0;
    }
    saved := ApplyLegacyUpdate(db, id, data, draws);
    status := if saved == |data.ingredients.value| then Ok200 else ServerError500;
  }

  /** The writes of `update` once both lists are present: the fields are assigned and
      saved, then the rows are replaced one by one and the tags set if every row is. */
  method ApplyLegacyUpdate(db: Database, id: RecipeId, data: LegacyData, draws: seq<string>)
    returns (saved: nat)
    requires db.Valid() && id in db.recipes
    requires data.ingredients.Some? && data.tags.Some?
    requires data.cookingTime.Some? ==> data.cookingTime.value >= MIN_VALUE
    requires data.tags.value <= db.tags && AmountsPositive(data.ingredients.value)
    requires db.recipes[id].shortLink == "" ==> exists i :: 0 <= i < |draws| && draws[i] !in ShortLinks(db.recipes)
    modifies db
    ensures db.Valid()
    ensures var kept := RowsWithout(old(db.recipeIngredients), id);
            var entries := data.ingredients.value;
            var r := FillShortLink(UpdatedFields(old(db.recipes)[id], data), old(ShortLinks(db.recipes)), draws);
            && saved == Saved(old(db.ingredients), kept, id, entries, 0)
            && db.Snapshot() == old(db.Snapshot()).(
                 recipes := old(db.recipes)[id := if saved == |entries| then r.(tags := data.tags.value) else r],
                 recipeIngredients := kept + RowsFor(id, entries[..saved]))
  {
    var entries := data.ingredients.value;
    var r := UpdatedFields(db.recipes[id], data);
    ghost var t := db.Snapshot();
    var s := db.SaveRecipe(id, r, draws);
    assert db.Snapshot() == t.(recipes := t.recipes[id := s]);
    saved := ReplaceRowsAndTags(db, id, entries, data.tags.value);
  }
}
