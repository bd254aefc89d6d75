/** The recipe write serializer of the API: field-level checks in declaration order,
    the object-level `validate`, and `create`/`update` replacing a recipe's ingredient
    rows and tags wholesale; the subscription validator; the limited recipe list of a
    subscribed author; and the per-viewer favorite and cart flags. */
module ApiSerializers {
  import opened Common
  import opened Models

  // ---------------------------------------------------------------------------
  // Payloads and errors

  /** The writable fields of the recipe serializer, in declaration order. */
  datatype Field = AuthorField | NameField | ImageField | IngredientsField | TagsField
                 | CookingTimeField | TextField

  datatype Problem =
    | Required      // absent from a full (non-partial) payload
    | Blank         // a string that is empty once trimmed, or an empty image
    | TooLong       // a trimmed name longer than RECIPE_NAME_MAX_LENGTH
    | Empty         // absent or empty list or text, reported by `validate`
    | Duplicates    // a repeated ingredient or tag id
    | UnknownId     // a primary key that names no row
    | BelowMinimum  // an amount or cooking time below MIN_VALUE

  datatype FieldError = FieldError(field: Field, problem: Problem)

  /** A request body; `None` is a key the client did not send. */
  datatype RecipePayload = RecipePayload(
    author: Option<UserId>,
    name: Option<string>,
    image: Option<string>,
    ingredients: Option<seq<IngredientEntry>>,
    tags: Option<seq<TagId>>,
    cookingTime: Option<int>,
    text: Option<string>)

  // ---------------------------------------------------------------------------
  // Validation hooks

  /** `validate`: ingredients, tags and text must each be present and non-empty, checked
      in that order; the first failure is reported. */
  function Validate(p: RecipePayload): (r: Option<Field>)
    ensures r.None? <==> Filled(p.ingredients) && Filled(p.tags) && Filled(p.text)
    ensures r == Some(IngredientsField) <==> !Filled(p.ingredients)
    ensures r == Some(TagsField) <==> Filled(p.ingredients) && !Filled(p.tags)
    ensures r == Some(TextField) <==> Filled(p.ingredients) && Filled(p.tags) && !Filled(p.text)
  {
    if !Filled(p.ingredients) then Some(IngredientsField)
    else if !Filled(p.tags) then Some(TagsField)
    else if !Filled(p.text) then Some(TextField)
    else None
  }

  /** `validate_ingredients`: walks the entries remembering the ids seen, and fails on the
      first id seen twice; otherwise the value passes through unchanged. */
  method ValidateIngredients(value: seq<IngredientEntry>) returns (r: Option<seq<IngredientEntry>>)
    ensures r == (if DistinctIds(value) then Some(value) else None)
  {
    var seen: set<IngredientId> := {};
    var i := 0;
    while i < |value|
      invariant 0 <= i <= |value|
      invariant seen == set k | 0 <= k < i :: value[k].id
      invariant DistinctIds(value[..i])
    {
      if value[i].id in seen {
        var k :| 0 <= k < i && value[k].id == value[i].id;
        assert !DistinctIds(value);
        return None;
      }
      seen := seen + {value[i].id};
      i := i + 1;
      assert value[..i] == value[..i - 1] + [value[i - 1]];
    }
    assert value[..i] == value;
    return Some(value);
  }

  /** `validate_tags`: compares the size of the set of ids with the length of the list. */
  function ValidateTags(value: seq<TagId>): (r: Option<seq<TagId>>)
    ensures r == (if Distinct(value) then Some(value) else None)
  {
    SetSizeIffDistinct(value);
    if |Elements(value)| != |value| then None else Some(value)
  }

  /** `validate_image`: an empty image is refused, any other passes unchanged. */
  function ValidateImage(value: string): (r: Option<string>)
    ensures r.Some? <==> value != ""
    ensures r.Some? ==> r.value == value
  {
    if value == "" then None else Some(value)
  }

  // ---------------------------------------------------------------------------
  // Field stage

  function Missing(f: Field, partial: bool): seq<FieldError>
  {
    if partial then [] else [FieldError(f, Required)]
  }

  function AuthorErrors(t: Tables, o: Option<UserId>, partial: bool): seq<FieldError>
  {
    match o
    case None => Missing(AuthorField, partial)
    case Some(u) => if u !in t.users then [FieldError(AuthorField, UnknownId)] else []
  }

  /** The name is a trimming `CharField` with a maximum length: blank once trimmed is
      refused, and so is a trimmed value longer than the column. */
  function NameErrors(o: Option<string>, partial: bool): seq<FieldError>
  {
    match o
    case None => Missing(NameField, partial)
    case Some(s) =>
      if Trim(s) == "" then [FieldError(NameField, Blank)]
      else if |Trim(s)| > RECIPE_NAME_MAX_LENGTH then [FieldError(NameField, TooLong)]
      else []
  }

  function ImageErrors(o: Option<string>, partial: bool): seq<FieldError>
  {
    match o
    case None => Missing(ImageField, partial)
    case Some(v) => if ValidateImage(v).None? then [FieldError(ImageField, Blank)] else []
  }

  /** Each entry's id must name an ingredient and its amount reach MIN_VALUE; only then
      does `validate_ingredients` look for repeated ids. */
  function IngredientErrors(t: Tables, o: Option<seq<IngredientEntry>>, partial: bool): seq<FieldError>
  {
    match o
    case None => Missing(IngredientsField, partial)
    case Some(es) =>
      if exists e | e in es :: e.id !in t.ingredients then [FieldError(IngredientsField, UnknownId)]
      else if exists e | e in es :: e.amount < MIN_VALUE then [FieldError(IngredientsField, BelowMinimum)]
      else if !DistinctIds(es) then [FieldError(IngredientsField, Duplicates)]
      else []
  }

  function TagErrors(t: Tables, o: Option<seq<TagId>>, partial: bool): seq<FieldError>
  {
    match o
    case None => Missing(TagsField, partial)
    case Some(ts) =>
      if exists x | x in ts :: x !in t.tags then [FieldError(TagsField, UnknownId)]
      else if ValidateTags(ts).None? then [FieldError(TagsField, Duplicates)]
      else []
  }

  function CookingTimeErrors(o: Option<int>, partial: bool): seq<FieldError>
  {
    match o
    case None => Missing(CookingTimeField, partial)
    case Some(c) => if c < MIN_VALUE then [FieldError(CookingTimeField, BelowMinimum)] else []
  }

  /** The text is a trimming `CharField` without a length limit. */
  function TextErrors(o: Option<string>, partial: bool): seq<FieldError>
  {
    match o
    case None => Missing(TextField, partial)
    case Some(s) => if Trim(s) == "" then [FieldError(TextField, Blank)] else []
  }

  /** Every field is checked and the errors of all fields are collected, in field order. */
  function FieldErrors(t: Tables, p: RecipePayload, partial: bool): seq<FieldError>
  {
    AuthorErrors(t, p.author, partial) + NameErrors(p.name, partial) + ImageErrors(p.image, partial)
    + IngredientErrors(t, p.ingredients, partial) + TagErrors(t, p.tags, partial)
    + CookingTimeErrors(p.cookingTime, partial) + TextErrors(p.text, partial)
  }

  /** Declarative statement of an acceptable payload: present fields are well formed, a
      full payload has every field, and ingredients, tags and text are non-empty even in a
      partial one. */
  predicate Acceptable(t: Tables, p: RecipePayload, partial: bool)
  {
    && (!partial ==> p.author.Some? && p.name.Some? && p.image.Some? && p.cookingTime.Some?)
    && (p.author.Some? ==> p.author.value in t.users)
    && (p.name.Some? ==> Trim(p.name.value) != "" && |Trim(p.name.value)| <= RECIPE_NAME_MAX_LENGTH)
    && (p.image.Some? ==> p.image.value != "")
    && (p.cookingTime.Some? ==> p.cookingTime.value >= MIN_VALUE)
    && Filled(p.ingredients) && DistinctIds(p.ingredients.value) && EntriesKnown(t, p.ingredients.value)
    && Filled(p.tags) && Distinct(p.tags.value) && TagsKnown(t, p.tags.value)
    && Filled(p.text) && Trim(p.text.value) != ""
  }

  /** The field stage passes exactly when each field's own check does. */
  lemma FieldStagePasses(t: Tables, p: RecipePayload, partial: bool)
    ensures FieldErrors(t, p, partial) == [] <==>
              && AuthorErrors(t, p.author, partial) == [] && NameErrors(p.name, partial) == []
              && ImageErrors(p.image, partial) == [] && IngredientErrors(t, p.ingredients, partial) == []
              && TagErrors(t, p.tags, partial) == [] && CookingTimeErrors(p.cookingTime, partial) == []
              && TextErrors(p.text, partial) == []
  {
  }

  /** An acceptable payload is one that passes the field stage and then `validate`. */
  lemma AcceptableIffStagesPass(t: Tables, p: RecipePayload, partial: bool)
    ensures Acceptable(t, p, partial) <==> FieldErrors(t, p, partial) == [] && Validate(p).None?
  {
    FieldStagePasses(t, p, partial);
    IngredientStagePasses(t, p.ingredients, partial);
    TagStagePasses(t, p.tags, partial);
    assert NameErrors(p.name, partial) == [] <==>
             (p.name.None? ==> partial)
             && (p.name.Some? ==> Trim(p.name.value) != "" && |Trim(p.name.value)| <= RECIPE_NAME_MAX_LENGTH);
    assert TextErrors(p.text, partial) == [] <==> (p.text.None? ==> partial) && (p.text.Some? ==> Trim(p.text.value) != "");
  }

  lemma IngredientStagePasses(t: Tables, o: Option<seq<IngredientEntry>>, partial: bool)
    ensures IngredientErrors(t, o, partial) == [] <==>
              && (o.None? ==> partial)
              && (o.Some? ==> DistinctIds(o.value) && EntriesKnown(t, o.value))
  {
  }

  lemma TagStagePasses(t: Tables, o: Option<seq<TagId>>, partial: bool)
    ensures TagErrors(t, o, partial) == [] <==>
              (o.None? ==> partial) && (o.Some? ==> Distinct(o.value) && TagsKnown(t, o.value))
  {
  }

  /** Every entry names a stored ingredient and reaches the minimum amount. */
  predicate EntriesKnown(t: Tables, es: seq<IngredientEntry>)
  {
    forall e | e in es :: e.id in t.ingredients && e.amount >= MIN_VALUE
  }

  predicate TagsKnown(t: Tables, ts: seq<TagId>)
  {
    forall x | x in ts :: x in t.tags
  }

  /** `is_valid`: the field stage, then `validate` only when no field failed. The payload
      is accepted exactly when it is acceptable. */
  function PayloadErrors(t: Tables, p: RecipePayload, partial: bool): (r: seq<FieldError>)
    ensures r == [] <==> Acceptable(t, p, partial)
    ensures FieldErrors(t, p, partial) != [] ==> r == FieldErrors(t, p, partial)
  {
    var fe := FieldErrors(t, p, partial);
    AcceptableIffStagesPass(t, p, partial);
    if fe != [] then fe
    else match Validate(p)
      case Some(f) => [FieldError(f, Empty)]
      case None => []
  }

  /** A payload whose ingredient list is absent or empty is refused; once every field has
      passed, the refusal is the ingredients one. */
  lemma EmptyIngredientsRejected(t: Tables, p: RecipePayload, partial: bool)
    requires !Filled(p.ingredients)
    ensures PayloadErrors(t, p, partial) != []
    ensures FieldErrors(t, p, partial) == [] ==>
              PayloadErrors(t, p, partial) == [FieldError(IngredientsField, Empty)]
  {
  }

  /** A payload whose tag list is absent or empty is refused; once every field and the
      ingredients have passed, the refusal is the tags one. */
  lemma EmptyTagsRejected(t: Tables, p: RecipePayload, partial: bool)
    requires !Filled(p.tags)
    ensures PayloadErrors(t, p, partial) != []
    ensures FieldErrors(t, p, partial) == [] && Filled(p.ingredients) ==>
              PayloadErrors(t, p, partial) == [FieldError(TagsField, Empty)]
  {
  }

  /** A payload whose text is absent, empty or only whitespace is refused. */
  lemma EmptyTextRejected(t: Tables, p: RecipePayload, partial: bool)
    requires !Filled(p.text) || Trim(p.text.value) == ""
    ensures PayloadErrors(t, p, partial) != []
    ensures FieldErrors(t, p, partial) == [] && Filled(p.ingredients) && Filled(p.tags) ==>
              PayloadErrors(t, p, partial) == [FieldError(TextField, Empty)]
  {
  }

  /** A repeated ingredient or tag id, or an empty image, is refused. */
  lemma DuplicatesRejected(t: Tables, p: RecipePayload, partial: bool)
    requires (p.ingredients.Some? && !DistinctIds(p.ingredients.value))
             || (p.tags.Some? && !Distinct(p.tags.value))
             || p.image == Some("")
    ensures PayloadErrors(t, p, partial) != []
  {
  }

  // ---------------------------------------------------------------------------
  // create and update

  /** The recipe row of an accepted payload, written for `user`; the name and text are
      stored trimmed, tags are the set of the payload's tag ids and the hash is still to
      be generated. */
  function NewRecipe(user: UserId, p: RecipePayload): (r: Recipe)
    requires p.name.Some? && p.image.Some? && p.tags.Some? && p.cookingTime.Some? && p.text.Some?
    ensures r.author == user && r.shortLink == ""
    ensures r.tags == Elements(p.tags.value)
    ensures r.name == Trim(p.name.value) && r.image == p.image.value && r.text == Trim(p.text.value)
    ensures r.cookingTime == p.cookingTime.value
  {
    Recipe(user, Trim(p.name.value), p.image.value, Trim(p.text.value), p.cookingTime.value, Elements(p.tags.value), "")
  }

  /** A recipe created from an accepted payload has a name and a text that are neither
      blank nor padded with whitespace, and a name that fits its column. */
  lemma AcceptedFieldsStoredClean(t: Tables, user: UserId, p: RecipePayload)
    requires Acceptable(t, p, false)
    ensures var r := NewRecipe(user, p);
            && r.name != "" && Trim(r.name) == r.name && |r.name| <= RECIPE_NAME_MAX_LENGTH
            && r.text != "" && Trim(r.text) == r.text
  {
    TrimIdempotent(p.name.value);
    TrimIdempotent(p.text.value);
  }

  /** A name that is only whitespace, or longer than its column once trimmed, is refused. */
  lemma BadNameRejected(t: Tables, p: RecipePayload, partial: bool)
    requires p.name.Some? && (Trim(p.name.value) == "" || |Trim(p.name.value)| > RECIPE_NAME_MAX_LENGTH)
    ensures PayloadErrors(t, p, partial) != []
    ensures FieldError(NameField, if Trim(p.name.value) == "" then Blank else TooLong) in PayloadErrors(t, p, partial)
  {
  }

  /** The recipe after `update`: tags become the payload's set; every other field the
      payload carries replaces the stored one (name and text trimmed) and every field it
      omits is kept. */
  function Updated(r: Recipe, p: RecipePayload): (s: Recipe)
    requires p.tags.Some?
    ensures s.tags == Elements(p.tags.value) && s.shortLink == r.shortLink
    ensures s.author == (if p.author.Some? then p.author.value else r.author)
    ensures s.name == (if p.name.Some? then Trim(p.name.value) else r.name)
    ensures s.image == (if p.image.Some? then p.image.value else r.image)
    ensures s.text == (if p.text.Some? then Trim(p.text.value) else r.text)
    ensures s.cookingTime == (if p.cookingTime.Some? then p.cookingTime.value else r.cookingTime)
  {
    var s := r.(tags := Elements(p.tags.value));
    var s := if p.author.Some? then s.(author := p.author.value) else s;
    var s := if p.name.Some? then s.(name := Trim(p.name.value)) else s;
    var s := if p.image.Some? then s.(image := p.image.value) else s;
    var s := if p.text.Some? then s.(text := Trim(p.text.value)) else s;
    if p.cookingTime.Some? then s.(cookingTime := p.cookingTime.value) else s
  }

  /** `_save_ingredients`: one bulk insert of a row per entry, in payload order. */
  method SaveIngredients(db: Database, recipe: RecipeId, entries: seq<IngredientEntry>)
    requires db.Valid() && recipe in db.recipes
    requires DistinctIds(entries)
    requires forall e | e in entries :: e.id in db.ingredients && e.amount >= MIN_VALUE
    requires forall x | x in db.recipeIngredients :: x.recipe != recipe
    modifies db
    ensures db.Valid()
    ensures db.Snapshot() == old(db.Snapshot()).(recipeIngredients := old(db.recipeIngredients) + RowsFor(recipe, entries))
  {
    var rows := RowsFor(recipe, entries);
    RowsForSpec(recipe, entries);
    AppendRowsUnique(db.recipeIngredients, rows);
    db.recipeIngredients := db.recipeIngredients + rows;
  }

  /** `create`: validation first, leaving the store untouched on any error; otherwise the
      recipe is written for the requesting user under the next id with a fresh hash, one
      ingredient row per entry is added, and its tags are set to the payload's set. */
  method CreateRecipe(db: Database, user: UserId, p: RecipePayload, draws: seq<string>)
    returns (errors: seq<FieldError>, id: Option<RecipeId>)
    requires db.Valid() && user in db.users
    requires exists i :: 0 <= i < |draws| && draws[i] !in ShortLinks(db.recipes)
    modifies db
    ensures db.Valid()
    ensures errors == PayloadErrors(old(db.Snapshot()), p, false)
    ensures errors != [] ==> id.None? && db.Snapshot() == old(db.Snapshot())
    ensures errors == [] ==>
              var t := old(db.Snapshot());
              && id == Some(t.nextRecipeId)
              && db.Snapshot() == t.(
                   recipes := t.recipes[t.nextRecipeId := FillShortLink(NewRecipe(user, p), ShortLinks(t.recipes), draws)],
                   nextRecipeId := t.nextRecipeId + 1,
                   recipeIngredients := t.recipeIngredients + RowsFor(t.nextRecipeId, p.ingredients.value))
    ensures old(ShortLinksDistinct(db.recipes)) && DrawsWellFormed(draws) ==> ShortLinksDistinct(db.recipes)
  {
    errors := PayloadErrors(db.Snapshot(), p, false);
    if errors != [] {
      id := None;
      return;
    }
    id := Some(db.nextRecipeId);
    ApplyCreate(db, user, p, draws);
  }

  /** The intended first step of `update`: the recipe's rows are deleted, then one row per
      entry is written. */
  method ReplaceIngredients(db: Database, recipe: RecipeId, entries: seq<IngredientEntry>)
    requires db.Valid() && recipe in db.recipes
    requires DistinctIds(entries)
    requires forall e | e in entries :: e.id in db.ingredients && e.amount >= MIN_VALUE
    modifies db
    ensures db.Valid()
    ensures db.Snapshot() == old(db.Snapshot()).(
              recipeIngredients := RowsWithout(old(db.recipeIngredients), recipe) + RowsFor(recipe, entries))
  {
    db.DeleteRows(recipe);
    SaveIngredients(db, recipe, entries);
  }

  /** The writes of an accepted creation: the recipe row is inserted under the next id,
      carrying its tag links (`tags.set` after the insert reaches the same row), then one
      ingredient row per entry is added. */
  method ApplyCreate(db: Database, user: UserId, p: RecipePayload, draws: seq<string>)
    requires db.Valid() && user in db.users && Acceptable(db.Snapshot(), p, false)
    requires exists i :: 0 <= i < |draws| && draws[i] !in ShortLinks(db.recipes)
    modifies db
    ensures db.Valid()
    ensures var t := old(db.Snapshot());
            db.Snapshot() == t.(
              recipes := t.recipes[t.nextRecipeId := FillShortLink(NewRecipe(user, p), ShortLinks(t.recipes), draws)],
              nextRecipeId := t.nextRecipeId + 1,
              recipeIngredients := t.recipeIngredients + RowsFor(t.nextRecipeId, p.ingredients.value))
    ensures old(ShortLinksDistinct(db.recipes)) && DrawsWellFormed(draws) ==> ShortLinksDistinct(db.recipes)
  {
    var newId := db.nextRecipeId;
    var r := NewRecipe(user, p);
    forall x | x in r.tags ensures x in db.tags {
      assert x in p.tags.value;
    }
    var saved := db.SaveRecipe(newId, r, draws);
    assert forall i | 0 <= i < |db.recipeIngredients| :: db.recipeIngredients[i].recipe != newId;
    SaveIngredients(db, newId, p.ingredients.value);
  }

  /** `update` as intended: validation first, leaving the store untouched on any error;
      otherwise the accepted payload is applied. */
  method UpdateRecipe(db: Database, id: RecipeId, p: RecipePayload, partial: bool, draws: seq<string>)
    returns (errors: seq<FieldError>)
    requires db.Valid() && id in db.recipes
    requires db.recipes[id].shortLink == "" ==> exists i :: 0 <= i < |draws| && draws[i] !in ShortLinks(db.recipes)
    modifies db
    ensures db.Valid()
    ensures errors == PayloadErrors(old(db.Snapshot()), p, partial)
    ensures errors != [] ==> db.Snapshot() == old(db.Snapshot())
    ensures errors == [] ==>
              var t := old(db.Snapshot());
              db.Snapshot() == t.(
                recipes := t.recipes[id := FillShortLink(Updated(t.recipes[id], p), ShortLinks(t.recipes), draws)],
                recipeIngredients := RowsWithout(t.recipeIngredients, id) + RowsFor(id, p.ingredients.value))
    ensures old(ShortLinksDistinct(db.recipes)) ==> ShortLinksDistinct(db.recipes)
  {
    errors := PayloadErrors(db.Snapshot(), p, partial);
    if errors != [] {
      return;
    }
    ApplyUpdate(db, id, p, partial, draws);
  }

  /** The writes of an accepted update: the recipe's ingredient rows are deleted and
      recreated from the payload; then `tags.set` and the save of the fields the payload
      carries, both of which write the recipe's own row, are made as one write that also
      fills an empty hash. */
  method ApplyUpdate(db: Database, id: RecipeId, p: RecipePayload, partial: bool, draws: seq<string>)
    requires db.Valid() && id in db.recipes && Acceptable(db.Snapshot(), p, partial)
    requires db.recipes[id].shortLink == "" ==> exists i :: 0 <= i < |draws| && draws[i] !in ShortLinks(db.recipes)
    modifies db
    ensures db.Valid()
    ensures var t := old(db.Snapshot());
            db.Snapshot() == t.(
              recipes := t.recipes[id := FillShortLink(Updated(t.recipes[id], p), ShortLinks(t.recipes), draws)],
              recipeIngredients := RowsWithout(t.recipeIngredients, id) + RowsFor(id, p.ingredients.value))
    ensures old(ShortLinksDistinct(db.recipes)) ==> ShortLinksDistinct(db.recipes)
  {
    var r := Updated(db.recipes[id], p);
    forall x | x in r.tags ensures x in db.tags {
      assert x in p.tags.value;
    }
    ReplaceIngredients(db, id, p.ingredients.value);
    var saved := db.SaveRecipe(id, r, draws);
  }

  /** `update` as written: the first step calls `clear` on a query set, which has no such
      method, so every payload that passes validation ends in a server error and the
      transaction leaves the store as it was. */
  method UpdateRecipeAsWritten(db: Database, id: RecipeId, p: RecipePayload, partial: bool)
    returns (errors: seq<FieldError>, status: Status)
    requires db.Valid() && id in db.recipes
    ensures errors == PayloadErrors(db.Snapshot(), p, partial)
    ensures status == (if errors == [] then ServerError500 else BadRequest400)
  {
    errors := PayloadErrors(db.Snapshot(), p, partial);
    status := if errors == [] then ServerError500 else BadRequest400;
  }

  /** A valid edit that the written update loses: the payload is accepted, so the written
      update answers with a server error and keeps the old rows, while the intended update
      replaces them. */
  lemma UpdateAsWrittenLosesEdit()
    ensures var r := Recipe(1, "soup", "soup.png", "boil", 10, {5}, "abcdef");
            var t := Tables(map[1 := "ann"], {5}, map[7 := Ingredient("salt", "g"), 8 := Ingredient("pepper", "g")], 9,
                            map[0 := r], 1, [RecipeIngredient(0, 7, 2)], {}, {}, {});
            var p := RecipePayload(None, None, None, Some([IngredientEntry(8, 3)]), Some([5]), None, Some("boil"));
            && t.Valid()
            && PayloadErrors(t, p, true) == []
            && RowsWithout(t.recipeIngredients, 0) + RowsFor(0, p.ingredients.value) != t.recipeIngredients
  {
    var r := Recipe(1, "soup", "soup.png", "boil", 10, {5}, "abcdef");
    var rows := [RecipeIngredient(0, 7, 2)];
    var t := Tables(map[1 := "ann"], {5}, map[7 := Ingredient("salt", "g"), 8 := Ingredient("pepper", "g")], 9,
                    map[0 := r], 1, rows, {}, {}, {});
    var p := RecipePayload(None, None, None, Some([IngredientEntry(8, 3)]), Some([5]), None, Some("boil"));
    assert RowsWithout(rows, 0) == [];
    assert RowsFor(0, p.ingredients.value)[0] == RecipeIngredient(0, 8, 3);
    assert Trim("boil") != "" by {
      assert !IsSpace("boil"[0]);
    }
    assert DistinctIds(p.ingredients.value) && EntriesKnown(t, p.ingredients.value);
    assert Distinct(p.tags.value) && TagsKnown(t, p.tags.value);
    assert Acceptable(t, p, true);
  }

  // ---------------------------------------------------------------------------
  // Subscriptions

  datatype SubscriptionProblem = SelfSubscription | AlreadySubscribed

  /** `SubscriptionActionSerializer.validate`: a self-subscription is reported before an
      existing one; a pair that passes can be inserted without breaking the constraints. */
  function ValidateSubscription(subs: set<(UserId, UserId)>, user: UserId, author: UserId)
    : (r: Option<SubscriptionProblem>)
    ensures user == author ==> r == Some(SelfSubscription)
    ensures user != author ==> (r == Some(AlreadySubscribed) <==> (user, author) in subs)
    ensures r.None? <==> user != author && (user, author) !in subs
    ensures r.None? && NoSelfSubscription(subs) ==>
              NoSelfSubscription(subs + {(user, author)}) && |subs + {(user, author)}| == |subs| + 1
  {
    if user == author then Some(SelfSubscription)
    else if (user, author) in subs then Some(AlreadySubscribed)
    else None
  }

  /** The ids below `k` of `author`'s recipes, newest first (ids grow with creation time). */
  function RecipesBelow(recipes: map<RecipeId, Recipe>, author: UserId, k: int): (r: seq<RecipeId>)
    ensures forall i | 0 <= i < |r| :: r[i] in recipes && recipes[r[i]].author == author && r[i] < k
    ensures forall i, j | 0 <= i < j < |r| :: r[i] > r[j]
    ensures forall id | id in recipes && recipes[id].author == author && 0 <= id < k :: id in r
    decreases k
  {
    if k <= 0 then []
    else (if k - 1 in recipes && recipes[k - 1].author == author then [k - 1] else [])
         + RecipesBelow(recipes, author, k - 1)
  }

  /** `author.recipes.all()` under the newest-first ordering. */
  function AuthorRecipes(t: Tables, author: UserId): (r: seq<RecipeId>)
    requires t.Valid()
    ensures forall id :: id in r <==> id in t.recipes && t.recipes[id].author == author
    ensures forall i, j | 0 <= i < j < |r| :: r[i] > r[j]
  {
    RecipesBelow(t.recipes, author, t.nextRecipeId)
  }

  /** `queryset[:int(text)]`: `None` stands for the ValueError of a text that is not an
      integer, or of a negative bound. */
  function SliceByText(rs: seq<RecipeId>, text: string): (r: Option<seq<RecipeId>>)
    ensures r.Some? <==> ParseInt(text).Some? && ParseInt(text).value >= 0
    ensures r.Some? ==> r.value <= rs && |r.value| == Min(ParseInt(text).value, |rs|)
  {
    match ParseInt(text)
    case None => None
    case Some(n) => if n < 0 then None else Some(rs[..Min(n, |rs|)])
  }

  /** `get_recipes`: any `recipes_limit` that is sent, even an empty one, is converted. */
  function GetRecipes(rs: seq<RecipeId>, limit: Option<string>): (r: Option<seq<RecipeId>>)
    ensures limit.None? ==> r == Some(rs)
    ensures limit.Some? ==> (r.Some? <==> ParseInt(limit.value).Some? && ParseInt(limit.value).value >= 0)
    ensures r.Some? ==> r.value <= rs
    ensures limit.Some? && r.Some? ==> |r.value| == Min(ParseInt(limit.value).value, |rs|)
  {
    if limit.Some? then SliceByText(rs, limit.value) else Some(rs)
  }

  /** The limit of the `subscribe` response: only a non-empty `recipes_limit` is
      converted; an absent or empty one lists every recipe. */
  function SubscribeRecipes(rs: seq<RecipeId>, limit: Option<string>): (r: Option<seq<RecipeId>>)
    ensures !Filled(limit) ==> r == Some(rs)
    ensures Filled(limit) ==> (r.Some? <==> ParseInt(limit.value).Some? && ParseInt(limit.value).value >= 0)
    ensures r.Some? ==> r.value <= rs
    ensures Filled(limit) && r.Some? ==> |r.value| == Min(ParseInt(limit.value).value, |rs|)
  {
    if Filled(limit) then SliceByText(rs, limit.value) else Some(rs)
  }

  /** The two readings of `recipes_limit` disagree exactly on an empty value, which the
      view ignores and the serializer fails to convert. */
  lemma LimitReadingsDiffer(rs: seq<RecipeId>, limit: Option<string>)
    ensures SubscribeRecipes(rs, limit) != GetRecipes(rs, limit) <==> limit == Some("")
  {
  }

  // ---------------------------------------------------------------------------
  // Flags shown with a recipe

  /** `get_is_favorited` / `get_is_in_shopping_cart`: false for an anonymous viewer,
      otherwise whether the viewer's pair is in the table. */
  function IsFlagged(t: Tables, c: Collection, viewer: Option<UserId>, recipe: RecipeId): bool
  {
    viewer.Some? && (viewer.value, recipe) in Members(t, c)
  }
}
