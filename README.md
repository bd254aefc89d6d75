# foodgram recipe backend — Dafny model

foodgram is a Django recipe-sharing backend. Users publish recipes, which carry
ingredients with amounts, tags, a cooking time and a random six-character short link.
They mark recipes as favourites or put them in a shopping cart, subscribe to other
authors, and download their shopping list as a PDF. The repository holds two
generations of the same service:

- the current REST API in `backend/api/`: views, serializers, filters and the PDF helper;
- an older `backend/foodgram/` application: its own views, serializers, an alternative
  schema in `validators.py`, and the `import_csv` management command.

Both generations work on the tables of `backend/foodgram/models.py`.

The model represents the database as one value, `Models.Tables`:

- users, tags and ingredients;
- recipes keyed by an auto-incremented id;
- the recipe-ingredient rows in insertion order;
- favourites, shopping carts and subscriptions as sets of pairs.

The schema's constraints are the predicate `Tables.Valid`. The mutable store is
`Models.Database`, a class with the same fields.

Every operation that writes to the store is a method with `modifies db`. Its
`ensures` ties the new `db.Snapshot()` to a pure transition function of the old one,
and the lemmas are stated over those functions. The modules are:

| module | file | models |
|---|---|---|
| `Common` | common.dfy | Python `int()` on query strings, case-insensitive matching, filtering |
| `Models` | models.dfy | the schema, its constraints, short-link generation, the row operations the serializers use |
| `ApiSerializers` | api_serializers.dfy | recipe validation, create and update, subscription validation, the `recipes_limit` slicing |
| `ApiViews` | api_views.dfy | favourite and cart actions, subscribe and unsubscribe, short link, shopping-cart aggregation |
| `ApiFilters` | api_filters.dfy | the recipe and ingredient filter sets |
| `PdfLayout` | api_utils.dfy | the line-by-line page layout of `generate_pdf` |
| `LegacyViews` | legacy_views.dfy | the older views: permissions, ingredient search, the name-keyed shopping list, favourite and cart actions |
| `LegacySerializers` | legacy_serializers.dfy | the older recipe create and update, which have no transaction |
| `LegacySchema` | validators.dfy | `validate_positive` and the alternative uniqueness declarations |
| `ImportCsv` | import_csv.dfy | the CSV ingredient import |

Where the code and its evident design disagree, the model follows the code, with one
exception: the older serializer is modelled on its intent, and "## Left out" says where.
The "## Findings" table lists the two places where the code as written goes wrong; each
is modelled both as written and as intended.

## Model

| member | source | states |
|---|---|---|
| Common.ParseIntToString | backend/api/views.py:90-95 | the integer parser that stands for Python `int()` reads back every integer's decimal text, sign included |
| Common.FilterPartition | backend/api/filters.py:18-32 | keeping the elements that pass a test, plus keeping those that fail it, is a permutation of the input |
| Models.FirstFresh | backend/foodgram/models.py:111-115 | a link is found exactly when some random draw is not yet taken, and the link found is such a draw |
| Models.GenerateShortLink | backend/foodgram/models.py:111-115 | the redraw loop returns a link no recipe uses, namely the first free draw |
| Models.FillShortLink | backend/foodgram/models.py:117-120 | saving changes only the short link, keeps a link that is already set, and gives an empty one a fresh drawn link |
| Models.SaveIdempotent | backend/foodgram/models.py:117-120 | saving a recipe a second time, with any draws, leaves it as the first save left it |
| Models.SchemaAllowsSharedShortLink | backend/foodgram/models.py:103 | the column is declared `unique=False`, so two recipes with one short link are a valid table |
| Models.RowsWithoutSpec | backend/api/serializers.py:214-222 | deleting a recipe's ingredient rows keeps exactly the other rows, and keeps row-key uniqueness and the minimum amounts |
| Models.RowsForSpec | backend/api/serializers.py:224-234 | the rows built from entries with distinct ids have unique keys and all belong to the recipe |
| Models.ReplaceRowsUnique | backend/foodgram/models.py:137-143 | replacing a recipe's rows with distinct entries keeps `unique_recipe_ingredient` |
| Models.Database.SaveRecipe | backend/foodgram/models.py:117-120 | writes the filled-in recipe under its id, advances the id counter on an insert, and keeps the schema valid and the short links distinct |
| Models.Database.SetTags | backend/api/serializers.py:203-222 | replaces one recipe's tag set and nothing else |
| Models.Database.DeleteRows | backend/api/serializers.py:218 | removes exactly the recipe's ingredient rows |
| ApiSerializers.Validate | backend/api/serializers.py:160-176 | a payload is refused when ingredients, tags or text are missing, checked in that order, and the first missing one is the one reported |
| ApiSerializers.ValidateIngredients | backend/api/serializers.py:178-187 | the set-tracking loop accepts the entries exactly when no ingredient id repeats, and returns them unchanged |
| ApiSerializers.ValidateTags | backend/api/serializers.py:189-194 | tags are accepted exactly when none repeats |
| ApiSerializers.ValidateImage | backend/api/serializers.py:196-201 | an image is accepted exactly when it is not empty, and is returned unchanged |
| ApiSerializers.PayloadErrors | backend/api/serializers.py:139-176 | no error exactly when the payload is acceptable: a name and a text that are not blank once trimmed, a name within its column, and the other fields well formed; field-level errors take precedence over the object-level check |
| Common.Trim | backend/foodgram/models.py:92-94 | the trimming the name and text fields apply: the result is empty exactly when the input is all whitespace, otherwise it neither starts nor ends with whitespace, and only whitespace is removed around it |
| ApiSerializers.BadNameRejected | backend/foodgram/models.py:92 | a name that is only whitespace is refused as blank, and a trimmed name longer than its column as too long |
| ApiSerializers.AcceptedFieldsStoredClean | backend/foodgram/models.py:92-94 | a recipe created from an accepted payload has a name and a text that are neither blank nor padded, and a name that fits its column |
| ApiSerializers.EmptyIngredientsRejected | backend/api/serializers.py:163-166 | a payload without ingredients is always refused, and with no field errors the refusal names the ingredients |
| ApiSerializers.EmptyTagsRejected | backend/api/serializers.py:168-171 | a payload without tags is always refused |
| ApiSerializers.EmptyTextRejected | backend/api/serializers.py:172-175 | a payload whose text is absent, empty or only whitespace is always refused |
| ApiSerializers.DuplicatesRejected | backend/api/serializers.py:178-194 | repeated ingredient ids or repeated tags always cause a refusal |
| ApiSerializers.NewRecipe | backend/api/serializers.py:203-212 | the created recipe has the requester as author, the payload's fields with the name and text trimmed, its tags as a set and no short link yet |
| ApiSerializers.Updated | backend/api/serializers.py:214-222 | each field given in the payload is replaced (name and text trimmed) and each absent one kept; tags are replaced and the short link is kept |
| ApiSerializers.SaveIngredients | backend/api/serializers.py:224-234 | appends one row per entry for the recipe, in order, and keeps the schema valid |
| ApiSerializers.CreateRecipe | backend/api/serializers.py:203-212 | a refused payload changes nothing; an accepted one inserts the recipe under the next id with its rows and tags, all at once |
| ApiSerializers.UpdateRecipe | backend/api/serializers.py:214-222 | corrected update: a refused payload changes nothing; an accepted one saves the fields and replaces the recipe's rows and tags |
| ApiSerializers.ReplaceIngredients | backend/api/serializers.py:218-219 | the recipe's old rows are gone and its new rows follow every other recipe's rows, unchanged |
| ApiSerializers.ApplyCreate | backend/api/serializers.py:208-211 | the recipe lands under the next id with its short link filled, its rows are appended, and short links stay distinct |
| ApiSerializers.ApplyUpdate | backend/api/serializers.py:218-222 | the recipe's fields and tags are replaced, its rows replaced, other recipes untouched, and short links stay distinct |
| ApiSerializers.UpdateRecipeAsWritten | backend/api/serializers.py:214-222 | as written: every accepted payload ends in a server error, and the transaction leaves the store unchanged |
| ApiSerializers.UpdateAsWrittenLosesEdit | backend/api/serializers.py:218 | a concrete valid edit that the as-written update loses, while the corrected update applies it |
| ApiSerializers.ValidateSubscription | backend/api/serializers.py:325-341 | refuses a self-subscription first, then an existing one, and accepts otherwise; an accepted pair keeps `NoSelfSubscription` |
| ApiSerializers.RecipesBelow | backend/foodgram/models.py:105-106 | lists exactly the author's recipes below a bound, newest first |
| ApiSerializers.AuthorRecipes | backend/foodgram/models.py:105-106 | `author.recipes.all()` is exactly the author's recipes, in `-created_at` order |
| ApiSerializers.SliceByText | backend/api/serializers.py:305-317 | slicing by `int(text)` fails unless the text is a non-negative integer, and otherwise yields the first `min(n, len)` recipes |
| ApiSerializers.GetRecipes | backend/api/serializers.py:305-317 | with no `recipes_limit` every recipe is returned; with one, the prefix of that length or an error |
| ApiSerializers.SubscribeRecipes | backend/api/views.py:90-95 | the same, except that an empty `recipes_limit` counts as absent |
| ApiSerializers.LimitReadingsDiffer | backend/api/views.py:90-95 | the view and the serializer disagree exactly when `recipes_limit` is the empty string |
| ApiViews.Add | backend/api/views.py:228-242 | 404 when the recipe is missing, 400 when the pair is already listed, and otherwise 201 with exactly that pair added; validity is kept |
| ApiViews.Remove | backend/api/views.py:244-256 | 404 when the recipe is missing, 400 when the pair is not listed, and otherwise 204 with exactly that pair removed |
| ApiViews.AddToCollection | backend/api/views.py:228-242 | the store afterwards is the one `Add` describes |
| ApiViews.RemoveFromCollection | backend/api/views.py:244-256 | the store afterwards is the one `Remove` describes |
| ApiViews.AddThenRemoveRestores | backend/api/views.py:228-256 | adding a new pair and then removing it restores the original tables |
| ApiViews.SecondAddFails | backend/api/views.py:228-242 | after a successful add, the same add answers 400 |
| ApiViews.SecondRemoveFails | backend/api/views.py:244-256 | after a successful remove, the same remove answers 400 |
| ApiViews.Subscribe | backend/api/views.py:56-104 | 404 exactly for an unknown author, 400 exactly for a refused subscription, both writing nothing; otherwise the pair is stored and the answer is 201 exactly when `recipes_limit` is absent, empty or a non-negative integer, else 500; on 201 the list is the author's recipes cut to the first `int(recipes_limit)` when one is given, with their full count |
| ApiViews.SubscribeView | backend/api/views.py:56-104 | the store and the response are those `Subscribe` describes |
| ApiViews.Unsubscribe | backend/api/views.py:106-118 | 404 for an unknown author, 400 when not subscribed, and otherwise 204 with exactly the pair removed |
| ApiViews.UnsubscribeView | backend/api/views.py:106-118 | the store afterwards is the one `Unsubscribe` describes |
| ApiViews.AddSubscription | backend/api/views.py:120-138 | 201 and exactly the pair added when the subscription validates; otherwise nothing changes |
| ApiViews.SubscribeAgreesWithAddSubscription | backend/api/views.py:56-138 | the subscribe action and the helper action change the tables identically |
| ApiViews.SubscribeThenUnsubscribeRestores | backend/api/views.py:56-118 | subscribing and then unsubscribing restores the original tables |
| ApiViews.GetLink | backend/api/views.py:217-226 | missing recipe gives no link; otherwise the link is the base URL followed by the recipe's short link |
| ApiViews.LinkIdentifiesRecipe | backend/api/views.py:217-226 | while short links are distinct, equal links mean the same recipe |
| ApiViews.CartLines | backend/api/views.py:308-316 | the lines are exactly those of rows whose recipe is in the user's cart, each with an amount at least the minimum |
| ApiViews.Keys | backend/api/views.py:308-316 | the `(name, unit)` groups: each appears once, and exactly the groups some line has |
| ApiViews.TotalAtLeastMin | backend/api/views.py:308-316 | each group's summed amount is at least the minimum |
| ApiViews.SortSorted | backend/api/views.py:315 | the insertion sort orders entries by ingredient name |
| ApiViews.EntriesSpec | backend/api/views.py:308-316 | one entry per group, carrying the sum of that group's amounts |
| ApiViews.SortSpec | backend/api/views.py:315 | sorting by name returns a permutation, ordered by name |
| ApiViews.ShoppingListSpec | backend/api/views.py:308-316 | the list is sorted by name, and an entry exists exactly for each `(name, unit)` group, with the group's total |
| ApiViews.DownloadShoppingCart | backend/api/views.py:302-317 | the PDF is `generate_pdf` applied to the user's shopping list |
| ApiFilters.FilterFlag | backend/api/filters.py:18-32 | anonymous viewers see the queryset unchanged; otherwise only recipes whose flag equals the requested value remain |
| ApiFilters.FlagFilterMatchesSerializer | backend/api/filters.py:18-32 | a recipe passes the filter exactly when the serializer's `is_favorited` or `is_in_shopping_cart` has the requested value |
| ApiFilters.FlagFilterPartitions | backend/api/filters.py:18-32 | `is_favorited=1` and `is_favorited=0` together split the queryset |
| ApiFilters.FilterAuthor | backend/api/filters.py:14-16 | an author id that names no user is invalid (400); without an author the query set is unchanged; with a known author only that author's recipes remain |
| ApiFilters.AuthorFilterMatches | backend/api/filters.py:14-16 | with a known author given, a recipe remains exactly when it is in the query set and that author wrote it |
| ApiFilters.FilterTags | backend/api/filters.py:12 | a requested tag that no recipe carries is invalid (400); with no tags the query set is unchanged; otherwise only recipes carrying at least one of them remain |
| ApiFilters.TagFilterMatches | backend/api/filters.py:12 | with valid tags requested, a recipe remains exactly when it is in the query set and carries one of them |
| ApiFilters.RecipeList | backend/api/views.py:204-208 | the whole list request fails (400) exactly when the author or a tag is invalid; otherwise the result is drawn from the query set |
| ApiFilters.RecipeListMatches | backend/api/filters.py:7-32 | in a valid request, a recipe is listed exactly when it is in the query set and passes every filter given: author, one of the tags, and the viewer's favourite and cart flags |
| ApiFilters.FilterNamePrefix | backend/api/filters.py:35-43 | an empty name keeps everything; otherwise only names starting with it, ignoring case, remain |
| ApiFilters.NamePrefixKeepsMatches | backend/api/filters.py:35-43 | every ingredient whose name starts with the query stays in the result |
| PdfLayout.EntryTexts | backend/api/utils.py:29-40 | one text per entry, in order |
| PdfLayout.FilenameInjective | backend/api/utils.py:10-12 | distinct users get distinct file names |
| PdfLayout.PlaceSpec | backend/api/utils.py:29-40 | every entry is drawn once, in order, never below the margin; each line is 20 points below the previous one, or at the top of the next page once the margin is reached |
| PdfLayout.AfterSpec | backend/api/utils.py:29-43 | the last page reached is the first page plus the number of breaks, and the cursor never goes below the margin |
| PdfLayout.PlaceSnoc | backend/api/utils.py:29-40 | laying out one more line extends the earlier layout by a single advance |
| PdfLayout.GeneratePdf | backend/api/utils.py:8-45 | the file name, the header at height − 40, the empty-list line or the entries laid out from 20 points lower, and the final page |
| LegacyViews.IsAuthorOrReadOnly | backend/foodgram/views.py:15-19 | safe methods are always allowed; other methods only for the object's author |
| LegacyViews.GetPermissions | backend/foodgram/views.py:32-36 | an action listed in the table gets its permissions; any other action gets the defaults |
| LegacyViews.OnlyAuthorModifiesRecipe | backend/foodgram/views.py:58-74 | an update or delete request with an unsafe method is allowed exactly for the recipe's author |
| LegacyViews.UnlistedUserActionsAdmitAnyone | backend/foodgram/views.py:22-36 | a user action missing from the table, such as `update`, falls back to AllowAny and admits anonymous requests, while `list` refuses them |
| LegacyViews.IngredientQueryset | backend/foodgram/views.py:50-55 | no name keeps the queryset; a name keeps the ingredients whose name contains it, ignoring case |
| LegacyViews.IngredientQuerysetMatches | backend/foodgram/views.py:50-55 | with a non-empty name, an ingredient remains exactly when it is in the query set and its name contains the name, ignoring case |
| LegacyViews.PrefixResultsWithinSubstringResults | backend/foodgram/views.py:50-55 | every ingredient the current prefix filter returns is also returned by the older substring search |
| LegacyViews.NamesInOrder | backend/foodgram/views.py:129-136 | the dictionary's keys: each name once, and exactly the names of the lines |
| LegacyViews.FirstUnitIsFirst | backend/foodgram/views.py:129-136 | the unit kept for a name is that of the first line with that name |
| LegacyViews.AggregateByName | backend/foodgram/views.py:129-136 | the loop builds a key for each name, in first-seen order; each total is that name's summed amount, with its first unit |
| LegacyViews.NameSumMatchesKeyTotal | backend/foodgram/views.py:129-136 | when every line with a name has the same unit, the name-keyed sum equals the `(name, unit)` total |
| LegacyViews.NameKeyMergesUnits | backend/foodgram/views.py:129-136 | 5 g of salt plus 1 tsp of salt is reported as 6 g |
| LegacyViews.KeyedListSeparatesUnits | backend/api/views.py:308-316 | the current download keeps the same salt lines apart, as 5 g and 1 tsp |
| LegacyViews.LegacyTexts | backend/foodgram/views.py:152-160 | one text per distinct name |
| LegacyViews.DrawShoppingList | backend/foodgram/views.py:142-163 | the title at height − 50, the lines from 30 points lower with a 50-point margin, and the page count |
| LegacyViews.DownloadShoppingList | backend/foodgram/views.py:120-165 | the file name, and the layout of the name-keyed totals of the cart's rows, newest recipe first |
| LegacyViews.LegacyAdd | backend/foodgram/views.py:79-95 | 404 when the recipe is missing, and otherwise 200 with the pair present |
| LegacyViews.SilentRemove | backend/foodgram/views.py:85-101 | 404 when the recipe is missing, and otherwise 200 with the pair absent |
| LegacyViews.LegacyAddView | backend/foodgram/views.py:79-95 | the store afterwards is the one `LegacyAdd` describes |
| LegacyViews.SilentRemoveView | backend/foodgram/views.py:85-101 | the store afterwards is the one `SilentRemove` describes |
| LegacyViews.SilentRemoveIdempotent | backend/foodgram/views.py:85-101 | removing twice is the same as removing once |
| LegacyViews.SilentRemoveMatchesApiRemove | backend/foodgram/views.py:85-101 | both removals leave the same tables; only when the pair was absent does the current API answer 400 where the older view answers 200 |
| LegacySerializers.Saved | backend/foodgram/serializers.py:79-85 | the number of rows created before the first one that fails (an unknown ingredient or a repeated pair) |
| LegacySerializers.RowsBefore | backend/foodgram/serializers.py:79-85 | a pair exists after j creations exactly when it existed before, or one of the first j entries names it |
| LegacySerializers.AllSavedIff | backend/foodgram/serializers.py:79-85 | for a recipe with no rows, every entry is saved exactly when ids are distinct and all known |
| LegacySerializers.SaveOneByOne | backend/foodgram/serializers.py:79-85 | the store gains exactly the rows of the entries before the first failure |
| LegacySerializers.NewLegacyRecipe | backend/foodgram/serializers.py:57-63 | the new recipe has the given fields, the description as its text, and no tags before they are set |
| LegacySerializers.UpdatedFields | backend/foodgram/serializers.py:65-73 | absent fields are kept, the image is replaced only when a non-empty one is given, and author, tags and link are kept |
| LegacySerializers.LegacyCreate | backend/foodgram/serializers.py:57-63 | the recipe is inserted and the rows saved one by one; tags are set and 201 returned only when every row is saved, and otherwise 500 with the partial rows kept |
| LegacySerializers.ReplaceRowsAndTags | backend/foodgram/serializers.py:74-76 | the recipe's rows are replaced by those saved before the first failure, and its tags change only when every row was saved |
| LegacySerializers.ApplyLegacyUpdate | backend/foodgram/serializers.py:66-76 | the fields are saved first, so they persist even when a later row fails; rows and tags as above |
| LegacySerializers.LegacyUpdate | backend/foodgram/serializers.py:65-77 | a missing ingredient or tag list fails before any write; otherwise the fields are saved, the rows replaced one by one, and the tags set only if all rows are saved |
| LegacySchema.ValidatePositive | backend/foodgram/validators.py:5-7 | a value is accepted exactly when it is positive |
| LegacySchema.GuardsMatchMinimum | backend/foodgram/validators.py:42-53 | the validator on cooking times and amounts admits the same tables as the main schema's minimum-value checks |
| LegacySchema.NamesUniqueImpliesPairsUnique | backend/foodgram/validators.py:27-29 | a unique ingredient name makes the `(name, unit)` pair unique |
| LegacySchema.PairsUniqueAllowSharedName | backend/foodgram/models.py:76-82 | the main schema admits one name with two units, which the alternative schema forbids |
| LegacySchema.CartLinesFromCatalogue | backend/foodgram/views.py:123-127 | every line of the older download names a catalogued ingredient and its unit |
| LegacySchema.NameSumExactForUniqueNames | backend/foodgram/validators.py:28 | with unique names, the name-keyed sum is the `(name, first unit)` total |
| LegacySchema.DownloadExactForUniqueNames | backend/foodgram/views.py:129-136 | in a valid store with unique names, the older download's totals are exact |
| ImportCsv.RowIngredients | backend/foodgram/management/commands/import_csv.py:26-37 | every collected ingredient comes from a two-field row |
| ImportCsv.MalformedRows | backend/foodgram/management/commands/import_csv.py:26-31 | every reported row does not have exactly two fields |
| ImportCsv.RowsAppend | backend/foodgram/management/commands/import_csv.py:26-37 | the rows are processed in file order: both outputs distribute over concatenation |
| ImportCsv.RowsPartition | backend/foodgram/management/commands/import_csv.py:26-37 | every row is either collected or reported, and as many are collected as rows have two fields |
| ImportCsv.CollectIngredients | backend/foodgram/management/commands/import_csv.py:26-37 | the loop collects and reports exactly what the two functions describe |
| ImportCsv.Numbered | backend/foodgram/management/commands/import_csv.py:39-43 | the bulk insert numbers the batch consecutively from the next id, in order |
| ImportCsv.NumberedKeepsPairsUnique | backend/foodgram/management/commands/import_csv.py:40 | a batch with no duplicate (name, unit) pair and none already stored keeps the pairs unique once inserted under fresh ids |
| ImportCsv.Handle | backend/foodgram/management/commands/import_csv.py:13-43 | a missing file, a file with no header row, and a refused batch leave the table unchanged; otherwise the whole batch is inserted and counted |

## Left out

- The HTTP layer, djoser, pagination, the serialized representation of responses,
  authentication tokens, base64 image decoding and the admin site are not modelled.
  Requesters are user ids and responses are a status plus the new tables.
- `backend/api/permissions.py`, `backend/api/fields.py` and the project's constants
  module are not part of this model.
  - `MIN_VALUE` is 1.
  - The short-link length of 6 follows `backend/foodgram/models.py:103`.
- The random draws of `generate_short_link` are a parameter. Callers give a sequence
  that contains a free link, because the source would otherwise loop for ever.
- Django's transactions are modelled only as all-or-nothing outcomes of the methods
  that carry `@transaction.atomic`. Concurrency and database locking are not modelled.
- ApiSerializers.PayloadErrors: reports at most one problem per field, and says which
  field failed, not DRF's message text.
  - The name and the text are trimmed with Python's whitespace set (`Common.IsSpace`).
  - The name's limit `RECIPE_NAME_MAX_LENGTH` is set in `backend/foodgram/constants.py`,
    which is not part of this model. Its value is left open, and every property holds
    whatever it is.
- Case-insensitive matching (`istartswith`, `icontains`) folds the basic Latin capitals
  A-Z, the Russian capitals А-Я and Ё, and nothing else.
  - The real folding depends on the database chosen in `backend/backend/settings.py:75-91`.
  - SQLite's `LIKE` folds ASCII letters only, so it would not match "Соль" with "соль".
  - PostgreSQL's `UPPER` folds all of Unicode, so it would also match letters the model
    leaves alone.
  - The model therefore matches neither backend exactly. It agrees with both on ASCII text
    and with PostgreSQL on Russian text.
- The ordering `order_by('ingredient__name')` of the shopping list uses the database
  collation. The model orders names by code point (`Common.StrLe`).
- The `-created_at` ordering of recipes is modelled as descending recipe id. Ids are
  handed out in creation order, and creation times are not modelled.
- Common.ParseInt: accepts an optional sign and decimal digits. It does not accept the
  surrounding whitespace, the underscores or the non-ASCII digits that Python `int()`
  accepts.
- ApiFilters.FilterTags: the `tags__slug` filter is modelled on tag ids. The slug-to-tag
  lookup is not modelled. A requested tag is valid when some recipe carries it, which is
  the set of choices `AllValuesMultipleFilter` offers.
- ApiFilters.FilterAuthor: an author value that is not an integer, which also answers
  400, cannot be written in the model, whose author values are user ids.
- The list endpoint for subscriptions and the avatar endpoint are not modelled.
- The favourite and shopping-cart tables are sets of pairs.
  - As written, `Favorite` and `ShoppingCart` declare their own `Meta`, which drops
    the `unique_%(class)s_user_recipe` constraint of `UserRecipeBase`
    (`backend/foodgram/models.py:159-186`).
  - A repeated pair therefore cannot be represented.
  - LegacyViews.LegacyAdd: answers 200 for a pair already present, where the database
    would have stored a second row.
- The older serializer (`backend/foodgram/serializers.py`) is modelled on its evident
  intent: entries carry an ingredient id and an amount, and `description` is written
  to the recipe text.
  - As written, its nested ingredient field is read-only, and `description` is not a
    field of the `Recipe` model.
  - LegacySerializers.LegacyCreate: does not model the errors those two points raise
    before any write.
- Ties between rows of one recipe in the older shopping list follow table order.
- The PDF drawing itself is a list of text placements.
  - Fonts, page width and reportlab are not modelled.
  - The A4 page height, a float in the source, is an integer parameter.
  - Text is not wrapped.
- ImportCsv.Handle: treats the bulk insert as all-or-nothing and decides its failure
  by `(name, unit)` uniqueness only.
  - Field lengths (`max_length`) are not modelled.
  - Database errors other than uniqueness are not modelled.
  - CSV tokenising and file encoding are not modelled; the file is given as its rows.
- `redirect_to_recipe` (the short-link redirect) is referenced by the URL
  configuration but defined in no module of the repository, so it is not modelled.

## Findings

| source | as written | input that shows it | evidently intended | confidence | as-written member | corrected member |
|---|---|---|---|---|---|---|
| backend/api/serializers.py:218 | calls `clear` on the query set of the recipe's ingredient rows, and a QuerySet has no such method, so every accepted update raises and the atomic block rolls it back | any valid PATCH of an existing recipe, e.g. renaming "soup" with its ingredients and tags resent | delete the recipe's ingredient rows, then save the new ones | not executed | ApiSerializers.UpdateAsWrittenLosesEdit | ApiSerializers.UpdateRecipe |
| backend/foodgram/views.py:129-136 | the older shopping list sums amounts by ingredient name only, keeping the first unit seen | 5 g of salt and 1 tsp of salt in the cart give "salt (g) — 6" | one total per `(name, unit)`, as the current download computes | not executed | LegacyViews.NameKeyMergesUnits | LegacyViews.KeyedListSeparatesUnits |
