/** The older view layer of the `foodgram` application: its author-or-read-only
    permission and per-action permission tables, the ingredient query with a
    case-insensitive substring, the shopping list aggregated by ingredient name alone,
    and favorite and cart actions that add and remove without checking. */
module LegacyViews {
  import opened Common
  import opened Models
  import opened PdfLayout
  import opened ApiViews
  import opened ApiFilters

  // ---------------------------------------------------------------------------
  // Permissions

  datatype HttpMethod = GET | HEAD | OPTIONS | POST | PUT | PATCH | DELETE

  /** The methods that only read. */
  predicate IsSafe(m: HttpMethod)
  {
    m == GET || m == HEAD || m == OPTIONS
  }

  /** `IsAuthorOrReadOnly.has_object_permission`: reading is open to anyone; any other
      method only to the recipe's author (an anonymous requester is never the author). */
  function IsAuthorOrReadOnly(m: HttpMethod, author: UserId, requester: Option<UserId>): (r: bool)
    ensures IsSafe(m) ==> r
    ensures !IsSafe(m) ==> (r <==> requester == Some(author))
  {
    if IsSafe(m) then true else requester == Some(author)
  }

  datatype Permission = AllowAny | IsAuthenticated | AuthorOrReadOnly

  /** Whether permission `p` lets `requester` use method `m`; `author` is the author of the
      object the request touches, `None` when it touches none (list, create). */
  function Grants(p: Permission, m: HttpMethod, author: Option<UserId>, requester: Option<UserId>): bool
  {
    match p
    case AllowAny => true
    case IsAuthenticated => requester.Some?
    case AuthorOrReadOnly => author.None? || IsAuthorOrReadOnly(m, author.value, requester)
  }

  /** DRF admits a request when every permission in the list grants it. */
  predicate Allowed(ps: seq<Permission>, m: HttpMethod, author: Option<UserId>, requester: Option<UserId>)
  {
    forall i | 0 <= i < |ps| :: Grants(ps[i], m, author, requester)
  }

  /** `CustomUserViewSet.permission_classes_by_action`. */
  const USER_PERMISSIONS: map<string, seq<Permission>> :=
    map["create" := [AllowAny], "list" := [IsAuthenticated], "me" := [IsAuthenticated],
        "set_password" := [IsAuthenticated]]

  /** `RecipeViewSet.permission_classes_by_action`. */
  const RECIPE_PERMISSIONS: map<string, seq<Permission>> :=
    map["list" := [AllowAny], "retrieve" := [AllowAny], "create" := [IsAuthenticated],
        "update" := [AuthorOrReadOnly], "partial_update" := [AuthorOrReadOnly],
        "destroy" := [AuthorOrReadOnly]]

  /** The project-wide default permission list. */
  const DEFAULT_PERMISSIONS: seq<Permission> := [AllowAny]

  /** `get_permissions`: the action's own list when the table has one, otherwise the
      view's default list (the KeyError branch). */
  function GetPermissions(table: map<string, seq<Permission>>, action: string, defaults: seq<Permission>)
    : (r: seq<Permission>)
    ensures action in table ==> r == table[action]
    ensures action !in table ==> r == defaults
  {
    if action in table then table[action] else defaults
  }

  /** Nobody but the author may update or delete a recipe, whatever the view's default. */
  lemma OnlyAuthorModifiesRecipe(action: string, m: HttpMethod, author: UserId, requester: Option<UserId>,
                                 defaults: seq<Permission>)
    requires action == "update" || action == "partial_update" || action == "destroy"
    requires !IsSafe(m)
    ensures Allowed(GetPermissions(RECIPE_PERMISSIONS, action, defaults), m, Some(author), requester)
            <==> requester == Some(author)
  {
    var ps := GetPermissions(RECIPE_PERMISSIONS, action, defaults);
    assert ps == [AuthorOrReadOnly];
    assert Allowed(ps, m, Some(author), requester) <==> Grants(ps[0], m, Some(author), requester);
  }

  /** The user actions missing from the table fall back to the default list, which admits
      an anonymous request: for instance an update of any user record. */
  lemma UnlistedUserActionsAdmitAnyone(m: HttpMethod, target: UserId)
    ensures Allowed(GetPermissions(USER_PERMISSIONS, "update", DEFAULT_PERMISSIONS), m, Some(target), None)
    ensures !Allowed(GetPermissions(USER_PERMISSIONS, "list", DEFAULT_PERMISSIONS), m, None, None)
  {
    assert "update" !in USER_PERMISSIONS;
    var ps := GetPermissions(USER_PERMISSIONS, "list", DEFAULT_PERMISSIONS);
    assert ps == [IsAuthenticated];
    assert !Grants(ps[0], m, None, None);
  }

  // ---------------------------------------------------------------------------
  // Ingredients

  /** `IngredientViewSet.get_queryset`: an absent or empty `name` keeps every ingredient;
      otherwise those whose name contains it, ignoring case. */
  function IngredientQueryset(t: Tables, qs: seq<IngredientId>, name: Option<string>): (r: seq<IngredientId>)
    ensures !Filled(name) ==> r == qs
    ensures Filled(name) ==>
              forall i | 0 <= i < |r| :: r[i] in t.ingredients && ContainsIgnoreCase(t.ingredients[r[i]].name, name.value)
    ensures multiset(r) <= multiset(qs)
  {
    if !Filled(name) then qs
    else Filter(qs, (id: IngredientId) => id in t.ingredients && ContainsIgnoreCase(t.ingredients[id].name, name.value))
  }

  /** With a non-empty query, an ingredient survives exactly when it is in the query set and
      its name contains the query, ignoring case. */
  lemma IngredientQuerysetMatches(t: Tables, qs: seq<IngredientId>, name: string, id: IngredientId)
    requires name != ""
    ensures id in IngredientQueryset(t, qs, Some(name))
            <==> id in qs && id in t.ingredients && ContainsIgnoreCase(t.ingredients[id].name, name)
  {
    FilterMembers(qs, (x: IngredientId) => x in t.ingredients && ContainsIgnoreCase(t.ingredients[x].name, name), id);
  }

  /** Every ingredient the API's prefix filter keeps, this substring query keeps too. */
  lemma PrefixResultsWithinSubstringResults(t: Tables, qs: seq<IngredientId>, name: Option<string>, id: IngredientId)
    requires id in FilterNamePrefix(t, qs, name)
    ensures id in IngredientQueryset(t, qs, name)
  {
    if Filled(name) {
      var q := name.value;
      FilterMembers(qs, (x: IngredientId) => x in t.ingredients && StartsWithIgnoreCase(t.ingredients[x].name, q), id);
      ContainsAt(t.ingredients[id].name, q, 0);
      assert t.ingredients[id].name[0..] == t.ingredients[id].name;
      FilterMembers(qs, (x: IngredientId) => x in t.ingredients && ContainsIgnoreCase(t.ingredients[x].name, q), id);
    }
  }

  // ---------------------------------------------------------------------------
  // Shopping list keyed by name

  /** The rows of one recipe, joined with their ingredient, in table order. */
  function RecipeLines(t: Tables, recipe: RecipeId, rows: seq<RecipeIngredient>): seq<Line>
    requires forall i | 0 <= i < |rows| :: rows[i].ingredient in t.ingredients
  {
    if |rows| == 0 then []
    else (if rows[0].recipe == recipe then [LineOf(t, rows[0])] else []) + RecipeLines(t, recipe, rows[1..])
  }

  /** The rows of the recipes below `k` in `user`'s cart. The rows are ordered by recipe,
      which follows the recipes' own ordering, newest first: the highest id comes first. */
  function CartLinesByRecipe(t: Tables, user: UserId, k: int): seq<Line>
    requires forall i | 0 <= i < |t.recipeIngredients| :: t.recipeIngredients[i].ingredient in t.ingredients
    decreases k
  {
    if k <= 0 then []
    else (if (user, k - 1) in t.carts then RecipeLines(t, k - 1, t.recipeIngredients) else [])
         + CartLinesByRecipe(t, user, k - 1)
  }

  /** The distinct names of `lines`, in order of first appearance (dictionary order). */
  function NamesInOrder(lines: seq<Line>): (r: seq<string>)
    ensures Distinct(r)
    ensures forall n :: n in r <==> exists i | 0 <= i < |lines| :: lines[i].name == n
  {
    if |lines| == 0 then []
    else
      var init := lines[..|lines| - 1];
      var rest := NamesInOrder(init);
      var n := lines[|lines| - 1].name;
      assert forall i | 0 <= i < |init| :: init[i] == lines[i];
      if n in rest then rest else rest + [n]
  }

  /** The amounts of every line named `n`, whatever its unit. */
  function NameSum(lines: seq<Line>, n: string): int
  {
    if |lines| == 0 then 0
    else NameSum(lines[..|lines| - 1], n) + (if lines[|lines| - 1].name == n then lines[|lines| - 1].amount else 0)
  }

  /** The unit of the first line named `n` ("" when there is none). */
  function FirstUnit(lines: seq<Line>, n: string): string
  {
    if |lines| == 0 then ""
    else
      var init := lines[..|lines| - 1];
      if exists i | 0 <= i < |init| :: init[i].name == n then FirstUnit(init, n)
      else if lines[|lines| - 1].name == n then lines[|lines| - 1].unit
      else ""
  }

  /** The unit kept for a name is the unit of the earliest line with that name. */
  lemma {:induction false} FirstUnitIsFirst(lines: seq<Line>, n: string)
    requires exists i | 0 <= i < |lines| :: lines[i].name == n
    ensures exists j | 0 <= j < |lines| ::
              && lines[j].name == n && lines[j].unit == FirstUnit(lines, n)
              && forall k | 0 <= k < j :: lines[k].name != n
  {
    var init := lines[..|lines| - 1];
    if exists i | 0 <= i < |init| :: init[i].name == n {
      FirstUnitIsFirst(init, n);
      var j :| 0 <= j < |init| && init[j].name == n && init[j].unit == FirstUnit(init, n)
               && forall k | 0 <= k < j :: init[k].name != n;
      assert lines[j] == init[j];
      forall k | 0 <= k < j ensures lines[k].name != n {
        assert lines[k] == init[k];
      }
    } else {
      var j := |lines| - 1;
      assert forall i | 0 <= i < |init| :: init[i] == lines[i];
      forall k | 0 <= k < j ensures lines[k].name != n {
        assert lines[k] == init[k];
      }
    }
  }

  /** What one more line changes in the names, sums and first units. */
  lemma AppendLine(init: seq<Line>, l: Line)
    ensures NamesInOrder(init + [l]) == if l.name in NamesInOrder(init) then NamesInOrder(init) else NamesInOrder(init) + [l.name]
    ensures forall n :: NameSum(init + [l], n) == NameSum(init, n) + (if l.name == n then l.amount else 0)
    ensures forall n | n in NamesInOrder(init) :: FirstUnit(init + [l], n) == FirstUnit(init, n)
    ensures l.name !in NamesInOrder(init) ==> FirstUnit(init + [l], l.name) == l.unit
  {
    assert (init + [l])[..|init|] == init;
  }

  /** Accumulated amount and unit of one name. */
  datatype NameTotal = NameTotal(amount: int, unit: string)

  /** `names` and `totals` are the dictionary built from `lines`. */
  ghost predicate Aggregates(lines: seq<Line>, names: seq<string>, totals: map<string, NameTotal>)
  {
    && names == NamesInOrder(lines)
    && (forall n :: n in totals <==> n in names)
    && (forall n | n in totals :: totals[n] == NameTotal(NameSum(lines, n), FirstUnit(lines, n)))
  }

  /** A line whose name is already in the dictionary adds its amount to that entry. */
  lemma AddToEntry(init: seq<Line>, l: Line, names: seq<string>, totals: map<string, NameTotal>)
    requires Aggregates(init, names, totals) && l.name in totals
    ensures Aggregates(init + [l], names,
                       totals[l.name := NameTotal(totals[l.name].amount + l.amount, totals[l.name].unit)])
  {
    AppendLine(init, l);
    var lines := init + [l];
    var updated := totals[l.name := NameTotal(totals[l.name].amount + l.amount, totals[l.name].unit)];
    forall n | n in updated ensures updated[n] == NameTotal(NameSum(lines, n), FirstUnit(lines, n)) {
      assert n in NamesInOrder(init);
    }
  }

  /** A name no line carries sums to nothing. */
  lemma {:induction false} NameSumAbsent(lines: seq<Line>, n: string)
    requires n !in NamesInOrder(lines)
    ensures NameSum(lines, n) == 0
  {
    if |lines| > 0 {
      var init := lines[..|lines| - 1];
      assert forall i | 0 <= i < |init| :: init[i] == lines[i];
      NameSumAbsent(init, n);
    }
  }

  /** A line with a new name opens an entry with its amount and unit. */
  lemma OpenEntry(init: seq<Line>, l: Line, names: seq<string>, totals: map<string, NameTotal>)
    requires Aggregates(init, names, totals) && l.name !in totals
    ensures Aggregates(init + [l], names + [l.name], totals[l.name := NameTotal(l.amount, l.unit)])
  {
    AppendLine(init, l);
    NameSumAbsent(init, l.name);
  }

  /** The aggregation loop: the first line of a name opens its entry with that line's
      unit; every later line of the name only adds its amount. */
  method AggregateByName(lines: seq<Line>) returns (names: seq<string>, totals: map<string, NameTotal>)
    ensures names == NamesInOrder(lines)
    ensures forall n :: n in totals <==> n in names
    ensures forall n | n in totals :: totals[n] == NameTotal(NameSum(lines, n), FirstUnit(lines, n))
  {
    names, totals := [], map[];
    var i := 0;
    while i < |lines|
      invariant 0 <= i <= |lines|
      invariant Aggregates(lines[..i], names, totals)
    {
      var l := lines[i];
      assert lines[..i + 1] == lines[..i] + [l];
      if l.name in totals {
        AddToEntry(lines[..i], l, names, totals);
        totals := totals[l.name := NameTotal(totals[l.name].amount + l.amount, totals[l.name].unit)];
      } else {
        OpenEntry(lines[..i], l, names, totals);
        totals := totals[l.name := NameTotal(l.amount, l.unit)];
        names := names + [l.name];
      }
      i := i + 1;
    }
    assert lines[..i] == lines;
  }

  /** When every line of a name carries the same unit, the name-keyed sum equals the
      total of the (name, unit) key the API groups by. */
  lemma {:induction false} NameSumMatchesKeyTotal(lines: seq<Line>, n: string, u: string)
    requires forall i | 0 <= i < |lines| && lines[i].name == n :: lines[i].unit == u
    ensures NameSum(lines, n) == Total(lines, (n, u))
  {
    if |lines| > 0 {
      var init := lines[..|lines| - 1];
      forall i | 0 <= i < |init| && init[i].name == n ensures init[i].unit == u {
        assert init[i] == lines[i];
      }
      NameSumMatchesKeyTotal(init, n, u);
    }
  }

  /** Salt in grams followed by salt in teaspoons. */
  const SALT_LINES: seq<Line> := [Line("salt", "g", 5), Line("salt", "tsp", 1)]

  /** On the salt lines the name-keyed sum adds 5 and 1 and labels the result with the
      unit "g", while the (name, unit) keys keep totals of 5 and 1. */
  lemma NameKeyMergesUnits()
    ensures NameSum(SALT_LINES, "salt") == 6 && FirstUnit(SALT_LINES, "salt") == "g"
    ensures Total(SALT_LINES, ("salt", "g")) == 5 && Total(SALT_LINES, ("salt", "tsp")) == 1
  {
    assert SALT_LINES[..1] == [Line("salt", "g", 5)];
    assert SALT_LINES[..1][..0] == [];
  }

  /** The list keyed by (name, unit) shows the salt lines as two entries, 5 g and 1 tsp. */
  lemma KeyedListSeparatesUnits()
    ensures exists x | x in ShoppingList(SALT_LINES) :: x == ShoppingEntry("salt", "g", 5)
    ensures exists x | x in ShoppingList(SALT_LINES) :: x == ShoppingEntry("salt", "tsp", 1)
  {
    NameKeyMergesUnits();
    ShoppingListSpec(SALT_LINES);
    var r := ShoppingList(SALT_LINES);
    assert SALT_LINES[0] in SALT_LINES && SALT_LINES[1] in SALT_LINES;
    assert Listed(SALT_LINES[0], r) && Listed(SALT_LINES[1], r);
    var a :| a in r && a.name == "salt" && a.unit == "g";
    var b :| b in r && b.name == "salt" && b.unit == "tsp";
    assert EntryOf(a, SALT_LINES) && EntryOf(b, SALT_LINES);
  }

  /** `Список покупок`, the document title. */
  const LEGACY_TITLE := "Список покупок"
  /** Bottom margin and distance of the title from the top of the page. */
  const LEGACY_MARGIN := 50
  /** Gap between the title and the first entry. */
  const TITLE_GAP := 30
  const LEGACY_FILENAME := "shopping_list.pdf"

  function EntryLine(name: string, t: NameTotal): string
  {
    name + " (" + t.unit + ") — " + IntToString(t.amount)
  }

  /** The entry lines of the aggregated list, in dictionary order. */
  function LegacyTexts(lines: seq<Line>): (texts: seq<string>)
    ensures |texts| == |NamesInOrder(lines)|
  {
    var names := NamesInOrder(lines);
    seq(|names|, i requires 0 <= i < |names| =>
      EntryLine(names[i], NameTotal(NameSum(lines, names[i]), FirstUnit(lines, names[i]))))
  }

  /** The layout loop: the title at `height - 50`, the first entry 30 lower, then one line
      per entry, each 20 below the previous, on a fresh page at `height - 50` once below 50. */
  method DrawShoppingList(texts: seq<string>, height: int) returns (draws: seq<Draw>, pages: nat)
    ensures |draws| >= 1 && draws[0] == Draw(1, height - LEGACY_MARGIN, LEGACY_TITLE)
    ensures draws[1..] == Place(texts, Cursor(1, height - LEGACY_MARGIN - TITLE_GAP), height - LEGACY_MARGIN, LEGACY_MARGIN)
    ensures pages == 1 + Breaks(texts, Cursor(1, height - LEGACY_MARGIN - TITLE_GAP), height - LEGACY_MARGIN, LEGACY_MARGIN)
  {
    var page: nat := 1;
    var y := height - LEGACY_MARGIN;
    draws := [Draw(page, y, LEGACY_TITLE)];
    y := y - TITLE_GAP;
    ghost var start := Cursor(1, y);
    var i := 0;
    while i < |texts|
      invariant 0 <= i <= |texts|
      invariant |draws| >= 1 && draws[0] == Draw(1, height - LEGACY_MARGIN, LEGACY_TITLE)
      invariant draws[1..] == Place(texts[..i], start, height - LEGACY_MARGIN, LEGACY_MARGIN)
      invariant Cursor(page, y) == After(texts[..i], start, height - LEGACY_MARGIN, LEGACY_MARGIN)
      invariant page == 1 + Breaks(texts[..i], start, height - LEGACY_MARGIN, LEGACY_MARGIN)
    {
      PlaceSnoc(texts[..i], texts[i], start, height - LEGACY_MARGIN, LEGACY_MARGIN);
      assert texts[..i + 1] == texts[..i] + [texts[i]];
      draws := draws + [Draw(page, y, texts[i])];
      y := y - LINE_STEP;
      if y < LEGACY_MARGIN {
        page := page + 1;
        y := height - LEGACY_MARGIN;
      }
      i := i + 1;
    }
    assert texts[..i] == texts;
    pages := page;
  }

  /** `download_shopping_list`: the cart's rows by recipe, aggregated by name, drawn under
      the title; `height` is the page height in whole points. */
  method DownloadShoppingList(db: Database, user: UserId, height: int)
    returns (filename: string, draws: seq<Draw>, pages: nat)
    requires db.Valid()
    ensures var texts := LegacyTexts(CartLinesByRecipe(db.Snapshot(), user, db.nextRecipeId));
            var start := Cursor(1, height - LEGACY_MARGIN - TITLE_GAP);
            && filename == LEGACY_FILENAME
            && |draws| >= 1 && draws[0] == Draw(1, height - LEGACY_MARGIN, LEGACY_TITLE)
            && draws[1..] == Place(texts, start, height - LEGACY_MARGIN, LEGACY_MARGIN)
            && pages == 1 + Breaks(texts, start, height - LEGACY_MARGIN, LEGACY_MARGIN)
  {
    var lines := CartLinesByRecipe(db.Snapshot(), user, db.nextRecipeId);
    var names, totals := AggregateByName(lines);
    var texts := seq(|names|, i requires 0 <= i < |names| => EntryLine(names[i], totals[names[i]]));
    assert texts == LegacyTexts(lines);
    draws, pages := DrawShoppingList(texts, height);
    filename := LEGACY_FILENAME;
  }

  // ---------------------------------------------------------------------------
  // Favorite and cart actions

  /** `favorite` / `add_to_cart`: 404 for an unknown recipe, otherwise the pair is
      written and the answer is 200. */
  function LegacyAdd(t: Tables, c: Collection, user: UserId, recipe: RecipeId): (o: Outcome)
    ensures o.status == NotFound404 <==> recipe !in t.recipes
    ensures o.status == Ok200 <==> recipe in t.recipes
    ensures o.status == NotFound404 ==> o.tables == t
    ensures o.status == Ok200 ==> Members(o.tables, c) == Members(t, c) + {(user, recipe)}
    ensures o.tables == WithMembers(t, c, Members(o.tables, c))
    ensures t.Valid() && user in t.users ==> o.tables.Valid()
  {
    if recipe !in t.recipes then Outcome(NotFound404, t)
    else Outcome(Ok200, WithMembers(t, c, Members(t, c) + {(user, recipe)}))
  }

  /** `unfavorite` / `remove_from_cart`: 404 for an unknown recipe, otherwise the pair is
      deleted if present and the answer is 200 either way. */
  function SilentRemove(t: Tables, c: Collection, user: UserId, recipe: RecipeId): (o: Outcome)
    ensures o.status == NotFound404 <==> recipe !in t.recipes
    ensures o.status == Ok200 <==> recipe in t.recipes
    ensures o.status == NotFound404 ==> o.tables == t
    ensures o.status == Ok200 ==> Members(o.tables, c) == Members(t, c) - {(user, recipe)}
    ensures o.tables == WithMembers(t, c, Members(o.tables, c))
    ensures t.Valid() ==> o.tables.Valid()
  {
    if recipe !in t.recipes then Outcome(NotFound404, t)
    else Outcome(Ok200, WithMembers(t, c, Members(t, c) - {(user, recipe)}))
  }

  /** The add action on the store. */
  method LegacyAddView(db: Database, c: Collection, user: UserId, recipe: RecipeId) returns (status: Status)
    requires db.Valid() && user in db.users
    modifies db
    ensures db.Valid()
    ensures Outcome(status, db.Snapshot()) == LegacyAdd(old(db.Snapshot()), c, user, recipe)
  {
    if recipe !in db.recipes {
      return NotFound404;
    }
    match c {
      case Favorites => db.favorites := db.favorites + {(user, recipe)};
      case ShoppingCart => db.carts := db.carts + {(user, recipe)};
    }
    status := Ok200;
  }

  /** The remove action on the store. */
  method SilentRemoveView(db: Database, c: Collection, user: UserId, recipe: RecipeId) returns (status: Status)
    requires db.Valid()
    modifies db
    ensures db.Valid()
    ensures Outcome(status, db.Snapshot()) == SilentRemove(old(db.Snapshot()), c, user, recipe)
  {
    if recipe !in db.recipes {
      return NotFound404;
    }
    match c {
      case Favorites => db.favorites := db.favorites - {(user, recipe)};
      case ShoppingCart => db.carts := db.carts - {(user, recipe)};
    }
    status := Ok200;
  }

  /** Removing twice answers and leaves the same as removing once. */
  lemma SilentRemoveIdempotent(t: Tables, c: Collection, user: UserId, recipe: RecipeId)
    ensures var o := SilentRemove(t, c, user, recipe);
            SilentRemove(o.tables, c, user, recipe) == o
  {
    var o := SilentRemove(t, c, user, recipe);
    if recipe in t.recipes {
      var m := Members(t, c) - {(user, recipe)};
      assert m - {(user, recipe)} == m;
    }
  }

  /** The silent remove leaves the same store as the API's remove; the two answers differ
      exactly when the recipe exists but the pair does not. */
  lemma SilentRemoveMatchesApiRemove(t: Tables, c: Collection, user: UserId, recipe: RecipeId)
    ensures SilentRemove(t, c, user, recipe).tables == Remove(t, c, user, recipe).tables
    ensures Remove(t, c, user, recipe).status == BadRequest400
            <==> SilentRemove(t, c, user, recipe).status == Ok200 && (user, recipe) !in Members(t, c)
  {
    if recipe in t.recipes && (user, recipe) !in Members(t, c) {
      assert Members(t, c) - {(user, recipe)} == Members(t, c);
      match c {
        case Favorites =>
        case ShoppingCart =>
      }
    }
  }
}
