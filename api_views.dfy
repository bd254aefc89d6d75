/** The recipe and user views of the API: adding and removing favorites and cart entries,
    subscribing and unsubscribing, the short link of a recipe, and the aggregated
    shopping list of a user's cart. */
module ApiViews {
  import opened Common
  import opened Models
  import opened PdfLayout
  import opened ApiSerializers

  /** A response status together with the store it leaves behind. */
  datatype Outcome = Outcome(status: Status, tables: Tables)

  // ---------------------------------------------------------------------------
  // Favorites and shopping cart

  /** `add_to_collection`: 404 for an unknown recipe, 400 for a pair already present,
      otherwise exactly that pair is inserted and the answer is 201. */
  function Add(t: Tables, c: Collection, user: UserId, recipe: RecipeId): (o: Outcome)
    ensures o.status == NotFound404 <==> recipe !in t.recipes
    ensures o.status == BadRequest400 <==> recipe in t.recipes && (user, recipe) in Members(t, c)
    ensures o.status == Created201 <==> recipe in t.recipes && (user, recipe) !in Members(t, c)
    ensures o.status != Created201 ==> o.tables == t
    ensures Members(o.tables, c) == Members(t, c) + (if o.status == Created201 then {(user, recipe)} else {})
    ensures o.tables == WithMembers(t, c, Members(o.tables, c))
    ensures t.Valid() && user in t.users ==> o.tables.Valid()
  {
    if recipe !in t.recipes then Outcome(NotFound404, t)
    else if (user, recipe) in Members(t, c) then Outcome(BadRequest400, t)
    else Outcome(Created201, WithMembers(t, c, Members(t, c) + {(user, recipe)}))
  }

  /** `remove_from_collection`: 404 for an unknown recipe, 400 when nothing was deleted,
      otherwise exactly that pair is deleted and the answer is 204. */
  function Remove(t: Tables, c: Collection, user: UserId, recipe: RecipeId): (o: Outcome)
    ensures o.status == NotFound404 <==> recipe !in t.recipes
    ensures o.status == BadRequest400 <==> recipe in t.recipes && (user, recipe) !in Members(t, c)
    ensures o.status == NoContent204 <==> recipe in t.recipes && (user, recipe) in Members(t, c)
    ensures o.status != NoContent204 ==> o.tables == t
    ensures o.status == NoContent204 ==> Members(o.tables, c) == Members(t, c) - {(user, recipe)}
    ensures o.tables == WithMembers(t, c, Members(o.tables, c))
    ensures t.Valid() ==> o.tables.Valid()
  {
    if recipe !in t.recipes then Outcome(NotFound404, t)
    else if (user, recipe) !in Members(t, c) then Outcome(BadRequest400, t)
    else Outcome(NoContent204, WithMembers(t, c, Members(t, c) - {(user, recipe)}))
  }

  /** The add view on the store: look the recipe up, check for the pair, then insert. */
  method AddToCollection(db: Database, c: Collection, user: UserId, recipe: RecipeId) returns (status: Status)
    requires db.Valid() && user in db.users
    modifies db
    ensures db.Valid()
    ensures Outcome(status, db.Snapshot()) == Add(old(db.Snapshot()), c, user, recipe)
  {
    if recipe !in db.recipes {
      return NotFound404;
    }
    var present := match c
      case Favorites => (user, recipe) in db.favorites
      case ShoppingCart => (user, recipe) in db.carts;
    if present {
      return BadRequest400;
    }
    match c {
      case Favorites => db.favorites := db.favorites + {(user, recipe)};
      case ShoppingCart => db.carts := db.carts + {(user, recipe)};
    }
    status := Created201;
  }

  /** The remove view on the store: look the recipe up, delete the pair, and report
      whether anything was deleted. */
  method RemoveFromCollection(db: Database, c: Collection, user: UserId, recipe: RecipeId) returns (status: Status)
    requires db.Valid()
    modifies db
    ensures db.Valid()
    ensures Outcome(status, db.Snapshot()) == Remove(old(db.Snapshot()), c, user, recipe)
  {
    if recipe !in db.recipes {
      return NotFound404;
    }
    var deleted: bool;
    match c {
      case Favorites =>
        deleted := (user, recipe) in db.favorites;
        db.favorites := db.favorites - {(user, recipe)};
      case ShoppingCart =>
        deleted := (user, recipe) in db.carts;
        db.carts := db.carts - {(user, recipe)};
    }
    status := if deleted then NoContent204 else BadRequest400;
  }

  /** Adding a pair that is absent and then removing it gives back the original store. */
  lemma AddThenRemoveRestores(t: Tables, c: Collection, user: UserId, recipe: RecipeId)
    requires (user, recipe) !in Members(t, c)
    ensures var a := Add(t, c, user, recipe);
            var r := Remove(a.tables, c, user, recipe);
            && r.tables == t
            && (recipe in t.recipes ==> a.status == Created201 && r.status == NoContent204)
  {
    if recipe in t.recipes {
      var m := Members(t, c);
      assert (m + {(user, recipe)}) - {(user, recipe)} == m;
    }
  }

  /** A second consecutive add of the same pair fails and changes nothing. */
  lemma SecondAddFails(t: Tables, c: Collection, user: UserId, recipe: RecipeId)
    requires recipe in t.recipes
    ensures var a := Add(t, c, user, recipe);
            Add(a.tables, c, user, recipe) == Outcome(BadRequest400, a.tables)
  {
  }

  /** A second consecutive remove of the same pair fails and changes nothing. */
  lemma SecondRemoveFails(t: Tables, c: Collection, user: UserId, recipe: RecipeId)
    requires recipe in t.recipes
    ensures var r := Remove(t, c, user, recipe);
            Remove(r.tables, c, user, recipe) == Outcome(BadRequest400, r.tables)
  {
  }

  // ---------------------------------------------------------------------------
  // Subscriptions

  /** The `subscribe` response: status, the store left behind, and on success the limited
      list of the author's recipes and their count. */
  datatype SubscribeResponse = SubscribeResponse(status: Status, tables: Tables, recipes: seq<RecipeId>, recipesCount: nat)

  /** `subscribe` (POST): 404 for an unknown author; 400 for oneself, checked before 400
      for an existing subscription, neither writing anything; otherwise the row is written
      and the response lists the author's recipes cut to a non-empty `recipes_limit`. A
      limit that is not a non-negative integer fails after the row was written. */
  function Subscribe(t: Tables, user: UserId, author: UserId, limit: Option<string>): (o: SubscribeResponse)
    requires t.Valid() && user in t.users
    ensures o.status == NotFound404 <==> author !in t.users
    ensures author in t.users ==>
              (o.status == BadRequest400 <==> ValidateSubscription(t.subscriptions, user, author).Some?)
    ensures author in t.users && author == user ==> o.status == BadRequest400
    ensures o.status == NotFound404 || o.status == BadRequest400 ==> o.tables == t
    ensures o.status == Created201 || o.status == ServerError500 ==>
              o.tables == t.(subscriptions := t.subscriptions + {(user, author)})
    ensures author in t.users && ValidateSubscription(t.subscriptions, user, author).None? ==>
              && (o.status == Created201 || o.status == ServerError500)
              && (o.status == Created201 <==>
                    !Filled(limit) || (ParseInt(limit.value).Some? && ParseInt(limit.value).value >= 0))
    ensures o.status == Created201 ==>
              && o.recipesCount == |AuthorRecipes(t, author)|
              && (!Filled(limit) ==> o.recipes == AuthorRecipes(t, author))
              && (Filled(limit) ==>
                    o.recipes == AuthorRecipes(t, author)[..Min(ParseInt(limit.value).value, |AuthorRecipes(t, author)|)])
    ensures o.tables.Valid()
  {
    if author !in t.users then SubscribeResponse(NotFound404, t, [], 0)
    else if author == user then SubscribeResponse(BadRequest400, t, [], 0)
    else if (user, author) in t.subscriptions then SubscribeResponse(BadRequest400, t, [], 0)
    else
      var t' := t.(subscriptions := t.subscriptions + {(user, author)});
      var all := AuthorRecipes(t, author);
      match SubscribeRecipes(all, limit)
      case None => SubscribeResponse(ServerError500, t', [], 0)
      case Some(rs) => SubscribeResponse(Created201, t', rs, |all|)
  }

  /** The subscribe view on the store, step by step. */
  method SubscribeView(db: Database, user: UserId, author: UserId, limit: Option<string>)
    returns (status: Status, recipes: seq<RecipeId>, recipesCount: nat)
    requires db.Valid() && user in db.users
    modifies db
    ensures db.Valid()
    ensures SubscribeResponse(status, db.Snapshot(), recipes, recipesCount)
            == Subscribe(old(db.Snapshot()), user, author, limit)
  {
    recipes, recipesCount := [], 0;
    if author !in db.users {
      return NotFound404, recipes, recipesCount;
    }
    if author == user || (user, author) in db.subscriptions {
      return BadRequest400, recipes, recipesCount;
    }
    var all := AuthorRecipes(db.Snapshot(), author);
    db.subscriptions := db.subscriptions + {(user, author)};
    var limited := SubscribeRecipes(all, limit);
    if limited.None? {
      return ServerError500, recipes, recipesCount;
    }
    status, recipes, recipesCount := Created201, limited.value, |all|;
  }

  /** `subscribe` (DELETE) and `remove_subscription`: 404 for an unknown author, 400 when
      no row was deleted, otherwise exactly that row is deleted and the answer is 204. */
  function Unsubscribe(t: Tables, user: UserId, author: UserId): (o: Outcome)
    ensures o.status == NotFound404 <==> author !in t.users
    ensures o.status == BadRequest400 <==> author in t.users && (user, author) !in t.subscriptions
    ensures o.status == NoContent204 <==> author in t.users && (user, author) in t.subscriptions
    ensures o.status != NoContent204 ==> o.tables == t
    ensures o.status == NoContent204 ==>
              o.tables == t.(subscriptions := t.subscriptions - {(user, author)})
              && |o.tables.subscriptions| == |t.subscriptions| - 1
    ensures t.Valid() ==> o.tables.Valid()
  {
    if author !in t.users then Outcome(NotFound404, t)
    else if (user, author) !in t.subscriptions then Outcome(BadRequest400, t)
    else Outcome(NoContent204, t.(subscriptions := t.subscriptions - {(user, author)}))
  }

  /** The unsubscribe view on the store. */
  method UnsubscribeView(db: Database, user: UserId, author: UserId) returns (status: Status)
    requires db.Valid()
    modifies db
    ensures db.Valid()
    ensures Outcome(status, db.Snapshot()) == Unsubscribe(old(db.Snapshot()), user, author)
  {
    if author !in db.users {
      return NotFound404;
    }
    var deleted := (user, author) in db.subscriptions;
    db.subscriptions := db.subscriptions - {(user, author)};
    status := if deleted then NoContent204 else BadRequest400;
  }

  /** `add_subscription`: 404 for an unknown author, then the subscription serializer's
      checks (400), then the row is saved (201). */
  function AddSubscription(t: Tables, user: UserId, author: UserId): (o: Outcome)
    ensures o.status == Created201 <==>
              author in t.users && ValidateSubscription(t.subscriptions, user, author).None?
    ensures o.status != Created201 ==> o.tables == t
    ensures o.status == Created201 ==> o.tables == t.(subscriptions := t.subscriptions + {(user, author)})
    ensures t.Valid() && user in t.users ==> o.tables.Valid()
  {
    if author !in t.users then Outcome(NotFound404, t)
    else match ValidateSubscription(t.subscriptions, user, author)
      case Some(_) => Outcome(BadRequest400, t)
      case None => Outcome(Created201, t.(subscriptions := t.subscriptions + {(user, author)}))
  }

  /** Without a limit, `subscribe` and `add_subscription` answer alike and leave the same
      store. */
  lemma SubscribeAgreesWithAddSubscription(t: Tables, user: UserId, author: UserId)
    requires t.Valid() && user in t.users
    ensures var s := Subscribe(t, user, author, None);
            var a := AddSubscription(t, user, author);
            s.status == a.status && s.tables == a.tables
  {
  }

  /** Subscribing and then unsubscribing gives back the original store. */
  lemma SubscribeThenUnsubscribeRestores(t: Tables, user: UserId, author: UserId, limit: Option<string>)
    requires t.Valid() && user in t.users && author in t.users
    requires ValidateSubscription(t.subscriptions, user, author).None?
    ensures var s := Subscribe(t, user, author, limit);
            Unsubscribe(s.tables, user, author) == Outcome(NoContent204, t)
  {
    var p := (user, author);
    assert (t.subscriptions + {p}) - {p} == t.subscriptions;
  }

  // ---------------------------------------------------------------------------
  // Short link

  /** `get_link`: 404 for an unknown recipe, otherwise the base URL followed by the
      recipe's hash. */
  function GetLink(t: Tables, base: string, recipe: RecipeId): (r: Option<string>)
    ensures r.None? <==> recipe !in t.recipes
    ensures r.Some? ==> |base| <= |r.value| && r.value[..|base|] == base && r.value[|base|..] == t.recipes[recipe].shortLink
  {
    if recipe !in t.recipes then None else Some(base + t.recipes[recipe].shortLink)
  }

  /** While the hashes are distinct, a short link names exactly one recipe. */
  lemma LinkIdentifiesRecipe(t: Tables, base: string, a: RecipeId, b: RecipeId)
    requires ShortLinksDistinct(t.recipes)
    requires GetLink(t, base, a).Some? && GetLink(t, base, a) == GetLink(t, base, b)
    ensures a == b
  {
    var l := GetLink(t, base, a).value;
    assert t.recipes[a].shortLink == l[|base|..] == t.recipes[b].shortLink;
  }

  // ---------------------------------------------------------------------------
  // Shopping list

  /** One joined row of the cart query: the ingredient's name and unit, and the amount. */
  datatype Line = Line(name: string, unit: string, amount: int)

  type Key = (string, string)

  function KeyOf(l: Line): Key
  {
    (l.name, l.unit)
  }

  function LineOf(t: Tables, x: RecipeIngredient): Line
    requires x.ingredient in t.ingredients
  {
    Line(t.ingredients[x.ingredient].name, t.ingredients[x.ingredient].unit, x.amount)
  }

  /** The rows whose recipe is in `user`'s cart, joined with their ingredient, in table
      order. */
  function CartLines(t: Tables, user: UserId, rows: seq<RecipeIngredient>): (r: seq<Line>)
    requires forall i | 0 <= i < |rows| :: rows[i].ingredient in t.ingredients
    ensures |r| <= |rows|
    ensures forall l | l in r :: exists i | 0 <= i < |rows| :: (user, rows[i].recipe) in t.carts && l == LineOf(t, rows[i])
    ensures forall i | 0 <= i < |rows| && (user, rows[i].recipe) in t.carts :: LineOf(t, rows[i]) in r
    ensures AmountsValid(rows) ==> forall l | l in r :: l.amount >= MIN_VALUE
    decreases |rows|
  {
    if |rows| == 0 then []
    else
      var rest := CartLines(t, user, rows[1..]);
      assert forall i | 0 <= i < |rows[1..]| :: rows[1..][i] == rows[i + 1];
      if (user, rows[0].recipe) in t.carts then [LineOf(t, rows[0])] + rest else rest
  }

  /** The distinct (name, unit) keys of `lines`. */
  function Keys(lines: seq<Line>): (r: seq<Key>)
    ensures Distinct(r)
    ensures forall k :: k in r <==> exists i | 0 <= i < |lines| :: KeyOf(lines[i]) == k
  {
    if |lines| == 0 then []
    else
      var init := lines[..|lines| - 1];
      var rest := Keys(init);
      var k := KeyOf(lines[|lines| - 1]);
      assert forall i | 0 <= i < |init| :: init[i] == lines[i];
      if k in rest then rest else rest + [k]
  }

  /** `Sum('amount')` over the lines of one key. */
  function Total(lines: seq<Line>, k: Key): int
  {
    if |lines| == 0 then 0
    else Total(lines[..|lines| - 1], k) + (if KeyOf(lines[|lines| - 1]) == k then lines[|lines| - 1].amount else 0)
  }

  /** With valid amounts, the total of a key that occurs is at least the minimum amount. */
  lemma {:induction false} TotalAtLeastMin(lines: seq<Line>, k: Key)
    requires forall l | l in lines :: l.amount >= MIN_VALUE
    ensures Total(lines, k) >= 0
    ensures (exists i | 0 <= i < |lines| :: KeyOf(lines[i]) == k) ==> Total(lines, k) >= MIN_VALUE
  {
    if |lines| > 0 {
      var init := lines[..|lines| - 1];
      assert forall l | l in init :: l in lines;
      TotalAtLeastMin(init, k);
      if exists i | 0 <= i < |lines| :: KeyOf(lines[i]) == k {
        var i :| 0 <= i < |lines| && KeyOf(lines[i]) == k;
        if i < |lines| - 1 {
          assert init[i] == lines[i];
        }
      }
    }
  }

  /** One entry per key, carrying its total. */
  function Entries(lines: seq<Line>, keys: seq<Key>): (r: seq<ShoppingEntry>)
    ensures |r| == |keys|
    ensures forall i | 0 <= i < |keys| :: r[i] == ShoppingEntry(keys[i].0, keys[i].1, Total(lines, keys[i]))
  {
    seq(|keys|, i requires 0 <= i < |keys| => ShoppingEntry(keys[i].0, keys[i].1, Total(lines, keys[i])))
  }

  predicate SortedByName(s: seq<ShoppingEntry>)
  {
    forall i, j | 0 <= i < j < |s| :: StrLe(s[i].name, s[j].name)
  }

  function InsertByName(e: ShoppingEntry, s: seq<ShoppingEntry>): (r: seq<ShoppingEntry>)
    ensures multiset(r) == multiset(s) + multiset{e}
    decreases |s|
  {
    if |s| == 0 then [e]
    else if StrLe(e.name, s[0].name) then [e] + s
    else
      assert s == [s[0]] + s[1..];
      [s[0]] + InsertByName(e, s[1..])
  }

  /** `order_by('ingredient__name')`, as an insertion sort on names. */
  function SortByName(s: seq<ShoppingEntry>): (r: seq<ShoppingEntry>)
    ensures multiset(r) == multiset(s)
  {
    if |s| == 0 then []
    else
      assert s == [s[0]] + s[1..];
      InsertByName(s[0], SortByName(s[1..]))
  }

  lemma {:induction false} InsertSorted(e: ShoppingEntry, s: seq<ShoppingEntry>)
    requires SortedByName(s)
    ensures SortedByName(InsertByName(e, s))
    decreases |s|
  {
    if |s| > 0 {
      if StrLe(e.name, s[0].name) {
        forall j | 0 <= j < |s| ensures StrLe(e.name, s[j].name) {
          if j > 0 {
            StrLeTransitive(e.name, s[0].name, s[j].name);
          }
        }
        var r := [e] + s;
        forall i, j | 0 <= i < j < |r| ensures StrLe(r[i].name, r[j].name) {
          if i > 0 {
            assert r[i] == s[i - 1] && r[j] == s[j - 1];
          } else {
            assert r[j] == s[j - 1];
          }
        }
      } else {
        StrLeTotal(e.name, s[0].name);
        var tail := s[1..];
        assert SortedByName(tail) by {
          forall i, j | 0 <= i < j < |tail| ensures StrLe(tail[i].name, tail[j].name) {
            assert tail[i] == s[i + 1] && tail[j] == s[j + 1];
          }
        }
        InsertSorted(e, tail);
        var rest := InsertByName(e, tail);
        var r := [s[0]] + rest;
        forall k | 0 <= k < |rest| ensures StrLe(s[0].name, rest[k].name) {
          assert rest[k] in multiset(rest);
          assert rest[k] == e || rest[k] in multiset(tail);
          if rest[k] != e {
            var m :| 0 <= m < |tail| && tail[m] == rest[k];
            assert tail[m] == s[m + 1];
          }
        }
        forall i, j | 0 <= i < j < |r| ensures StrLe(r[i].name, r[j].name) {
          if i > 0 {
            assert r[i] == rest[i - 1] && r[j] == rest[j - 1];
          } else {
            assert r[j] == rest[j - 1];
          }
        }
      }
    }
  }

  lemma {:induction false} SortSorted(s: seq<ShoppingEntry>)
    ensures SortedByName(SortByName(s))
  {
    if |s| > 0 {
      SortSorted(s[1..]);
      InsertSorted(s[0], SortByName(s[1..]));
    }
  }

  /** `download_shopping_cart`'s query: one entry per (name, unit) among the lines, with
      the sum of their amounts, ordered by name. */
  function ShoppingList(lines: seq<Line>): seq<ShoppingEntry>
  {
    SortByName(Entries(lines, Keys(lines)))
  }

  /** `e` is the entry of a key that occurs in `lines`, carrying that key's total. */
  predicate EntryOf(e: ShoppingEntry, lines: seq<Line>)
  {
    && e.total == Total(lines, (e.name, e.unit))
    && exists j | 0 <= j < |lines| :: KeyOf(lines[j]) == (e.name, e.unit)
  }

  /** Some entry of `r` has the name and unit of `l`. */
  predicate Listed(l: Line, r: seq<ShoppingEntry>)
  {
    exists x | x in r :: x.name == l.name && x.unit == l.unit
  }

  /** Before sorting: one entry per key, no two alike, each with its key's total. */
  lemma EntriesSpec(lines: seq<Line>)
    ensures var e := Entries(lines, Keys(lines));
            && Distinct(e)
            && (forall x | x in e :: EntryOf(x, lines))
            && (forall l | l in lines :: Listed(l, e))
  {
    var keys := Keys(lines);
    var e := Entries(lines, keys);
    forall i, j | 0 <= i < j < |e| ensures e[i] != e[j] {
      assert keys[i] != keys[j];
    }
    forall x | x in e ensures EntryOf(x, lines) {
      var i :| 0 <= i < |e| && e[i] == x;
      assert keys[i] in keys;
    }
    forall l | l in lines ensures Listed(l, e) {
      var j :| 0 <= j < |lines| && lines[j] == l;
      var k := KeyOf(l);
      assert exists i | 0 <= i < |lines| :: KeyOf(lines[i]) == k;
      assert k in keys;
      var m :| 0 <= m < |keys| && keys[m] == k;
      assert e[m] in e;
    }
  }

  /** Sorting keeps exactly the same elements and yields name order. */
  lemma SortSpec(s: seq<ShoppingEntry>)
    ensures var r := SortByName(s);
            && SortedByName(r) && |r| == |s|
            && (forall x :: x in r <==> x in s)
            && (Distinct(s) ==> Distinct(r))
  {
    var r := SortByName(s);
    SortSorted(s);
    assert |r| == |multiset(r)| == |multiset(s)| == |s|;
    forall x ensures x in r <==> x in s {
      assert x in r <==> x in multiset(r);
      assert x in s <==> x in multiset(s);
    }
    if Distinct(s) {
      DistinctPermutation(s, r);
    }
  }

  /** The shopping list has exactly one entry per (name, unit) occurring in the lines,
      each with the total of that key, in name order; with valid amounts every total is
      at least the minimum. */
  lemma ShoppingListSpec(lines: seq<Line>)
    ensures var r := ShoppingList(lines);
            && SortedByName(r)
            && (forall x | x in r :: EntryOf(x, lines))
            && (forall l | l in lines :: Listed(l, r))
            && (forall i, j | 0 <= i < j < |r| :: r[i].name != r[j].name || r[i].unit != r[j].unit)
            && (|r| == 0 <==> |lines| == 0)
            && ((forall l | l in lines :: l.amount >= MIN_VALUE) ==> forall x | x in r :: x.total >= MIN_VALUE)
  {
    var e := Entries(lines, Keys(lines));
    var r := ShoppingList(lines);
    EntriesSpec(lines);
    SortSpec(e);
    forall l | l in lines ensures Listed(l, r) {
      assert Listed(l, e);
    }
    forall i, j | 0 <= i < j < |r| ensures r[i].name != r[j].name || r[i].unit != r[j].unit {
      assert r[i] != r[j];
      assert r[i] in e && r[j] in e;
    }
    if forall l | l in lines :: l.amount >= MIN_VALUE {
      forall x | x in r ensures x.total >= MIN_VALUE {
        TotalAtLeastMin(lines, (x.name, x.unit));
      }
    }
    if |lines| > 0 {
      assert Listed(lines[0], r);
    }
  }

  /** `download_shopping_cart`: the document for the user's aggregated cart. */
  method DownloadShoppingCart(db: Database, user: UserId) returns (filename: string, draws: seq<Draw>, pages: nat)
    requires db.Valid() && user in db.users
    ensures var entries := ShoppingList(CartLines(db.Snapshot(), user, db.recipeIngredients));
            var start := Cursor(1, LETTER_HEIGHT - MARGIN - LINE_STEP);
            && filename == Filename(db.users[user])
            && |draws| >= 2 && draws[0] == Draw(1, LETTER_HEIGHT - MARGIN, Header(db.users[user]))
            && (|entries| == 0 ==> draws[1..] == [Draw(1, LETTER_HEIGHT - MARGIN - LINE_STEP, EMPTY_TEXT)] && pages == 1)
            && (|entries| > 0 ==>
                  && draws[1..] == Place(EntryTexts(entries), start, LETTER_HEIGHT - MARGIN, MARGIN)
                  && pages == 1 + Breaks(EntryTexts(entries), start, LETTER_HEIGHT - MARGIN, MARGIN))
  {
    var lines := CartLines(db.Snapshot(), user, db.recipeIngredients);
    var entries := ShoppingList(lines);
    filename, draws, pages := GeneratePdf(db.users[user], entries);
  }
}
