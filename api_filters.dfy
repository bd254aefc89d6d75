/** The query filters of the API: the per-viewer favorite and cart flags, the author and
    tag filters of the recipe list, and the case-insensitive name prefix of the
    ingredient list. A query set is the sequence of ids it yields, in order. */
module ApiFilters {
  import opened Common
  import opened Models
  import opened ApiSerializers

  /** `filter_is_favorited` / `filter_is_in_shopping_cart`: an anonymous viewer gets the
      query set unchanged; otherwise `true` keeps the recipes the viewer has in the table
      and `false` keeps the others. */
  function FilterFlag(t: Tables, c: Collection, qs: seq<RecipeId>, viewer: Option<UserId>, value: bool)
    : (r: seq<RecipeId>)
    ensures viewer.None? ==> r == qs
    ensures viewer.Some? ==> forall i | 0 <= i < |r| :: IsFlagged(t, c, viewer, r[i]) == value
    ensures multiset(r) <= multiset(qs)
  {
    if viewer.None? then qs
    else Filter(qs, (id: RecipeId) => ((viewer.value, id) in Members(t, c)) == value)
  }

  /** For a signed-in viewer a recipe survives the flag filter exactly when it is in the
      query set and the flag the recipe serializer shows for it equals the requested value. */
  lemma FlagFilterMatchesSerializer(t: Tables, c: Collection, qs: seq<RecipeId>, user: UserId, value: bool, id: RecipeId)
    ensures id in FilterFlag(t, c, qs, Some(user), value) <==> id in qs && IsFlagged(t, c, Some(user), id) == value
  {
    FilterMembers(qs, (x: RecipeId) => ((user, x) in Members(t, c)) == value, id);
  }

  /** `true` and `false` split the query set between them: every recipe lands in exactly
      one of the two answers, as often as it occurs. */
  lemma FlagFilterPartitions(t: Tables, c: Collection, qs: seq<RecipeId>, user: UserId)
    ensures multiset(FilterFlag(t, c, qs, Some(user), true)) + multiset(FilterFlag(t, c, qs, Some(user), false))
            == multiset(qs)
  {
    var keep := (x: RecipeId) => ((user, x) in Members(t, c)) == true;
    var drop := (x: RecipeId) => ((user, x) in Members(t, c)) == false;
    FilterPartition(qs, keep, drop);
  }

  /** The `author` filter of `Meta.fields`: a choice among the users. An id that names no
      user makes the filter set invalid (`None`, a 400 for the whole request); a known
      author keeps only that author's recipes. */
  function FilterAuthor(t: Tables, qs: seq<RecipeId>, author: Option<UserId>): (r: Option<seq<RecipeId>>)
    ensures r.None? <==> author.Some? && author.value !in t.users
    ensures author.None? ==> r == Some(qs)
    ensures r.Some? && author.Some? ==>
              forall i | 0 <= i < |r.value| :: r.value[i] in t.recipes && t.recipes[r.value[i]].author == author.value
    ensures r.Some? ==> multiset(r.value) <= multiset(qs)
  {
    if author.None? then Some(qs)
    else if author.value !in t.users then None
    else Some(Filter(qs, (id: RecipeId) => id in t.recipes && t.recipes[id].author == author.value))
  }

  /** With a known author given, a recipe survives exactly when it is in the query set and
      was written by that author. */
  lemma AuthorFilterMatches(t: Tables, qs: seq<RecipeId>, author: UserId, id: RecipeId)
    requires author in t.users
    ensures FilterAuthor(t, qs, Some(author)).Some?
    ensures id in FilterAuthor(t, qs, Some(author)).value <==> id in qs && id in t.recipes && t.recipes[id].author == author
  {
    FilterMembers(qs, (x: RecipeId) => x in t.recipes && t.recipes[x].author == author, id);
  }

  /** The choices of `AllValuesMultipleFilter`: every tag some recipe of the whole table
      carries (not only the recipes of the query set). */
  function CarriedTags(t: Tables): (r: set<TagId>)
    ensures forall x :: x in r <==> exists id | id in t.recipes :: x in t.recipes[id].tags
  {
    set id, x | id in t.recipes && x in t.recipes[id].tags :: x
  }

  /** The `tags` filter: a requested tag that no recipe carries is not a valid choice and
      makes the filter set invalid (`None`, a 400); otherwise, with some tags requested,
      the recipes carrying at least one of them remain, and with none the query set is
      unchanged. */
  function FilterTags(t: Tables, qs: seq<RecipeId>, wanted: set<TagId>): (r: Option<seq<RecipeId>>)
    ensures r.None? <==> !(wanted <= CarriedTags(t))
    ensures wanted == {} ==> r == Some(qs)
    ensures r.Some? && wanted != {} ==>
              forall i | 0 <= i < |r.value| :: r.value[i] in t.recipes && t.recipes[r.value[i]].tags * wanted != {}
    ensures r.Some? ==> multiset(r.value) <= multiset(qs)
  {
    if !(wanted <= CarriedTags(t)) then None
    else if wanted == {} then Some(qs)
    else Some(Filter(qs, (id: RecipeId) => id in t.recipes && t.recipes[id].tags * wanted != {}))
  }

  /** With some valid tags requested, a recipe survives exactly when it is in the query
      set and carries at least one of them. */
  lemma TagFilterMatches(t: Tables, qs: seq<RecipeId>, wanted: set<TagId>, id: RecipeId)
    requires wanted != {} && FilterTags(t, qs, wanted).Some?
    ensures id in FilterTags(t, qs, wanted).value <==> id in qs && id in t.recipes && t.recipes[id].tags * wanted != {}
  {
    FilterMembers(qs, (x: RecipeId) => x in t.recipes && t.recipes[x].tags * wanted != {}, id);
  }

  /** A recipe list query: the filter set is validated as a whole, so one invalid value
      answers 400 (`None`) for the request; a valid one applies the author, tag, favorite
      and cart filters in turn. */
  function RecipeList(t: Tables, qs: seq<RecipeId>, viewer: Option<UserId>, author: Option<UserId>,
                      wanted: set<TagId>, favorited: Option<bool>, inCart: Option<bool>): (r: Option<seq<RecipeId>>)
    ensures r.None? <==> FilterAuthor(t, qs, author).None? || FilterTags(t, qs, wanted).None?
    ensures r.Some? ==> multiset(r.value) <= multiset(qs)
  {
    match (FilterAuthor(t, qs, author), FilterTags(t, qs, wanted))
    case (Some(_), Some(_)) =>
      var byAuthor := FilterAuthor(t, qs, author).value;
      var byTags := FilterTags(t, byAuthor, wanted).value;
      var byFavorite := if favorited.Some? then FilterFlag(t, Favorites, byTags, viewer, favorited.value) else byTags;
      Some(if inCart.Some? then FilterFlag(t, ShoppingCart, byFavorite, viewer, inCart.value) else byFavorite)
    case _ => None
  }

  /** In a valid query, a recipe is listed exactly when it is in the query set and passes
      every filter given: its author, one of the requested tags, and for a signed-in viewer
      the requested favorite and cart flags. */
  lemma RecipeListMatches(t: Tables, qs: seq<RecipeId>, viewer: Option<UserId>, author: Option<UserId>,
                          wanted: set<TagId>, favorited: Option<bool>, inCart: Option<bool>, id: RecipeId)
    requires RecipeList(t, qs, viewer, author, wanted, favorited, inCart).Some?
    ensures id in RecipeList(t, qs, viewer, author, wanted, favorited, inCart).value
            <==> && id in qs
                 && (author.Some? ==> id in t.recipes && t.recipes[id].author == author.value)
                 && (wanted != {} ==> id in t.recipes && t.recipes[id].tags * wanted != {})
                 && (favorited.Some? && viewer.Some? ==> IsFlagged(t, Favorites, viewer, id) == favorited.value)
                 && (inCart.Some? && viewer.Some? ==> IsFlagged(t, ShoppingCart, viewer, id) == inCart.value)
  {
    var byAuthor := FilterAuthor(t, qs, author).value;
    if author.Some? {
      AuthorFilterMatches(t, qs, author.value, id);
    }
    var byTags := FilterTags(t, byAuthor, wanted).value;
    if wanted != {} {
      TagFilterMatches(t, byAuthor, wanted, id);
    }
    var byFavorite := if favorited.Some? then FilterFlag(t, Favorites, byTags, viewer, favorited.value) else byTags;
    if favorited.Some? && viewer.Some? {
      FlagFilterMatchesSerializer(t, Favorites, byTags, viewer.value, favorited.value, id);
    }
    if inCart.Some? && viewer.Some? {
      FlagFilterMatchesSerializer(t, ShoppingCart, byFavorite, viewer.value, inCart.value, id);
    }
  }

  /** `IngredientFilter.name`: an absent or empty query keeps every ingredient; otherwise
      the ingredients whose name starts with the query, ignoring case. */
  function FilterNamePrefix(t: Tables, qs: seq<IngredientId>, name: Option<string>): (r: seq<IngredientId>)
    ensures !Filled(name) ==> r == qs
    ensures Filled(name) ==>
              forall i | 0 <= i < |r| :: r[i] in t.ingredients && StartsWithIgnoreCase(t.ingredients[r[i]].name, name.value)
    ensures multiset(r) <= multiset(qs)
  {
    if !Filled(name) then qs
    else Filter(qs, (id: IngredientId) => id in t.ingredients && StartsWithIgnoreCase(t.ingredients[id].name, name.value))
  }

  /** Every ingredient of the query set whose name starts with the query survives it. */
  lemma NamePrefixKeepsMatches(t: Tables, qs: seq<IngredientId>, name: string, id: IngredientId)
    requires id in qs && id in t.ingredients && StartsWithIgnoreCase(t.ingredients[id].name, name)
    ensures id in FilterNamePrefix(t, qs, Some(name))
  {
    if name != "" {
      FilterMembers(qs, (x: IngredientId) => x in t.ingredients && StartsWithIgnoreCase(t.ingredients[x].name, name), id);
    }
  }
}
