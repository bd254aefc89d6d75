/** The second schema module of the `foodgram` application: the `validate_positive`
    validator guarding cooking times and amounts, and its uniqueness declarations, which
    make an ingredient's name unique on its own rather than together with its unit. */
module LegacySchema {
  import opened Common
  import opened Models
  import opened ApiViews
  import opened LegacyViews

  /** `validate_positive`: a value is accepted exactly when it is greater than zero. */
  function ValidatePositive(value: int): (r: Option<int>)
    ensures r.Some? <==> value > 0
    ensures r.Some? ==> r.value == value
  {
    if value <= 0 then None else Some(value)
  }

  /** The validator on `cooking_time` and on `amount` admits the same tables as the
      minimum-value constraints of the main schema. */
  lemma GuardsMatchMinimum(t: Tables)
    ensures (forall id | id in t.recipes :: ValidatePositive(t.recipes[id].cookingTime).Some?)
            <==> CookingTimesValid(t.recipes)
    ensures (forall i | 0 <= i < |t.recipeIngredients| :: ValidatePositive(t.recipeIngredients[i].amount).Some?)
            <==> AmountsValid(t.recipeIngredients)
  {
  }

  /** `Ingredient.name` with `unique=True`: no two ingredients share a name. */
  predicate IngredientNamesUnique(m: map<IngredientId, Ingredient>)
  {
    forall a, b | a in m && b in m && a != b :: m[a].name != m[b].name
  }

  /** A unique name makes the (name, unit) pair unique. */
  lemma NamesUniqueImpliesPairsUnique(m: map<IngredientId, Ingredient>)
    requires IngredientNamesUnique(m)
    ensures IngredientPairsUnique(m)
  {
    forall a, b | a in m && b in m && a != b ensures m[a] != m[b] {
      assert m[a].name != m[b].name;
    }
  }

  /** The converse fails: the main schema admits salt in grams beside salt in teaspoons. */
  lemma PairsUniqueAllowSharedName()
    ensures var m := map[0 := Ingredient("salt", "g"), 1 := Ingredient("salt", "tsp")];
            IngredientPairsUnique(m) && !IngredientNamesUnique(m)
  {
    var m := map[0 := Ingredient("salt", "g"), 1 := Ingredient("salt", "tsp")];
    assert m[0].name == m[1].name;
  }

  /** Every line carries the name and unit of some catalogued ingredient. */
  predicate FromCatalogue(m: map<IngredientId, Ingredient>, lines: seq<Line>)
  {
    forall l | l in lines :: InCatalogue(m, l)
  }

  /** Some ingredient has the line's name and unit. */
  predicate InCatalogue(m: map<IngredientId, Ingredient>, l: Line)
  {
    exists id | id in m :: m[id].name == l.name && m[id].unit == l.unit
  }

  lemma {:induction false} RecipeLinesFromCatalogue(t: Tables, recipe: RecipeId, rows: seq<RecipeIngredient>)
    requires forall i | 0 <= i < |rows| :: rows[i].ingredient in t.ingredients
    ensures FromCatalogue(t.ingredients, RecipeLines(t, recipe, rows))
  {
    if |rows| > 0 {
      RecipeLinesFromCatalogue(t, recipe, rows[1..]);
      var head := if rows[0].recipe == recipe then [LineOf(t, rows[0])] else [];
      assert FromCatalogue(t.ingredients, head) by {
        if rows[0].recipe == recipe {
          assert t.ingredients[rows[0].ingredient].name == head[0].name;
        }
      }
      assert RecipeLines(t, recipe, rows) == head + RecipeLines(t, recipe, rows[1..]);
    }
  }

  /** The lines of the shopping-list download all come from the ingredient table. */
  lemma {:induction false} CartLinesFromCatalogue(t: Tables, user: UserId, k: int)
    requires forall i | 0 <= i < |t.recipeIngredients| :: t.recipeIngredients[i].ingredient in t.ingredients
    ensures FromCatalogue(t.ingredients, CartLinesByRecipe(t, user, k))
    decreases k
  {
    if k > 0 {
      CartLinesFromCatalogue(t, user, k - 1);
      RecipeLinesFromCatalogue(t, k - 1, t.recipeIngredients);
      var head := if (user, k - 1) in t.carts then RecipeLines(t, k - 1, t.recipeIngredients) else [];
      CatalogueAppend(t.ingredients, head, CartLinesByRecipe(t, user, k - 1));
    }
  }

  /** Lines from the catalogue stay so when concatenated. */
  lemma CatalogueAppend(m: map<IngredientId, Ingredient>, a: seq<Line>, b: seq<Line>)
    requires FromCatalogue(m, a) && FromCatalogue(m, b)
    ensures FromCatalogue(m, a + b)
  {
  }

  /** Under this schema's unique names the name-keyed aggregation is exact: the amount it
      sums for a name is the total of the one (name, unit) key that name has. */
  lemma NameSumExactForUniqueNames(m: map<IngredientId, Ingredient>, lines: seq<Line>, n: string)
    requires IngredientNamesUnique(m) && FromCatalogue(m, lines)
    requires exists i | 0 <= i < |lines| :: lines[i].name == n
    ensures NameSum(lines, n) == Total(lines, (n, FirstUnit(lines, n)))
  {
    FirstUnitIsFirst(lines, n);
    var j :| 0 <= j < |lines| && lines[j].name == n && lines[j].unit == FirstUnit(lines, n)
             && forall k | 0 <= k < j :: lines[k].name != n;
    forall i | 0 <= i < |lines| && lines[i].name == n ensures lines[i].unit == FirstUnit(lines, n) {
      assert InCatalogue(m, lines[i]) && InCatalogue(m, lines[j]);
      var a :| a in m && m[a].name == lines[i].name && m[a].unit == lines[i].unit;
      var b :| b in m && m[b].name == lines[j].name && m[b].unit == lines[j].unit;
      assert a == b;
    }
    NameSumMatchesKeyTotal(lines, n, FirstUnit(lines, n));
  }

  /** Hence the older download is exact whenever ingredient names are unique. */
  lemma DownloadExactForUniqueNames(t: Tables, user: UserId, n: string)
    requires t.Valid() && IngredientNamesUnique(t.ingredients)
    requires n in NamesInOrder(CartLinesByRecipe(t, user, t.nextRecipeId))
    ensures var lines := CartLinesByRecipe(t, user, t.nextRecipeId);
            NameSum(lines, n) == Total(lines, (n, FirstUnit(lines, n)))
  {
    CartLinesFromCatalogue(t, user, t.nextRecipeId);
    NameSumExactForUniqueNames(t.ingredients, CartLinesByRecipe(t, user, t.nextRecipeId), n);
  }
}
