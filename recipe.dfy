/** The recipe records and the two relational tables they are stored in:
    `Recipe` is a row of `recipes`, `JsonRecipe` the import/JSON form that
    carries its ingredient strings as a set, and `Get` fetches one recipe with
    its ingredient strings. */
module Recipes {
  import opened Wrappers
  import Text

  /** A row of the `recipes` table. */
  datatype Recipe = Recipe(id: int, title: string, category: string, preparation: string)

  /** The JSON shape: ingredient strings are a set (duplicates collapse, no order). */
  datatype JsonRecipe = JsonRecipe(
    id: int,
    title: string,
    category: string,
    ingredientAmount: set<string>,
    preparation: string)

  /** The two persistent tables: `recipes` keyed by id, and the rows
      `(recipe_id, ingredient_amount)` of `ingredients` in table order. */
  datatype Tables = Tables(recipes: map<int, Recipe>, ingredients: seq<(int, string)>)

  /** The store's invariant: a recipe is filed under its own id, and every
      ingredient row refers to an existing recipe. */
  predicate WellFormed(t: Tables) {
    && (forall id :: id in t.recipes ==> t.recipes[id].id == id)
    && (forall row :: row in t.ingredients ==> row.0 in t.recipes)
  }

  datatype DbError = RowNotFound

  /** `JsonRecipe::new`: copies the four columns and collects the ingredient
      list into a set. */
  function New(recipe: Recipe, ingredients: seq<string>): (j: JsonRecipe)
    ensures j.id == recipe.id && j.title == recipe.title
    ensures j.category == recipe.category && j.preparation == recipe.preparation
    ensures forall i :: i in j.ingredientAmount <==> i in ingredients
    ensures |j.ingredientAmount| <= |ingredients|
  {
    var collected := set i | i in ingredients;
    SetOfSeqSize(ingredients);
    JsonRecipe(recipe.id, recipe.title, recipe.category, collected, recipe.preparation)
  }

  /** A sequence has at least as many elements as the set of its elements. */
  lemma {:induction false} SetOfSeqSize<T>(s: seq<T>)
    ensures |set x | x in s| <= |s|
  {
    if |s| > 0 {
      SetOfSeqSize(s[1..]);
      assert (set x | x in s) == {s[0]} + (set x | x in s[1..]);
    }
  }

  /** `JsonRecipe::to_recipe`: the recipe row and the ingredient strings (the
      source yields them from an iterator over the set, in no fixed order). */
  function ToRecipe(j: JsonRecipe): (r: (Recipe, set<string>))
    ensures r.0.id == j.id && r.0.title == j.title && r.0.category == j.category
    ensures r.0.preparation == j.preparation
    ensures forall i :: i in r.1 <==> i in j.ingredientAmount
  {
    (Recipe(j.id, j.title, j.category, j.preparation), j.ingredientAmount)
  }

  /** Round trip one way: converting a recipe and its list and back gives the
      recipe and exactly the distinct elements of the list. */
  lemma NewThenToRecipe(r: Recipe, ingredients: seq<string>)
    ensures ToRecipe(New(r, ingredients)) == (r, set i | i in ingredients)
  {
  }

  /** Round trip the other way: any enumeration of the ingredient set, fed back
      to `New`, rebuilds the same JSON record. */
  lemma ToRecipeThenNew(j: JsonRecipe, order: seq<string>)
    requires forall i :: i in order <==> i in j.ingredientAmount
    ensures New(ToRecipe(j).0, order) == j
  {
  }

  /** Order and duplicates in the ingredient list do not matter to `New`. */
  lemma NewIgnoresOrderAndDuplicates(r: Recipe, a: seq<string>, b: seq<string>)
    requires forall i :: i in a <==> i in b
    ensures New(r, a) == New(r, b)
  {
  }

  /** How SQLite compares the text parameter `$1` with the integer `id` and
      `recipe_id` columns: a text that is a decimal integer literal is
      converted and compared as that number; any other text equals no id. */
  function ColumnKey(param: string): (r: Option<int>)
    ensures r.Some? ==> param != [] && forall ch :: ch in param ==> Text.IsDigit(ch) || ch == '-' || ch == '+'
    ensures param != [] && Text.AllDigits(param) ==> r == Some(Text.DigitsValue(param))
  {
    assert param != [] ==> param[0] in param;
    Text.ParseInt(param)
  }

  /** `SELECT ingredient_amount FROM ingredients WHERE recipe_id = id`, in table order. */
  function IngredientsOf(rows: seq<(int, string)>, id: int): (r: seq<string>)
    ensures |r| <= |rows|
    ensures forall x :: multiset(r)[x] == multiset(rows)[(id, x)]
  {
    if |rows| == 0 then []
    else
      var init := rows[..|rows| - 1];
      var last := rows[|rows| - 1];
      assert rows == init + [last];
      IngredientsOf(init, id) + (if last.0 == id then [last.1] else [])
  }

  /** `recipe::get`: the recipe row whose id matches the parameter, and the
      ingredient strings of the rows whose `recipe_id` matches it. */
  function Get(t: Tables, recipeId: string): (r: Result<(Recipe, seq<string>), DbError>)
    ensures r.Ok? <==> ColumnKey(recipeId).Some? && ColumnKey(recipeId).value in t.recipes
    ensures r.Err? ==> r.error == RowNotFound
    ensures r.Ok? ==>
      var key := ColumnKey(recipeId).value;
      && r.value.0 == t.recipes[key]
      && forall x :: multiset(r.value.1)[x] == multiset(t.ingredients)[(key, x)]
  {
    match ColumnKey(recipeId)
    case Some(key) =>
      if key in t.recipes then Ok((t.recipes[key], IngredientsOf(t.ingredients, key)))
      else Err(RowNotFound)
    case None => Err(RowNotFound)
  }

  /** Fetching a stored recipe by its decimal id returns that very recipe. */
  lemma GetByDecimalId(t: Tables, id: int)
    requires WellFormed(t) && id in t.recipes
    ensures Get(t, Text.IntToDecimal(id)).Ok?
    ensures Get(t, Text.IntToDecimal(id)).value.0.id == id
  {
    Text.ParseIntOfDecimal(id);
  }
}
