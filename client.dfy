/** The browser client's recipe helpers: the API URL it requests, the text
    of an ingredient set, and the preparation and annotation lines it shows. */
module Client {
  import opened Wrappers
  import Text

  /** The recipe as the client receives it; ingredients and preparation may be absent. */
  datatype RecipeStruct = RecipeStruct(
    id: int,
    title: string,
    category: string,
    ingredientAmount: Option<set<string>>,
    preparation: Option<string>)

  const RandomRecipeUrl: string := "http://localhost:3000/api/v1/random-recipe"
  const RecipeUrlPrefix: string := "http://localhost:3000/api/v1/recipe/"

  /** The URL `RecipeStruct::get_recipe` requests: a random recipe without a
      key, the recipe named by the key otherwise. */
  function RequestUrl(key: Option<string>): (url: string)
    ensures key.None? ==> url == RandomRecipeUrl
    ensures key.Some? ==> Text.StartsWith(url, RecipeUrlPrefix) && url[|RecipeUrlPrefix|..] == key.value
  {
    match key
    case None => RandomRecipeUrl
    case Some(k) => RecipeUrlPrefix + k
  }

  /** Different requests go to different URLs: the key can be read back from
      the URL, and no keyed URL is the random-recipe URL. */
  lemma RequestUrlInjective(a: Option<string>, b: Option<string>)
    requires RequestUrl(a) == RequestUrl(b)
    ensures a == b
  {
    forall k ensures RequestUrl(Some(k)) != RandomRecipeUrl {
      assert RequestUrl(Some(k))[30] == 'e' && RandomRecipeUrl[30] == 'a';
    }
  }

  /** `order` lists each element of `s` exactly once: the iteration order of a `HashSet`. */
  predicate Enumerates(order: seq<string>, s: set<string>) {
    multiset(order) == multiset(s)
  }

  /** `format_ingredients`: the set's elements, in its iteration order, joined with ", ". */
  function FormatIngredients(ingredients: set<string>, order: seq<string>): (r: string)
    requires Enumerates(order, ingredients)
    ensures ingredients == {} ==> r == ""
    ensures forall x :: ingredients == {x} ==> r == x
    ensures forall x :: x in ingredients ==> exists p: nat :: Text.OccursAt(r, x, p)
  {
    assert |order| == |multiset(order)| == |ingredients|;
    forall x | x in ingredients ensures exists p: nat :: Text.OccursAt(Text.Join(order, ", "), x, p) {
      assert x in multiset(order);
      var k :| 0 <= k < |order| && order[k] == x;
      Text.JoinContainsPart(order, ", ", k);
    }
    if |order| == 1 then
      assert order[0] in multiset(order);
      Text.Join(order, ", ")
    else
      Text.Join(order, ", ")
  }

  const NoPreparation: string := "No preparation details available"

  /** The preparation line: the text, or a notice when there is none. */
  function PreparationText(preparation: Option<string>): (r: string)
    ensures preparation.Some? ==> r == preparation.value
    ensures preparation.None? ==> r == NoPreparation
  {
    preparation.GetOr(NoPreparation)
  }

  /** The annotation `[id: N]`, or `[id: N; ingredients: ...]` when the recipe
      carries ingredients. */
  function Annotation(recipe: RecipeStruct, order: seq<string>): (r: string)
    requires recipe.ingredientAmount.Some? ==> Enumerates(order, recipe.ingredientAmount.value)
    ensures Text.StartsWith(r, "[id: ") && r[|r| - 1] == ']'
    ensures 5 + |Text.IntToDecimal(recipe.id)| < |r|
    ensures Text.ParseInt(r[5..5 + |Text.IntToDecimal(recipe.id)|]) == Some(recipe.id)
    ensures recipe.ingredientAmount.None? ==> r[5..|r| - 1] == Text.IntToDecimal(recipe.id)
    ensures recipe.ingredientAmount.Some? ==>
      var id := Text.IntToDecimal(recipe.id);
      && Text.OccursAt(r, "; ingredients: ", 5 + |id|)
      && r[5 + |id| + 15..|r| - 1] == FormatIngredients(recipe.ingredientAmount.value, order)
  {
    var id := Text.IntToDecimal(recipe.id);
    var ingredients :=
      match recipe.ingredientAmount
      case Some(s) => "; ingredients: " + FormatIngredients(s, order)
      case None => "";
    var r := "[id: " + id + ingredients + "]";
    assert r[..5] == "[id: " && r[5..|r| - 1] == id + ingredients;
    assert r[5 + |id|..|r| - 1] == ingredients;
    assert r[5..5 + |id|] == id;
    Text.ParseIntOfDecimal(recipe.id);
    assert recipe.ingredientAmount.None? ==> id + ingredients == id;
    r
  }
}
