/** The request side of the server (`get_recipe` and `recipe_by_ingredients`):
    normalising an ingredient query, matching it against the ingredient rows,
    and the dispatch between lookup by id, by ingredients and at random. */
module Server {
  import opened Wrappers
  import Text
  import opened Recipes
  import opened Database

  // ---------------------------------------------------------------------------
  // Ingredient query normalisation

  /** What normalisation makes of one character: letters are kept lower-cased,
      commas are kept, everything else is dropped. */
  function NormalizeChar(c: char): string {
    if Text.IsAsciiLetter(c) || c == ',' then [Text.LowerChar(c)] else []
  }

  /** The normalised query: the letters and commas of `s`, in order, lower-cased. */
  function Normalize(s: string): (r: string)
    ensures |r| <= |s|
    ensures forall c :: c in r ==> 'a' <= c <= 'z' || c == ','
  {
    if |s| == 0 then ""
    else
      var init := s[..|s| - 1];
      assert forall c :: c in init ==> c in s;
      Normalize(init) + NormalizeChar(s[|s| - 1])
  }

  /** The normalisation loop: walks the characters and pushes the kept ones. */
  method NormalizeIngredients(ingredients: string) returns (r: string)
    ensures r == Normalize(ingredients)
  {
    r := "";
    for i := 0 to |ingredients|
      invariant r == Normalize(ingredients[..i])
    {
      var c := ingredients[i];
      assert ingredients[..i + 1][..i] == ingredients[..i];
      if Text.IsAsciiLetter(c) || c == ',' {
        r := r + [Text.LowerChar(c)];
      }
    }
    assert ingredients[..|ingredients|] == ingredients;
  }

  /** Normalisation works character by character: it distributes over concatenation. */
  lemma {:induction false} NormalizeConcat(a: string, b: string)
    ensures Normalize(a + b) == Normalize(a) + Normalize(b)
  {
    if |b| > 0 {
      var bInit := b[..|b| - 1];
      NormalizeConcat(a, bInit);
      assert (a + b)[..|a + b| - 1] == a + bInit;
      assert b == bInit + [b[|b| - 1]];
    } else {
      assert a + b == a;
    }
  }

  /** Normalisation keeps exactly the letters (lower-cased) and the commas:
      a single character normalises to itself lower-cased or to nothing. */
  lemma NormalizeOneChar(c: char)
    ensures Text.IsAsciiLetter(c) || c == ',' ==> Normalize([c]) == [Text.LowerChar(c)]
    ensures !(Text.IsAsciiLetter(c) || c == ',') ==> Normalize([c]) == ""
  {
  }

  /** Normalising a normalised query changes nothing. */
  lemma {:induction false} NormalizeIdempotent(s: string)
    ensures Normalize(Normalize(s)) == Normalize(s)
  {
    if |s| > 0 {
      var init := s[..|s| - 1];
      NormalizeIdempotent(init);
      var tail := NormalizeChar(s[|s| - 1]);
      NormalizeConcat(Normalize(init), tail);
      if |tail| == 1 {
        NormalizeOneChar(tail[0]);
        assert tail == [tail[0]];
      }
    }
  }

  /** Quantities, spaces and punctuation vanish and case is folded. */
  lemma NormalizeExample()
    ensures Normalize("2 Cups Flour") == "cupsflour"
  {
    var s := "2 Cups Flour";
    var want := "cupsflour";
    var kept := [0, 0, 0, 1, 2, 3, 4, 4, 5, 6, 7, 8, 9];
    for i := 1 to |s| + 1
      invariant Normalize(s[..i - 1]) == want[..kept[i - 1]]
    {
      assert s[..i][..i - 1] == s[..i - 1];
      assert Normalize(s[..i]) == Normalize(s[..i - 1]) + NormalizeChar(s[i - 1]);
    }
    assert s[..|s|] == s;
  }

  /** The tokens of a normalised query are made of lower-case letters only, so
      none of them holds a `LIKE` wildcard (`%` or `_`). */
  lemma TokensAreLetters(query: string)
    ensures forall t, c :: t in Text.Split(Normalize(query), ',') && c in t ==> 'a' <= c <= 'z'
  {
  }

  /** A query with no letters at all (empty, digits only, or only commas) yields
      the empty token, which matches every recipe that has an ingredient row. */
  lemma LetterlessQueryMatchesEveryRecipe(rows: seq<(int, string)>, query: string)
    requires forall c :: c in Normalize(query) ==> c == ','
    ensures Candidates(rows, Text.Split(Normalize(query), ',')) == set row | row in rows :: row.0
  {
    var s := Normalize(query);
    assert "" in Text.Split(s, ',') by {
      if |s| > 0 { assert s[0] in s; }
    }
    EmptyTokenMatchesEveryRecipe(rows, Text.Split(s, ','));
  }

  // ---------------------------------------------------------------------------
  // Matching against the database

  /** `recipe_by_ingredients`: refills the scratch table with the query's
      comma-separated tokens, then takes one matching recipe id at random. */
  method RecipeByIngredients(db: Db, ingredients: string) returns (r: Option<int>)
    modifies db`qingredients
    ensures db.qingredients == Text.Split(ingredients, ',')
    ensures r.None? <==> Candidates(db.ingredients, db.qingredients) == {}
    ensures r.Some? ==> r.value in Candidates(db.ingredients, db.qingredients)
  {
    // DROP TABLE IF EXISTS qingredients; CREATE TEMPORARY TABLE qingredients
    db.qingredients := [];
    var tokens := Text.Split(ingredients, ',');
    for k := 0 to |tokens|
      invariant db.qingredients == tokens[..k]
    {
      assert tokens[..k + 1] == tokens[..k] + [tokens[k]];
      db.qingredients := db.qingredients + [tokens[k]];
    }
    assert tokens[..|tokens|] == tokens;
    // SELECT DISTINCT recipe_id ... ORDER BY RANDOM() LIMIT 1
    var candidates := Candidates(db.ingredients, db.qingredients);
    var selected: seq<int> := [];
    if candidates != {} {
      var id := PickAtRandom(candidates);
      selected := [id];
    }
    if |selected| == 1 {
      r := Some(selected[0]);
    } else {
      r := None;
    }
  }

  /** The ids the ingredient path may redirect to for a raw query. */
  function MatchingIds(t: Tables, query: string): set<int> {
    Candidates(t.ingredients, Text.Split(Normalize(query), ','))
  }

  /** The ingredient-fetch loop of the id path: collects, in table order, the
      ingredient strings of the rows that belong to the recipe. */
  method FetchIngredients(db: Db, id: int) returns (list: seq<string>)
    ensures list == IngredientsOf(db.ingredients, id)
  {
    list := [];
    var rows := db.ingredients;
    for k := 0 to |rows|
      invariant list == IngredientsOf(rows[..k], id)
    {
      assert rows[..k + 1][..k] == rows[..k];
      if rows[k].0 == id {
        list := list + [rows[k].1];
      }
    }
    assert rows[..|rows|] == rows;
  }

  // ---------------------------------------------------------------------------
  // Dispatch

  /** The query parameters `?id=...&ingredients=...`. */
  datatype Params = Params(id: Option<string>, ingredients: Option<string>)

  /** What a request ends in: the rendered page for a recipe with its
      ingredient strings joined by ", ", a redirect to `/?id=N`, a 404, or a
      panic of the handler. */
  datatype Outcome = Html(recipe: Recipe, ingredients: string) | Redirect(id: int) | NotFound | Panic

  /** The `Location` of a redirect. */
  function Location(id: int): string {
    "/?id=" + Text.IntToDecimal(id)
  }

  /** The id path: the recipe row with that id and its ingredient rows joined
      with ", ", or a 404 when no row has that id. */
  function ById(t: Tables, key: string): (o: Outcome)
    ensures o.Html? || o == NotFound
    ensures o.Html? <==> Get(t, key).Ok?
    ensures o.Html? && WellFormed(t) ==>
      o.recipe == Get(t, key).value.0 && o.ingredients == Text.Join(Get(t, key).value.1, ", ")
  {
    match ColumnKey(key)
    case Some(k) =>
      if k in t.recipes then
        var recipe := t.recipes[k];
        Html(recipe, Text.Join(IngredientsOf(t.ingredients, recipe.id), ", "))
      else NotFound
    case None => NotFound
  }

  /** The random path: a redirect to some stored recipe, or a panic when the
      `recipes` table is empty. */
  predicate RandomOutcome(t: Tables, o: Outcome) {
    if t.recipes == map[] then o == Panic else o.Redirect? && o.id in t.recipes
  }

  /** The store call of `get_recipe` that fails, when one does: the fetch of
      the recipe row, the ingredient stream of the id path, the transaction
      of `recipe_by_ingredients`, or the random selection. A failure at a call
      the request never reaches has no effect. */
  datatype Fault = RecipeFetch | IngredientStream | Matcher | RandomSelection

  /** Every outcome the handler may produce for `params` on tables `t` when
      the store fails at `fault` (or never, for `None`): the id parameter wins,
      and any failed recipe fetch is a 404 while a failed ingredient stream
      panics; otherwise a failed matcher panics and a matching ingredient
      query redirects to one of its candidates; otherwise a random recipe is
      chosen, and a failed selection panics. */
  predicate Permitted(t: Tables, params: Params, fault: Option<Fault>, o: Outcome)
    ensures Permitted(t, params, fault, o) && o.Html? ==>
              params.id.Some? && Get(t, params.id.value).Ok? && fault != Some(RecipeFetch) && fault != Some(IngredientStream)
    ensures Permitted(t, params, fault, o) && o == Panic ==> fault.Some? || t.recipes == map[]
    ensures Permitted(t, params, fault, o) && o == NotFound ==> params.id.Some?
  {
    match params.id
    case Some(key) =>
      if fault == Some(RecipeFetch) then o == NotFound
      else if fault == Some(IngredientStream) && ById(t, key).Html? then o == Panic
      else o == ById(t, key)
    case None =>
      if params.ingredients.Some? && fault == Some(Matcher) then o == Panic
      else if params.ingredients.Some? && MatchingIds(t, params.ingredients.value) != {} then
        o.Redirect? && o.id in MatchingIds(t, params.ingredients.value)
      else if fault == Some(RandomSelection) then o == Panic
      else RandomOutcome(t, o)
  }

  /** The placeholder `current_recipe` the server starts with. */
  function Placeholder(): (r: Recipe)
    ensures r.id == 0
  {
    Recipe(0, "thing", "thingies", "notreal")
  }

  /** The shared application state: the database and the last recipe served by id. */
  class AppState {
    const db: Db
    var currentRecipe: Recipe

    constructor (db: Db)
      ensures this.db == db && currentRecipe == Placeholder()
    {
      this.db := db;
      currentRecipe := Placeholder();
    }

    /** `get_recipe`, as one atomic step; `fault` says which store call, if
        any, fails. */
    method GetRecipe(params: Params, fault: Option<Fault>) returns (o: Outcome)
      modifies this, db`qingredients
      ensures db.recipes == old(db.recipes) && db.ingredients == old(db.ingredients)
      ensures Permitted(db.View(), params, fault, o)
      ensures currentRecipe == if o.Html? then o.recipe else old(currentRecipe)
    {
      if params.id.Some? {
        // SELECT * FROM recipes WHERE id = $1
        if fault == Some(RecipeFetch) {
          return NotFound;
        }
        var key := ColumnKey(params.id.value);
        if key.Some? && key.value in db.recipes {
          var recipe := db.recipes[key.value];
          if fault == Some(IngredientStream) {
            return Panic;
          }
          var list := FetchIngredients(db, recipe.id);
          var joined := Text.Join(list, ", ");
          currentRecipe := recipe;
          return Html(recipe, joined);
        }
        return NotFound;
      }
      if params.ingredients.Some? {
        var query := NormalizeIngredients(params.ingredients.value);
        if fault == Some(Matcher) {
          return Panic;
        }
        var found := RecipeByIngredients(db, query);
        if found.Some? {
          return Redirect(found.value);
        }
      }
      // SELECT id FROM recipes ORDER BY RANDOM() LIMIT 1
      if fault == Some(RandomSelection) || db.recipes == map[] {
        return Panic;
      }
      var id := PickAtRandom(db.recipes.Keys);
      return Redirect(id);
    }
  }

  // ---------------------------------------------------------------------------
  // Properties of the dispatch

  /** With an id parameter the ingredient parameter is irrelevant; the outcome
      is a page or a 404, or a panic when the ingredient stream fails. */
  lemma IdTakesPrecedence(t: Tables, key: string, q1: Option<string>, q2: Option<string>,
                          fault: Option<Fault>, o: Outcome)
    ensures Permitted(t, Params(Some(key), q1), fault, o) <==> Permitted(t, Params(Some(key), q2), fault, o)
    ensures Permitted(t, Params(Some(key), q1), fault, o) ==> o.Html? || o == NotFound || o == Panic
    ensures Permitted(t, Params(Some(key), q1), fault, o) && o == Panic ==> fault == Some(IngredientStream)
  {
  }

  /** A failed id lookup is a 404, whatever else fails: it never falls through
      to the other paths. */
  lemma FailedIdIsNotFound(t: Tables, key: string, q: Option<string>, fault: Option<Fault>, o: Outcome)
    requires Get(t, key).Err?
    ensures Permitted(t, Params(Some(key), q), fault, o) <==> o == NotFound
  {
  }

  /** A failed recipe fetch is a 404 even for a stored id, and a failed
      ingredient stream after a successful fetch is a panic; neither renders. */
  lemma IdPathFaults(t: Tables, key: string, q: Option<string>, o: Outcome)
    ensures Permitted(t, Params(Some(key), q), Some(RecipeFetch), o) <==> o == NotFound
    ensures Get(t, key).Ok? ==> (Permitted(t, Params(Some(key), q), Some(IngredientStream), o) <==> o == Panic)
  {
  }

  /** A failing matcher transaction makes an ingredient query panic. */
  lemma MatcherFaultPanics(t: Tables, query: string, o: Outcome)
    ensures Permitted(t, Params(None, Some(query)), Some(Matcher), o) <==> o == Panic
  {
  }

  /** A store failure at a call the request does not reach changes nothing. */
  lemma UnreachedFaultIsHarmless(t: Tables, params: Params, o: Outcome)
    ensures params.id.Some? ==>
      forall f :: f == Matcher || f == RandomSelection ==>
        (Permitted(t, params, Some(f), o) <==> Permitted(t, params, None, o))
    ensures params.id.None? ==>
      forall f :: f == RecipeFetch || f == IngredientStream ==>
        (Permitted(t, params, Some(f), o) <==> Permitted(t, params, None, o))
    ensures params.id.None? && params.ingredients.None? ==>
      (Permitted(t, params, Some(Matcher), o) <==> Permitted(t, params, None, o))
  {
  }

  /** An ingredient query that matches nothing behaves as if it were absent,
      unless the matcher itself fails. */
  lemma UnmatchedQueryFallsThrough(t: Tables, query: string, fault: Option<Fault>, o: Outcome)
    requires MatchingIds(t, query) == {} && fault != Some(Matcher)
    ensures Permitted(t, Params(None, Some(query)), fault, o) <==> Permitted(t, Params(None, None), fault, o)
  {
  }

  /** Without id and without a match, the handler redirects to a stored recipe,
      or panics exactly when there is none or the selection fails. */
  lemma RandomPathOutcome(t: Tables, q: Option<string>, fault: Option<Fault>, o: Outcome)
    requires q.None? || (MatchingIds(t, q.value) == {} && fault != Some(Matcher))
    requires Permitted(t, Params(None, q), fault, o)
    ensures o == Panic <==> t.recipes == map[] || fault == Some(RandomSelection)
    ensures o != Panic ==> o.Redirect? && o.id in t.recipes
  {
  }

  /** In a well-formed store every redirect leads to a page: following
      `Location(id)` makes the id path find and render recipe `id`. */
  lemma RedirectIsServed(t: Tables, params: Params, fault: Option<Fault>, id: int)
    requires WellFormed(t) && Permitted(t, params, fault, Redirect(id))
    ensures Location(id)[|"/?id="|..] == Text.IntToDecimal(id)
    ensures ById(t, Text.IntToDecimal(id)).Html?
    ensures ById(t, Text.IntToDecimal(id)).recipe.id == id
  {
    if params.id.None? && params.ingredients.Some? {
      CandidatesAreRecipes(t, Text.Split(Normalize(params.ingredients.value), ','));
    }
    assert id in t.recipes;
    Text.ParseIntOfDecimal(id);
  }
}
