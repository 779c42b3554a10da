/** The SQLite database the server talks to: the `recipes` and `ingredients`
    tables, the scratch table `qingredients`, and the `LIKE` join that finds
    the recipes whose ingredients mention a query token. */
module Database {
  import Text
  import opened Recipes

  class Db {
    /** `recipes (id, title, category, preparation)`, keyed by id. */
    var recipes: map<int, Recipe>
    /** `ingredients (recipe_id, ingredient_amount)`, in table order. */
    var ingredients: seq<(int, string)>
    /** The temporary table `qingredients (ingredient_amount)`. */
    var qingredients: seq<string>

    /** A freshly migrated database: all tables empty. */
    constructor ()
      ensures recipes == map[] && ingredients == [] && qingredients == []
      ensures Valid()
    {
      recipes, ingredients, qingredients := map[], [], [];
    }

    function View(): Tables
      reads this
    {
      Tables(recipes, ingredients)
    }

    predicate Valid()
      reads this
    {
      WellFormed(View())
    }
  }

  /** `value LIKE '%' || token || '%'` for a token free of the wildcards `%`
      and `_`: the token occurs in the value, ASCII letters compared without
      regard to case (SQLite's default `LIKE`). */
  predicate Like(value: string, token: string)
    ensures Like(value, token) ==> |token| <= |value|
    ensures token == "" ==> Like(value, token)
    ensures Text.LowerAscii(value) == Text.LowerAscii(token) ==> Like(value, token)
  {
    assert token == "" ==> MatchesAt(value, token, 0);
    assert Text.LowerAscii(value) == Text.LowerAscii(token) ==> value[0..|token|] == value && MatchesAt(value, token, 0);
    exists p :: 0 <= p <= |value| - |token| && MatchesAt(value, token, p)
  }

  predicate MatchesAt(value: string, token: string, p: int)
    requires 0 <= p <= |value| - |token|
  {
    Text.LowerAscii(value[p..p + |token|]) == Text.LowerAscii(token)
  }

  /** The ingredient row matches some token of the query. */
  predicate RowMatches(row: (int, string), tokens: seq<string>) {
    exists t :: t in tokens && Like(row.1, t)
  }

  /** `SELECT DISTINCT recipe_id FROM ingredients JOIN qingredients ON
      ingredients.ingredient_amount LIKE '%' || qingredients.ingredient_amount || '%'`,
      before `ORDER BY RANDOM() LIMIT 1` keeps one of them. */
  function Candidates(rows: seq<(int, string)>, tokens: seq<string>): (r: set<int>)
    ensures r <= set row | row in rows :: row.0
    ensures tokens == [] ==> r == {}
  {
    set row | row in rows && RowMatches(row, tokens) :: row.0
  }

  /** `ORDER BY RANDOM() LIMIT 1` over a non-empty result: any one of its values. */
  method PickAtRandom<T>(values: set<T>) returns (v: T)
    requires values != {}
    ensures v in values
  {
    v :| v in values;
  }

  /** A recipe is a candidate exactly when one of its ingredient rows contains
      one of the tokens. */
  lemma CandidateIff(rows: seq<(int, string)>, tokens: seq<string>, id: int)
    ensures id in Candidates(rows, tokens) <==>
            exists k, t :: 0 <= k < |rows| && rows[k].0 == id && t in tokens && Like(rows[k].1, t)
  {
  }

  /** The empty token is contained in every ingredient string. */
  lemma EmptyTokenMatches(value: string)
    ensures Like(value, "")
  {
    assert MatchesAt(value, "", 0);
  }

  /** When the empty token is among the query tokens, every recipe that has at
      least one ingredient row is a candidate. */
  lemma EmptyTokenMatchesEveryRecipe(rows: seq<(int, string)>, tokens: seq<string>)
    requires "" in tokens
    ensures Candidates(rows, tokens) == set row | row in rows :: row.0
  {
    forall row | row in rows ensures RowMatches(row, tokens) {
      EmptyTokenMatches(row.1);
    }
  }

  /** In a well-formed store every candidate is the id of a stored recipe. */
  lemma CandidatesAreRecipes(t: Tables, tokens: seq<string>)
    requires WellFormed(t)
    ensures Candidates(t.ingredients, tokens) <= t.recipes.Keys
  {
  }
}
