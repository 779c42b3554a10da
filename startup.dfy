/** What `serve` does before it starts answering requests: choose the
    database URI, derive the directory to create for it, and import a batch of
    JSON recipes, one transaction per recipe. */
module Startup {
  import opened Wrappers
  import Text
  import opened Recipes
  import Database

  // ---------------------------------------------------------------------------
  // Database URI

  const DefaultDbUri: string := "sqlite://db.db"

  /** `get_db_uri`: the command-line value, else the `DB_URI` environment
      variable (`env`, absent when unset), else the default. */
  function GetDbUri(arg: Option<string>, env: Option<string>): (uri: string)
    ensures arg.Some? ==> uri == arg.value
    ensures arg.None? && env.Some? ==> uri == env.value
    ensures arg.None? && env.None? ==> uri == DefaultDbUri
  {
    match arg
    case Some(a) => a
    case None => match env
      case Some(e) => e
      case None => DefaultDbUri
  }

  datatype StartupError = InvalidDbUri(uri: string)

  /** `extract_db_dir`: for an `sqlite://...db` URI, the path after the scheme
      up to (not including) its last '/', or "" when it has none. */
  function ExtractDbDir(dbUri: string): (r: Result<string, StartupError>)
    ensures r.Err? <==> !(Text.StartsWith(dbUri, "sqlite://") && Text.EndsWith(dbUri, ".db"))
    ensures r.Err? ==> r.error == InvalidDbUri(dbUri)
    ensures r.Ok? ==>
      var path := dbUri[|"sqlite://"|..];
      || ('/' !in path && r.value == "")
      || (exists e :: 0 <= e < |path| && path[e] == '/' && '/' !in path[e + 1..] && r.value == path[..e])
  {
    if Text.StartsWith(dbUri, "sqlite://") && Text.EndsWith(dbUri, ".db") then
      // `db_uri.find(':').unwrap() + 3`: the first ':' is the scheme's.
      assert dbUri[..6] == dbUri[..9][..6] == "sqlite";
      Text.FindAt(dbUri, ':', 6);
      var start := Text.Find(dbUri, ':').value + 3;
      var path := dbUri[start..];
      match Text.RFind(path, '/')
      case Some(end) => Ok(path[..end])
      case None => Ok("")
    else
      Err(InvalidDbUri(dbUri))
  }

  /** The default URI names a database in the working directory. */
  lemma DefaultDbDir()
    ensures ExtractDbDir(GetDbUri(None, None)) == Ok("")
  {
    var uri := GetDbUri(None, None);
    assert uri[..9] == "sqlite://" && uri[|uri| - 3..] == ".db";
    assert uri[9..] == "db.db";
    assert '/' !in uri[9..];
  }

  // ---------------------------------------------------------------------------
  // Import

  /** Which inserts the database refuses, beyond a duplicate primary key:
      a recipe row, or an ingredient row `(recipe_id, ingredient_amount)`. */
  datatype Constraints = Constraints(
    recipeRejected: Recipe -> bool,
    ingredientRejected: (int, string) -> bool)

  /** Whether the transaction for `jr` commits on a `recipes` table holding
      `recipes`: the recipe insert and every ingredient insert succeed. */
  predicate Commits(recipes: map<int, Recipe>, jr: JsonRecipe, c: Constraints) {
    var (r, amounts) := ToRecipe(jr);
    && r.id !in recipes
    && !c.recipeRejected(r)
    && forall i :: i in amounts ==> !c.ingredientRejected(r.id, i)
  }

  /** The ingredient rows a committed recipe adds. */
  function RowsOf(jr: JsonRecipe): set<(int, string)> {
    set i | i in jr.ingredientAmount :: (jr.id, i)
  }

  /** The `recipes` table after importing `batch` in order. */
  function ImportedRecipes(recipes: map<int, Recipe>, batch: seq<JsonRecipe>, c: Constraints): map<int, Recipe>
  {
    if |batch| == 0 then recipes
    else
      var before := ImportedRecipes(recipes, batch[..|batch| - 1], c);
      var jr := batch[|batch| - 1];
      if Commits(before, jr, c) then before[jr.id := ToRecipe(jr).0] else before
  }

  /** The ingredient rows that importing `batch` in order adds. */
  function ImportedRows(recipes: map<int, Recipe>, batch: seq<JsonRecipe>, c: Constraints): set<(int, string)>
  {
    if |batch| == 0 then {}
    else
      var prefix := batch[..|batch| - 1];
      var jr := batch[|batch| - 1];
      ImportedRows(recipes, prefix, c) +
        (if Commits(ImportedRecipes(recipes, prefix, c), jr, c) then RowsOf(jr) else {})
  }

  /** The import loop of `serve`: each recipe in its own transaction; a failed
      insert rolls back that recipe and moves on to the next one. The order in
      which a recipe's ingredient rows are inserted is the set's iteration
      order, here an arbitrary one. */
  method ImportRecipes(db: Database.Db, batch: seq<JsonRecipe>, c: Constraints)
    modifies db`recipes, db`ingredients
    ensures db.recipes == ImportedRecipes(old(db.recipes), batch, c)
    ensures |db.ingredients| >= |old(db.ingredients)|
    ensures db.ingredients[..|old(db.ingredients)|] == old(db.ingredients)
    ensures forall row :: row in db.ingredients[|old(db.ingredients)|..] <==>
                          row in ImportedRows(old(db.recipes), batch, c)
    ensures Distinct(db.ingredients[|old(db.ingredients)|..])
    ensures |db.ingredients| == |old(db.ingredients)| + |ImportedRows(old(db.recipes), batch, c)|
    ensures old(db.Valid()) ==> db.Valid()
  {
    ghost var recipes0, rows0 := db.recipes, db.ingredients;
    label NextRecipe:
    for n := 0 to |batch|
      invariant db.recipes == ImportedRecipes(recipes0, batch[..n], c)
      invariant |db.ingredients| >= |rows0| && db.ingredients[..|rows0|] == rows0
      invariant forall row :: row in db.ingredients[|rows0|..] <==>
                              row in ImportedRows(recipes0, batch[..n], c)
      invariant Distinct(db.ingredients[|rows0|..])
    {
      assert batch[..n + 1][..n] == batch[..n];
      // BEGIN: the transaction works on its own copy of the two tables.
      var txRecipes, txRows := db.recipes, db.ingredients;
      var (r, amounts) := ToRecipe(batch[n]);
      if r.id in txRecipes || c.recipeRejected(r) {
        continue NextRecipe;  // ROLLBACK
      }
      txRecipes := txRecipes[r.id := r];
      var pending := amounts;
      while pending != {}
        invariant pending <= amounts
        invariant |txRows| >= |db.ingredients| && txRows[..|db.ingredients|] == db.ingredients
        invariant forall row :: row in txRows[|db.ingredients|..] <==> row.0 == r.id && row.1 in amounts - pending
        invariant forall i :: i in amounts - pending ==> !c.ingredientRejected(r.id, i)
        invariant Distinct(txRows[|db.ingredients|..])
        modifies {}
        decreases pending
      {
        var i := Database.PickAtRandom(pending);
        if c.ingredientRejected(r.id, i) {
          continue NextRecipe;  // ROLLBACK
        }
        assert (txRows + [(r.id, i)])[|db.ingredients|..] == txRows[|db.ingredients|..] + [(r.id, i)];
        txRows := txRows + [(r.id, i)];
        pending := pending - {i};
      }
      assert Commits(db.recipes, batch[n], c);
      assert forall row :: row in txRows[|db.ingredients|..] <==> row in RowsOf(batch[n]);
      assert txRows[|rows0|..] == db.ingredients[|rows0|..] + txRows[|db.ingredients|..];
      // The rows of earlier recipes belong to ids already stored; r.id is not.
      ImportedRowsHaveRecipes(recipes0, batch[..n], c);
      DistinctConcat(db.ingredients[|rows0|..], txRows[|db.ingredients|..]);
      // COMMIT
      db.recipes, db.ingredients := txRecipes, txRows;
    }
    assert batch[..|batch|] == batch;
    DistinctCount(db.ingredients[|rows0|..], ImportedRows(recipes0, batch, c));
    if WellFormed(Tables(recipes0, rows0)) {
      ImportKeepsWellFormed(Tables(recipes0, rows0), batch, c, db.ingredients);
    }
  }

  // ---------------------------------------------------------------------------
  // Properties of the import

  /** No element occurs twice in `s`. */
  predicate Distinct<T(==)>(s: seq<T>) {
    forall i, j :: 0 <= i < j < |s| ==> s[i] != s[j]
  }

  /** Two duplicate-free sequences with no element in common concatenate to a
      duplicate-free sequence. */
  lemma DistinctConcat<T>(a: seq<T>, b: seq<T>)
    requires Distinct(a) && Distinct(b)
    requires forall x :: x in a ==> x !in b
    ensures Distinct(a + b)
  {
    forall i, j | 0 <= i < j < |a + b| ensures (a + b)[i] != (a + b)[j] {
      if i < |a| && j >= |a| {
        assert (a + b)[i] in a && (a + b)[j] in b;
      }
    }
  }

  /** A duplicate-free sequence holding exactly the elements of a set is as
      long as the set is large: each element occurs exactly once. */
  lemma {:induction false} DistinctCount<T>(s: seq<T>, elements: set<T>)
    requires Distinct(s)
    requires forall x :: x in s <==> x in elements
    ensures |s| == |elements|
  {
    if |s| > 0 {
      var init, last := s[..|s| - 1], s[|s| - 1];
      assert s == init + [last];
      forall k | 0 <= k < |init| ensures init[k] != last {
        assert init[k] == s[k];
      }
      DistinctCount(init, elements - {last});
    } else {
      forall x ensures x !in elements {
        assert x !in s;
      }
    }
  }

  /** Importing `a + b` is importing `a`, then importing `b` on the result. */
  lemma {:induction false} ImportConcat(recipes: map<int, Recipe>, a: seq<JsonRecipe>, b: seq<JsonRecipe>, c: Constraints)
    ensures ImportedRecipes(recipes, a + b, c) == ImportedRecipes(ImportedRecipes(recipes, a, c), b, c)
    ensures ImportedRows(recipes, a + b, c) ==
            ImportedRows(recipes, a, c) + ImportedRows(ImportedRecipes(recipes, a, c), b, c)
  {
    if |b| == 0 {
      assert a + b == a;
    } else {
      var bInit := b[..|b| - 1];
      ImportConcat(recipes, a, bInit, c);
      assert (a + b)[..|a + b| - 1] == a + bInit;
      assert (a + b)[|a + b| - 1] == b[|b| - 1];
    }
  }

  /** A recipe whose transaction rolls back leaves no trace: the import ends
      exactly as if it were not in the batch, and the recipes after it are
      imported all the same. */
  lemma RolledBackRecipeIsSkipped(recipes: map<int, Recipe>, before: seq<JsonRecipe>, jr: JsonRecipe,
                                  after: seq<JsonRecipe>, c: Constraints)
    requires !Commits(ImportedRecipes(recipes, before, c), jr, c)
    ensures ImportedRecipes(recipes, before + [jr] + after, c) == ImportedRecipes(recipes, before + after, c)
    ensures ImportedRows(recipes, before + [jr] + after, c) == ImportedRows(recipes, before + after, c)
  {
    ImportConcat(recipes, before, [jr], c);
    ImportConcat(recipes, before + [jr], after, c);
    ImportConcat(recipes, before, after, c);
    assert [jr][..0] == [];
  }

  /** Importing only adds recipes and never replaces one. */
  lemma {:induction false} ImportOnlyAdds(recipes: map<int, Recipe>, batch: seq<JsonRecipe>, c: Constraints)
    ensures recipes.Keys <= ImportedRecipes(recipes, batch, c).Keys
    ensures forall id :: id in recipes ==> ImportedRecipes(recipes, batch, c)[id] == recipes[id]
  {
    if |batch| > 0 {
      ImportOnlyAdds(recipes, batch[..|batch| - 1], c);
    }
  }

  /** Every imported ingredient row belongs to a recipe the import added, and
      every added recipe is filed under its own id. */
  lemma {:induction false} ImportedRowsHaveRecipes(recipes: map<int, Recipe>, batch: seq<JsonRecipe>, c: Constraints)
    ensures forall row :: row in ImportedRows(recipes, batch, c) ==>
              row.0 in ImportedRecipes(recipes, batch, c) && row.0 !in recipes
    ensures forall id :: id in ImportedRecipes(recipes, batch, c) && id !in recipes ==>
              ImportedRecipes(recipes, batch, c)[id].id == id
  {
    if |batch| > 0 {
      var prefix := batch[..|batch| - 1];
      ImportedRowsHaveRecipes(recipes, prefix, c);
      ImportOnlyAdds(recipes, prefix, c);
    }
  }

  /** The import keeps the store well-formed: every ingredient row still refers
      to an existing recipe filed under its own id. */
  lemma ImportKeepsWellFormed(t: Tables, batch: seq<JsonRecipe>, c: Constraints, rows: seq<(int, string)>)
    requires WellFormed(t)
    requires |rows| >= |t.ingredients| && rows[..|t.ingredients|] == t.ingredients
    requires forall row :: row in rows[|t.ingredients|..] <==> row in ImportedRows(t.recipes, batch, c)
    ensures WellFormed(Tables(ImportedRecipes(t.recipes, batch, c), rows))
  {
    ImportedRowsHaveRecipes(t.recipes, batch, c);
    ImportOnlyAdds(t.recipes, batch, c);
    forall row | row in rows
      ensures row.0 in ImportedRecipes(t.recipes, batch, c)
    {
      var k :| 0 <= k < |rows| && rows[k] == row;
      if k < |t.ingredients| {
        assert row in t.ingredients by { assert rows[..|t.ingredients|][k] == row; }
      } else {
        assert row in rows[|t.ingredients|..] by { assert rows[|t.ingredients|..][k - |t.ingredients|] == row; }
      }
    }
  }

  /** Recipe `id` in the import's result is entry `k` of the batch, with
      exactly that entry's ingredient strings as its rows. */
  ghost predicate ImportedFrom(recipes: map<int, Recipe>, batch: seq<JsonRecipe>, c: Constraints, id: int, k: int)
    requires 0 <= k < |batch|
  {
    && batch[k].id == id
    && id in ImportedRecipes(recipes, batch, c)
    && ImportedRecipes(recipes, batch, c)[id] == ToRecipe(batch[k]).0
    && RowsOf(batch[k]) <= ImportedRows(recipes, batch, c)
    && forall s :: (id, s) in ImportedRows(recipes, batch, c) ==> s in batch[k].ingredientAmount
  }

  /** A recipe the import added comes from one entry of the batch, and the
      import added exactly that entry's ingredient rows under its id. */
  lemma {:induction false} CommittedRecipeHasAllRows(recipes: map<int, Recipe>, batch: seq<JsonRecipe>,
                                                     c: Constraints, id: int)
    requires id in ImportedRecipes(recipes, batch, c) && id !in recipes
    ensures exists k :: 0 <= k < |batch| && ImportedFrom(recipes, batch, c, id, k)
  {
    var prefix := batch[..|batch| - 1];
    var jr := batch[|batch| - 1];
    var before := ImportedRecipes(recipes, prefix, c);
    ImportedRowsHaveRecipes(recipes, prefix, c);
    if id in before {
      CommittedRecipeHasAllRows(recipes, prefix, c, id);
      var k :| 0 <= k < |prefix| && ImportedFrom(recipes, prefix, c, id, k);
      assert batch[k] == prefix[k];
      assert ImportedFrom(recipes, batch, c, id, k);
    } else {
      assert Commits(before, jr, c) && jr.id == id;
      assert ImportedFrom(recipes, batch, c, id, |batch| - 1);
    }
  }

  /** An id that neither the table nor the batch holds is not imported. */
  lemma {:induction false} AbsentIdNotImported(recipes: map<int, Recipe>, batch: seq<JsonRecipe>, c: Constraints, id: int)
    requires id !in recipes && forall j :: 0 <= j < |batch| ==> batch[j].id != id
    ensures id !in ImportedRecipes(recipes, batch, c)
  {
    if |batch| > 0 {
      AbsentIdNotImported(recipes, batch[..|batch| - 1], c, id);
    }
  }

  /** A recipe whose insert or one of whose ingredient inserts fails is absent
      afterwards, and so is every ingredient row for its id (when no other
      entry of the batch and no stored recipe uses that id). */
  lemma RolledBackRecipeLeavesNoRows(recipes: map<int, Recipe>, batch: seq<JsonRecipe>, k: nat, c: Constraints)
    requires k < |batch| && !Commits(ImportedRecipes(recipes, batch[..k], c), batch[k], c)
    requires batch[k].id !in recipes
    requires forall j :: 0 <= j < |batch| && j != k ==> batch[j].id != batch[k].id
    ensures batch[k].id !in ImportedRecipes(recipes, batch, c)
    ensures forall s :: (batch[k].id, s) !in ImportedRows(recipes, batch, c)
  {
    var before, after := batch[..k], batch[k + 1..];
    assert batch == before + [batch[k]] + after;
    RolledBackRecipeIsSkipped(recipes, before, batch[k], after, c);
    var rest := before + after;
    forall j | 0 <= j < |rest| ensures rest[j].id != batch[k].id {
      if j < k { assert rest[j] == batch[j]; } else { assert rest[j] == batch[j + 1]; }
    }
    AbsentIdNotImported(recipes, rest, c, batch[k].id);
    ImportedRowsHaveRecipes(recipes, batch, c);
  }
}
