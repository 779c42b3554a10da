# recipe-server, modelled in Dafny

A Dafny model of the core of `recipe-server`, a small Rust web server that
shows recipes stored in SQLite. The server looks recipes up by id or by a
free-text ingredient query, or picks one at random. The model covers:

- **Ingredient matching** (`Server`, `Database`). The `get_recipe` handler
  normalises a query. It keeps ASCII letters (lower-cased) and commas, and
  drops everything else. `recipe_by_ingredients` then splits the result on
  `,` and refills the scratch table `qingredients` with the pieces. It joins
  that table against `ingredients` with `LIKE '%' || token || '%'` and returns
  one matching recipe id, chosen at random.
- **Dispatch** (`Server.AppState.GetRecipe`). Lookup by id comes first. A
  failed id lookup is a 404 and nothing else is tried. Next comes lookup by
  ingredients, which redirects to `/?id=N`; a query that matches nothing
  falls through. Last comes a random redirect, which panics when the
  `recipes` table is empty. A failing store call is an input of the model
  (`Server.Fault`). A failed recipe fetch is a 404. A failed ingredient
  stream, matcher transaction or random selection is a panic. The shared
  `current_recipe` slot is written only by a successful id lookup.
- **Recipe records and the store** (`Recipes`). The `Recipe` row and the JSON
  form `JsonRecipe` are modelled, with `JsonRecipe::new`, `to_recipe` and
  `recipe::get`. The store is two tables: a `map<int, Recipe>` of recipe
  rows and a `seq<(int, string)>` of `(recipe_id, ingredient_amount)` rows.
- **Start-up** (`Startup`). This covers `get_db_uri`, `extract_db_dir` and the
  import loop of `serve`. The import runs one transaction per recipe; a
  failed insert rolls that recipe back and the loop goes on with the next.
- **Client helpers** (`Client`). These are the API URL choice, `format_ingredients`,
  and the preparation and annotation text from `client/src/recipe.rs`.

`src/web.rs:9-115` is the same code as `src/main.rs:49-155` apart from
visibility (`get_recipe` is `pub` at src/web.rs:35), so one model covers
both. Some rows below cite `src/web.rs`.

Points of the code the model keeps:

- Because the matching query ends in `LIMIT 1`, `nrecipe_ids == 1` holds
  whenever some recipe matches, so the handler redirects to one arbitrary
  candidate. A recipe matches when any single token is a substring of one of
  its ingredient rows.
- On an empty `recipes` table the random path panics.
- The code never reads `current_recipe` back. The model only records when it
  is written.

`ORDER BY RANDOM() LIMIT 1` and the `HashSet` iteration order of the import
are modelled as nondeterministic choice (`Database.PickAtRandom`). The
client's `HashSet` iteration order is instead a parameter `order` of
`Client.FormatIngredients` and `Client.Annotation`, constrained to list each
element once. The handler's possible outcomes are described by the relation
`Server.Permitted`. The `DB_URI` environment variable is a parameter.

## Model

| member | source | states |
|---|---|---|
| `Server.Normalize` | src/main.rs:117-123 | the normalised query contains only lower-case letters and commas and is no longer than the input |
| `Server.NormalizeIngredients` | src/main.rs:117-123 | the character-pushing loop produces exactly the normalised query |
| `Server.NormalizeConcat` | src/web.rs:78-83 | normalisation works character by character, in order: normalising `a + b` gives normalise(a) followed by normalise(b) |
| `Server.NormalizeOneChar` | src/web.rs:79-82 | a single letter becomes its lower-case form, a comma stays, and any other character (digit, space, punctuation) is dropped |
| `Server.NormalizeIdempotent` | src/main.rs:117-123 | normalising an already normalised query changes nothing |
| `Server.NormalizeExample` | src/main.rs:117-123 | "2 Cups Flour" normalises to "cupsflour" |
| `Server.TokensAreLetters` | src/main.rs:55-61 | the comma-split tokens of a normalised query are made of lower-case letters only, so they carry no `LIKE` wildcard |
| `Text.Split` | src/main.rs:55 | `split(',')` gives at least one piece; no piece contains a comma; each piece uses only characters of the input |
| `Text.Join` | src/main.rs:100 | `join(sep)` of no parts is "", and of one or more parts starts with the first part |
| `Text.JoinSplit` | src/main.rs:55 | joining the split pieces with ',' gives back the input, so the pieces lose nothing |
| `Server.RecipeByIngredients` | src/main.rs:49-73 | the scratch table holds exactly the split tokens; the result is `None` iff no ingredient row contains any token, and a returned id is one of the candidates |
| `Database.Like` | src/main.rs:61 | the `LIKE` substring test: a match needs a token no longer than the value; the empty token matches everything; a value equal to the token up to ASCII case matches |
| `Database.Candidates` | src/main.rs:61 | the `SELECT DISTINCT recipe_id ... JOIN` result is a set of ids that have an ingredient row, and is empty when there are no tokens |
| `Database.CandidateIff` | src/web.rs:21-29 | an id is a candidate iff one of its ingredient rows contains one of the tokens, case-insensitively |
| `Database.EmptyTokenMatchesEveryRecipe` | src/main.rs:55-61 | when the empty token is among the tokens, every recipe with at least one ingredient row is a candidate |
| `Server.LetterlessQueryMatchesEveryRecipe` | src/main.rs:117-125 | a query without letters (empty, digits only, only commas) matches every recipe that has an ingredient row |
| `Database.CandidatesAreRecipes` | src/main.rs:61 | in a well-formed store every candidate id names a stored recipe |
| `Database.PickAtRandom` | src/main.rs:142-144 | `ORDER BY RANDOM() LIMIT 1` over a non-empty result returns one of its values |
| `Server.FetchIngredients` | src/main.rs:89-99 | the ingredient loop collects exactly the ingredient strings of the recipe's rows (in the model's table order) |
| `Server.ById` | src/main.rs:83-111 | the id path renders iff `get` finds the row, and then shows that recipe with its ingredient strings joined by ", "; otherwise 404 |
| `Server.AppState.constructor` | src/main.rs:227-233 | the application starts with the placeholder recipe 0 as `current_recipe` |
| `Server.Permitted` | src/main.rs:75-155 | the dispatch relation: a page only for an id whose recipe row exists and whose fetches succeed; a 404 only on the id path; a panic only on a store failure or an empty `recipes` table |
| `Server.AppState.GetRecipe` | src/main.rs:75-155 | for the given store failure (or none), the outcome is one the dispatch relation permits; the tables are unchanged; `current_recipe` becomes the rendered recipe on a successful id lookup and is untouched on every other path, panics included |
| `Server.IdTakesPrecedence` | src/web.rs:43-72 | with an id parameter the ingredient parameter is irrelevant, and the outcome is a page, a 404, or a panic, the panic only when the ingredient stream fails |
| `Server.FailedIdIsNotFound` | src/web.rs:66-71 | when no row has the id the outcome is exactly 404, whatever store call fails, with no fall-through |
| `Server.IdPathFaults` | src/main.rs:84-109 | any failed recipe fetch is a 404, even for a stored id; a failed ingredient stream after a found recipe is a panic |
| `Server.MatcherFaultPanics` | src/main.rs:125-137 | a failing `recipe_by_ingredients` transaction makes an ingredient query panic |
| `Server.UnreachedFaultIsHarmless` | src/main.rs:83-155 | a failure of a store call the request's path never makes leaves the permitted outcomes as with a working store |
| `Server.UnmatchedQueryFallsThrough` | src/web.rs:85-99 | an ingredient query that matches nothing, with a working matcher, leads to the same outcomes as no query at all |
| `Server.RandomPathOutcome` | src/web.rs:102-114 | without an id or a match, the handler redirects to a stored recipe, and panics iff the `recipes` table is empty or the selection fails |
| `Server.RedirectIsServed` | src/main.rs:127-129 | in a well-formed store every redirect's `/?id=N` names a recipe that the id path then renders |
| `Text.ParseIntOfDecimal` | src/main.rs:128 | the decimal text `format!` writes for an id reads back as that id |
| `Text.Find` | src/main.rs:169 | `find(':')` gives the first position of the character, or `None` iff it is absent |
| `Text.FindAt` | src/main.rs:169 | when position k holds the first occurrence, `find` returns k |
| `Text.RFind` | src/main.rs:171 | `rfind('/')` gives the last position of the character, or `None` iff it is absent |
| `Startup.GetDbUri` | src/main.rs:157-165 | the argument wins, then `DB_URI`, then `sqlite://db.db` |
| `Startup.ExtractDbDir` | src/main.rs:167-180 | error iff the URI does not start with `sqlite://` and end with `.db`; otherwise the text after `sqlite://` up to its last '/', or "" when there is no '/' |
| `Startup.DefaultDbDir` | src/main.rs:163-176 | the default URI's directory is "" |
| `Startup.ImportRecipes` | src/main.rs:194-226 | the import leaves `recipes` as the per-recipe fold; the existing ingredient rows stay in front; the new rows are exactly those of the committed recipes, each inserted exactly once (no duplicates, and as many rows as the set of committed rows); a well-formed store stays well-formed |
| `Startup.DistinctCount` | src/main.rs:213-217 | a duplicate-free row list holding exactly the elements of a set has one row per element |
| `Startup.ImportConcat` | src/main.rs:196-225 | importing a + b is importing a, then b on the result |
| `Startup.RolledBackRecipeIsSkipped` | src/main.rs:208-222 | a recipe whose transaction rolls back changes nothing, and the recipes after it import as if it were absent |
| `Startup.RolledBackRecipeLeavesNoRows` | src/main.rs:208-222 | a rolled-back recipe is absent afterwards and so is every ingredient row for its id |
| `Startup.ImportOnlyAdds` | src/main.rs:199-211 | the import never removes or replaces a stored recipe |
| `Startup.ImportedRowsHaveRecipes` | src/main.rs:213-224 | every imported ingredient row belongs to a recipe the import added, filed under its id |
| `Startup.ImportKeepsWellFormed` | src/main.rs:196-225 | after the import, every ingredient row still refers to a stored recipe |
| `Startup.CommittedRecipeHasAllRows` | src/main.rs:213-224 | each committed recipe comes from one batch entry and has all of that entry's ingredient strings as rows, and no others |
| `Startup.AbsentIdNotImported` | src/main.rs:196-225 | an id that neither the table nor the batch holds is not imported |
| `Recipes.New` | src/recipe.rs:35-44 | `JsonRecipe::new` copies id, title, category and preparation; its ingredient set holds exactly the list's elements and is no larger than the list |
| `Recipes.SetOfSeqSize` | src/recipe.rs:36 | collecting a list into a set never makes it larger |
| `Recipes.NewIgnoresOrderAndDuplicates` | src/recipe.rs:16 | lists with the same elements, in any order and with any duplicates, give the same record |
| `Recipes.ToRecipe` | src/recipe.rs:46-55 | `to_recipe` copies id, title, category and preparation into the row and yields exactly the JSON record's ingredient strings |
| `Recipes.NewThenToRecipe` | src/recipe.rs:35-55 | `to_recipe(new(r, is))` is `r` with exactly the distinct elements of `is` |
| `Recipes.ToRecipeThenNew` | src/recipe.rs:46-55 | rebuilding with `new` from `to_recipe`'s output, in any enumeration order, gives back the record |
| `Recipes.IngredientsOf` | src/recipe.rs:69-71 | the query returns each ingredient string as many times as the table has a row for that recipe with it |
| `Recipes.ColumnKey` | src/recipe.rs:65 | an id text is a number only if it is non-empty and made of digits and signs; a non-empty run of digits reads as its decimal value |
| `Recipes.Get` | src/recipe.rs:64-73 | `get` succeeds iff a recipe row has the id, and then returns that row and exactly the ingredient strings of rows with that `recipe_id`; otherwise it fails |
| `Recipes.GetByDecimalId` | src/recipe.rs:64-73 | in a well-formed store, `get` with a stored id's decimal text returns that recipe |
| `Client.RequestUrl` | client/src/recipe.rs:13-17 | no key gives the random-recipe URL; key `k` gives the recipe URL prefix followed by `k` |
| `Client.RequestUrlInjective` | client/src/recipe.rs:14-17 | different keys, and no key, never share a URL |
| `Client.FormatIngredients` | client/src/recipe.rs:25-28 | the set's elements in iteration order, joined by ", ": "" for the empty set, the element for a singleton, and every element appears in the text |
| `Text.JoinContainsPart` | client/src/recipe.rs:26-27 | every joined part occurs in the joined text |
| `Client.PreparationText` | client/src/recipe.rs:42 | a missing preparation shows as "No preparation details available" |
| `Client.Annotation` | client/src/recipe.rs:44-50 | the annotation is "[id: N", then "; ingredients: ..." only when ingredients are present, then "]"; in both cases N is the decimal id and reads back as the id |

## Left out

- HTTP plumbing is not modelled: axum routing, static files, tracing, the TCP listener and `main` (src/main.rs:236-273). These are framework wiring.
- The `RwLock` around the shared state is not modelled. Each handler call is one atomic step, so requests racing on the shared `qingredients` table are not modelled either.
- The SQL engine itself is not modelled: sqlx, table DDL, migrations and `RANDOM()`. The tables are a map and a sequence, a fresh migrated database is the empty `Database.Db`, and randomness is nondeterministic choice.
- Database creation in `serve` is I/O and is left out: `database_exists`, `create_dir_all`, `create_database` and `connect` (src/main.rs:185-193).
- Store failures in `get_recipe` are an input (`Server.Fault`), one failing call per request; where in the ingredient stream it fails is not modelled, since the handler panics either way. Connection and transaction errors of `serve` (its `?` exits) and the errors `recipe::get` passes on are not modelled.
- Server.Normalize: non-ASCII characters are treated as non-letters and dropped. The source keeps every Unicode alphabetic character, and its Unicode `to_lowercase` can expand one character into several.
- Server.NormalizeIngredients: the same ASCII restriction as `Server.Normalize`.
- Database.Like: this models `LIKE` only for tokens without the wildcards `%` and `_`. That holds for every normalised token (`Server.TokensAreLetters`). NULL values are not modelled.
- Recipes.Get: an id parameter counts as a number only when it is an optionally signed run of decimal digits (`Recipes.ColumnKey`). SQLite's other conversions are not modelled: surrounding spaces, real literals such as `5.0`, and values outside the 64-bit range.
- Ids are unbounded integers. The 64-bit range of `i64` is not modelled.
- Server.RecipeByIngredients: decoding the selected `recipe_id` as a `String` (src/main.rs:66) is assumed to succeed.
- The askama `IndexTemplate` rendering is not modelled; src/templates.rs is not part of this model. The `Html` outcome carries the recipe and the joined ingredient text.
- Server.FetchIngredients: `SELECT ingredient_amount FROM ingredients WHERE recipe_id = $1` has no `ORDER BY`, so the source does not promise an order; the model's choice of table order fixes the order of the joined text in `Html`. Recipes.IngredientsOf and Recipes.Get make the same choice.
- Logging is not modelled: `log::*`, `eprintln!`.
- Startup.ImportRecipes: states the appended ingredient rows and that each occurs once, not their order. The source inserts them in `HashSet` iteration order, which is unspecified.
- Startup.ImportRecipes: a failing ingredient insert is an abstract predicate of the row (`Startup.Constraints`). The only insert failure tied to table contents is a duplicate recipe id.
- `read_recipes` (file and JSON reading, src/recipe.rs:28-32) is not modelled. The import takes the parsed batch.
- src/api.rs, JWT registration and authentication, and src/error.rs are not part of this model. Errors are plain Dafny datatypes.
- client/src/main.rs (the yew component, cookies, fetch) is not part of this model, nor is the HTTP `send` in client/src/recipe.rs:18-22. The client's HTML layout around the preparation and annotation text is not modelled.
