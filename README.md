# Nutrition app core in Dafny

This project models the logic of a small nutrition web app, without its user interface. The app has three pages:

- **Recipe page.** It filters a recipe catalog by four macro ranges and by a comma-separated ingredient query. For a selected recipe it ranks the catalog by similarity, skips the top-ranked entry (meant to be the recipe itself) and lists the next five. When a recipe is consumed, its macros are added to the user's row of the nutrition-tracking ledger.
- **Login and registration page.** It computes BMI, BMR, TDEE and the macro grams from the registration form. It appends the new user row to the user table. It checks credentials by scanning the user table.
- **Dashboard.** It looks up the user row and the user's ledger row, with zero amounts when there is no ledger row. It maps the goal columns, computes the progress-bar percentage and the amount left, and picks four health tips.

Tables are sequences of records. The two tables the app changes in place are classes:

- `Tracking.TrackingTable`, the ledger;
- `Accounts.UserTable`, the user table.

Their methods are proved against specification functions (`Tracking.Upserted`, `Accounts.NewUserRow`, `Accounts.CredentialsMatch`).

Python semantics are written out where they matter:

- Exact `real`s stand for the floats, so no rounding is modelled.
- `int()` on a float truncates toward zero (`Recipes.Trunc`).
- `str.split` keeps empty pieces.
- `str.strip` removes the characters for which `str.isspace` holds.
- `in` on strings is substring containment.
- `sorted(..., reverse=True)` is stable.
- Dividing a Python float by zero raises, so there is no BMI for a zero height.
- Dividing by a zero goal in the numeric library gives minus infinity (`Dashboard.MinusInfinity`).

Modules:

- `Strings`: lower-casing, strip, split, join and substring.
- `Seqs`: the order-keeping filter and subsequences.
- `Ranking`: the similar-recipe selection.
- `Recipes`: the filters, the default slider bounds and the suggestions.
- `Tracking`: the ledger upsert.
- `Nutrition`: BMI, BMR, TDEE and macros.
- `Accounts`: login and registration.
- `Dashboard`: the dashboard derivations, plus lemmas that connect the pages.

Quirks of the code that are proved here:

- An ingredient query with a trailing comma, or with any blank term, keeps every recipe.
- The default upper bound of a slider truncates a fractional column maximum, which excludes the recipe that attains it.
- The weight goals offered at registration never reach the `'Lose Weight'` or `'Gain Weight'` rules of the macro table or of the weight tip. `'Gain Weight (Muscle)'` is treated as maintaining weight.
- The muscle-gain answer is compared case-insensitively for the macros, but exactly (`'Yes'`) for the tip.
- Registering an id that already exists keeps both passwords valid for login. The dashboard then shows the first row.
- Only the exact gender `'Female'` selects the female BMR formula.

## Model

| member | source | states |
|---|---|---|
| Recipes.WithinBounds | page2.py:32-35 | a recipe is within the bounds iff every one of its four macros lies in that macro's closed integer range |
| Recipes.NumericFilter | page2.py:32-35 | the result is a subsequence of the catalog, and a recipe is kept iff each of its four macros lies in its closed integer range; every copy of a kept row is kept |
| Recipes.WithinBoundsEach | page2.py:32-35 | a recipe within the bounds has every macro in that macro's closed range |
| Recipes.Terms | page2.py:38 | one term per comma-separated piece, each stripped and lower-cased |
| Recipes.MatchesAny | page2.py:39 | an empty term list matches nothing; a blank term matches every recipe |
| Recipes.IngredientFilter | page2.py:37-39 | an empty query returns the rows unchanged; otherwise the result is a subsequence that keeps a row, with all its copies, iff some term occurs case-insensitively in its ingredient text |
| Recipes.BlankTermKeepsAll | page2.py:38-39 | a query with a term that is blank after stripping keeps every row |
| Recipes.TrailingCommaKeepsAll | page2.py:38-39 | a query that ends with a comma keeps every row |
| Recipes.MatchesAnyAt | page2.py:39 | a recipe matches iff some term occurs at some position of its lower-cased ingredient text |
| Recipes.FilterRecipes | page2.py:32-39 | the listed recipes are a subsequence of the catalog: order is kept and nothing is added; a recipe is listed iff it is within the bounds and, for a non-empty query, matches some term; each listed row appears as often as in the catalog |
| Recipes.EmptyIngredientInput | page2.py:37 | an empty query leaves the numeric result unchanged |
| Recipes.Column | page2.py:25-28 | a macro column has one entry per recipe, holding that recipe's value |
| Recipes.ColumnMax | page2.py:25-28 | the column maximum is one of the values and at least every value |
| Recipes.Trunc | page2.py:25-28 | `int()` truncates toward zero: it is the floor for non-negative values and the ceiling for negative ones |
| Recipes.DefaultRange | page2.py:25-28 | a default range starts at 0 and, for a non-negative column maximum, ends at the whole number at most one below it |
| Recipes.DefaultBounds | page2.py:25-28 | default bounds exist iff the catalog is non-empty |
| Recipes.DefaultRangeOf | page2.py:25-28 | each default range is `(0, int(column max))` |
| Recipes.DefaultsExclude | page2.py:25-35 | under the default bounds, a recipe with a negative macro, or one above the truncated column maximum, is not listed |
| Recipes.FractionalMaximumExcluded | page2.py:25-35 | when a column maximum has a fractional part, the recipe attaining it is not listed under the default bounds |
| Recipes.DefaultsKeepWholeCatalog | page2.py:25-35 | with whole non-negative macros and an empty query, the default bounds list the whole catalog |
| Recipes.Position | page2.py:46-53 | the position of the first catalog row with the id; none iff no row has it |
| Recipes.Suggestions | page2.py:45-56 | as written: suggestions exist iff the id is in the catalog; there are `min(5, n-1)` of them, all drawn from the whole catalog; none sits at the lowest-index maximum of the selected recipe's similarity row; entry `k` is the catalog recipe at the position of the `k`-th pair `TopFive` keeps from that row, so the list follows the ranking in score order |
| Recipes.SuggestionsFollowRanking | page2.py:53-56 | three recipes, the first selected with scores 1.0, 0.5 and 0.9: the page lists the third recipe, then the second |
| Recipes.SuggestionsCanListSelf | page2.py:53-56 | two recipes with equal similarity rows, the second selected: the page lists the selected recipe itself |
| Recipes.SuggestionsExcludingSelf | page2.py:53-56 | corrected: suggestions exist iff the id is in the catalog; there are `min(5, n-1)` of them from the catalog; with unique ids, none is the selected recipe; entry `k` is the catalog recipe at the position of the `k`-th pair `TopFiveExcluding` keeps, so the list holds the best-scored other recipes in score order |
| Recipes.SuggestionsExcludingSelfListsOther | page2.py:53-56 | on the same two recipes, the corrected list holds the other recipe |
| Ranking.Enumerate | page2.py:54 | the pairs `(i, row[i])` in index order |
| Ranking.SortByScore | page2.py:55 | the sort of pairs listed in index order is ordered by descending score with ties in ascending index, and is a permutation of its input |
| Ranking.Ranked | page2.py:55 | the sorted pairs are a permutation of the enumerated row, ordered by descending score with ties in ascending index |
| Ranking.InRanked | page2.py:54-55 | every ranked pair is a position of the row with its own score |
| Ranking.RankedHas | page2.py:54-55 | every position of the row appears in the ranking |
| Ranking.OrderedUnique | page2.py:55 | two orderings of the same pairs that respect score-then-index order are equal |
| Ranking.RankedIsStableSort | page2.py:55 | any stable descending sort of the enumerated row is exactly the ranking |
| Ranking.TopFive | page2.py:56 | as written: the length is `min(5, max(n-1, 0))`; the entries are ordered by score with ties in ascending index; indices are distinct and in range, each with its own score |
| Ranking.DroppedIsLowestIndexMaximum | page2.py:55-56 | the skipped pair is the lowest-index position holding the maximal score, and it is not among the five kept |
| Ranking.TopFiveSkipsLowestIndexMaximum | page2.py:55-56 | no kept entry is the lowest-index maximum of the row |
| Ranking.TopFiveIsTop | page2.py:55-56 | every position is the skipped one, one of the five kept, or scores no higher than each kept entry |
| Ranking.TopFiveInScoreOrder | page2.py:54-56 | in a row of three whose last score lies between the other two, the selection is position 2, then position 1 |
| Ranking.TopFiveCanKeepSelf | page2.py:56 | with the similarity row `[1.0, 1.0]` the selection is the pair at index 1, so recipe 1 is suggested for itself |
| Ranking.Others | page2.py:56 | the enumerated row without the selected position: a permutation of the rest, in index order |
| Ranking.TopFiveExcluding | page2.py:56 | corrected selection: `min(5, n-1)` entries, none of them the selected recipe, ordered, with distinct in-range indices and their own scores |
| Ranking.TopFiveExcludingIsTop | page2.py:55-56 | every other position of the row is among the five kept, or scores no higher than each kept entry |
| Ranking.TopFiveAgreesWhenSelfLeads | page2.py:53-56 | when the selected recipe is the lowest-index maximum, the corrected and as-written selections coincide |
| Ranking.UniqueMaximumLeads | page2.py:53-56 | a selected recipe that strictly beats every other score is the one skipped |
| Seqs.Keep | page2.py:32-39 | a mask filter keeps order, adds nothing, keeps exactly the elements satisfying the condition, and keeps everything when all elements satisfy it |
| Seqs.KeepMultiset | page2.py:32-39 | a mask filter keeps every element satisfying the condition exactly as often as the input holds it, and drops every other element |
| Seqs.SubsequenceTransitive | page2.py:32-39 | filtering a filtered table still gives a subsequence of the original |
| Strings.Lower | page2.py:38-39 | lower-casing keeps the length and maps each character to its lower case |
| Strings.IsSpace | page2.py:38 | the code points `str.isspace` accepts: space, tab, newline and carriage return among them, and never a comma, a letter or a digit |
| Strings.TrimStart | page2.py:38 | the result is a suffix of the input; everything removed is white space, and the result does not start with white space |
| Strings.TrimEnd | page2.py:38 | the result is a prefix of the input; everything removed is white space, and the result does not end with white space |
| Strings.Strip | page2.py:38 | the stripped string is the input with only a white-space prefix and suffix removed; it has no white space at either end and is empty iff the input is all white space |
| Strings.Split | page2.py:38 | split gives at least one piece, and no piece contains the separator |
| Strings.SplitJoin | page2.py:38 | joining the pieces with the separator gives back the input |
| Strings.SplitTrailingSeparator | page2.py:38 | a string that ends with the separator has an empty last piece |
| Strings.Contains | page2.py:39 | the empty string is contained in every string, and a contained term is no longer than the text |
| Strings.ContainsAt | page2.py:39 | containment holds iff the term occurs at some position |
| Tracking.AddForUser | page2.py:93-98 | every row of the user gets the four amounts added; every other row is unchanged |
| Tracking.Upserted | page2.py:90-112 | after the upsert the user has a row. If the user had rows, the count is unchanged, every matching row's amounts increase and the other rows are untouched. Otherwise exactly one row holding the amounts is appended |
| Tracking.AddForUserTwice | page2.py:93-98 | two additions for a user equal one addition of their sum |
| Tracking.UpsertTwice | page2.py:86-112 | two consumptions in a row equal one consumption of their sum, whether or not the user had a row |
| Tracking.TrackingTable.UpdateNutritionTracking | page2.py:86-112 | the ledger after the call is the upsert of the old ledger with the four amounts |
| Nutrition.Bmi | loginapp.py:6-7 | no BMI iff the height is zero; otherwise BMI times the squared height in metres is the weight |
| Nutrition.Bmr | loginapp.py:9-14 | the female coefficients apply iff the gender is exactly `'Female'`, the male ones otherwise |
| Nutrition.BmrMaleUnlessExactlyFemale | loginapp.py:9-14 | every gender other than exactly `'Female'` gets the male formula |
| Nutrition.ActivityMultiplier | loginapp.py:17-27 | the multiplier is one of the five values in [1.2, 1.9], each given by an iff: 1.2 for a `low` intensity (any case) with 0 days; 1.375 for `low` with other days, or 1 to 3 days; 1.55 otherwise for `moderate` or 3 to 5 days; 1.9 for `high` with 7 days; 1.725 for everything else |
| Nutrition.MultiplierForOfferedChoices | loginapp.py:17-27 | the full table for the offered intensities and 0 to 7 days; `'Medium'` never matches `moderate`, and `'High'` with 6 days gives 1.725 |
| Nutrition.Tdee | loginapp.py:28-29 | TDEE lies between 1.2 and 1.9 times the BMR |
| Nutrition.MacroRatios | loginapp.py:32-53 | the ratios are positive and sum to 1, minus 0.10 for `'Lose Weight'` and plus 0.25 for `'Gain Weight'` |
| Nutrition.MaintainRatios | loginapp.py:32-38 | `'Maintain Weight'` adjusts nothing: the ratios are 0.25 / 0.40 / 0.35, or 0.40 / 0.30 / 0.30 after a case-insensitive `yes` to muscle gain |
| Nutrition.GoalAdjustments | loginapp.py:39-52 | relative to `'Maintain Weight'`, `'Lose Weight (High Priority)'` moves protein / carb / fat by −0.05 / −0.10 / +0.15, `'Lose Weight'` by −0.05 / −0.10 / +0.05 and `'Gain Weight'` by +0.05 / +0.10 / +0.10 |
| Nutrition.MuscleGainShift | loginapp.py:36-39 | a muscle-gain answer of `yes` in any case shifts the ratios by +0.15, -0.10 and -0.05 |
| Nutrition.UnlistedGoalMaintains | loginapp.py:40-53 | any goal other than the three adjusting ones gives the `'Maintain Weight'` ratios |
| Nutrition.OfferedGoalsKeepSum | loginapp.py:40-53 | every goal offered at registration keeps the ratio sum at 1, and `'Gain Weight (Muscle)'` is treated as maintaining weight |
| Nutrition.Grams | loginapp.py:54-56 | protein and carb grams are ratio × TDEE / 4 and fat grams are ratio × TDEE / 9, so their energy is the ratio sum × TDEE |
| Nutrition.MacroGrams | loginapp.py:32-58 | each macro's grams carry its own ratio of the TDEE (protein and carb at 4 kcal per gram, fat at 9); their energy is TDEE scaled by the ratio sum; they are non-negative for a non-negative TDEE |
| Nutrition.CalculateNutrients | loginapp.py:61-82 | no result iff the height is zero; otherwise the BMI and BMR of the inputs, calories equal to the TDEE, proteins, carbs and fats equal to the macro grams of those calories (so each carries its own ratio), and their energy is the calories scaled by the ratio sum |
| Accounts.NewUserRow | loginapp.py:134-140 | no row iff the height is zero; otherwise the row copies every answer of the form (name, id, password, age, weight, height, gender, goals, days, intensity) and carries the computed BMI, BMR, TDEE and grams |
| Accounts.CredentialsMatch | loginapp.py:102-104 | some row of the table carries both the id and the password |
| Accounts.LoginSurvivesAppend | loginapp.py:101-112 | appending a row never takes a working login away |
| Accounts.LoginAfterRegistration | loginapp.py:136-143 | a registered user can log in with the id and password they gave |
| Accounts.DuplicateIdKeepsBothPasswords | loginapp.py:136-143 | there is no uniqueness check: after two registrations under one id, both passwords log in |
| Accounts.UserTable.Login | loginapp.py:101-112 | login succeeds iff one row matches both the id and the password |
| Accounts.UserTable.Register | loginapp.py:132-143 | exactly one row is appended at the end and existing rows are unchanged; nothing changes when the BMI raises |
| Dashboard.FindUser | home.py:11 | the first row with the id; none, where the page raises, iff no row has it |
| Dashboard.FindUserIsFirst | home.py:11 | the user shown is the first row with the id |
| Dashboard.DuplicateRegistrationShadowed | home.py:11 | a row appended under an existing id is never the one shown |
| Dashboard.TrackedLeft | home.py:14-32 | the first ledger row of the user gives the amounts; all four are zero when there is none |
| Dashboard.TrackedLeftIsFirst | home.py:14-24 | the amounts shown are those of the first matching ledger row |
| Dashboard.TrackedLeftAfterUpsert | home.py:14-32 | after a consumption, the dashboard shows the previous amounts plus the consumed ones |
| Dashboard.ConsumedRecipeShown | page2.py:119-120 | consuming a recipe raises each amount the dashboard shows by the recipe's macro of the same name |
| Dashboard.TrackedLeftOfOthers | home.py:14-32 | a consumption by one user changes nothing shown to another user |
| Dashboard.Goals | home.py:37-42 | the calorie goal is the tdee column, and the protein, fat and carb goals are the protein, fat and carb columns |
| Dashboard.BarLoad | home.py:80-85 | left + value = goal. The percentage is 100 from the goal on; below it, percentage × goal = value × 100. It is minus infinity iff value < goal = 0. For a positive goal it is at most 100, and at least 0 for a non-negative value |
| Dashboard.AllBars | home.py:96-100 | each of the four bars is drawn from that nutrient's tracked amount and its own goal |
| Dashboard.HealthTips | home.py:105-127 | tip 1 is the muscle-gain tip iff the answer is exactly `'Yes'`. Tip 2 is gain or lose iff the goal is exactly `'Gain Weight'` or `'Lose Weight'`. Tip 3 is consistency iff there are at least 3 days. Tip 4 is chosen by `'Low'` or `'High'` exactly |
| Dashboard.DashboardFor | home.py:11-42 | a dashboard exists iff a user row has the id. It shows the first such row, that user's tracked amounts, and as goals the row's tdee, protein, fat and carb. Its tips are those of that row and its bars are drawn from those amounts and goals. For a positive calorie goal the calorie bar is at most 100 |
| Dashboard.RegisteredUserDashboard | home.py:105-117 | a newly registered user sees the goals computed at registration, always the maintain-weight tip, the muscle tip iff they answered `'Yes'`, and the consistency tip iff they chose at least 3 days |
| Dashboard.LowercaseYesMismatch | home.py:105 | a stored `yes` shifts the protein ratio but does not get the muscle-gain tip |

## Left out

- The user interface is not modelled: the widgets, the session state, the cache, reruns, messages, the tables and the charts drawn with the plotting library. This includes the fact that the ledger upsert runs on every render where a recipe is selected, not only when the consume button is pressed. The model covers the upsert itself, not when it fires.
- Page routing between the login page, the dashboard and the recipe page is not modelled (main.py is not part of this model).
- Reading and writing CSV files is not modelled. Tables are sequences of records, and the values in them are already typed. Column type inference is therefore left out: an id column of digits read back as integers would never equal the text the user types at login.
- TF-IDF vectorisation and cosine similarity are foreign library calls. A row of similarity scores is an input to `Ranking` and a square matrix is an input to `Recipes.Suggestions`. The model assumes the data frame index equals the row position, as it does for a freshly read file.
- Float rounding, NaN and infinities are not modelled; exact reals stand for the floats. The only exception is the minus infinity of a bar whose goal is zero.
- Strings.Lower: folds ASCII letters only, because Python's Unicode case mapping is a table too large to model. The model therefore assumes ASCII recipe texts and queries; the offered answers are ASCII.
- The text of the tips and the `str(int(left))` label drawn on the bar are not modelled.
- Slider behaviour when the truncated maximum is below zero is not modelled (a widget error).
- Nutrition.Tdee: states bounds, not the product itself, which `Nutrition.CalculateNutrients` states through `Tdee`.
- Accounts.UserTable.Login: the scan stops at the first match, where the page reruns. The messages shown and the session flags set are not modelled.

## Findings

| source | as written | input that shows it | evidently intended | confidence | as-written member | corrected member |
|---|---|---|---|---|---|---|
| page2.py:55-56 | `sorted_scores[1:6]` skips the first sorted pair. That pair is the lowest-index position with the maximal score, which need not be the selected recipe | two recipes with the same ingredient text, the second selected: its similarity row is `[1.0, 1.0]`, so `(0, 1.0)` is skipped and recipe 1 is suggested as similar to itself | the five best-scored recipes other than the selected one | not executed | Recipes.SuggestionsCanListSelf | Recipes.SuggestionsExcludingSelf |
