/** The recipe browser: the four macro range filters, the comma-separated
    ingredient filter, the default slider bounds and the list of similar
    recipes shown for a selected recipe. */
module Recipes {
  import opened Wrappers
  import opened Seqs
  import opened Strings
  import opened Ranking

  /** One row of the recipe catalog. */
  datatype Recipe = Recipe(
    id: int,
    title: string,  // the `label` column
    ingredients: string,
    ingredientLines: string,
    proteins: real,
    calories: real,
    fats: real,
    carbs: real,
    url: string)

  /** A slider selection `(lo, hi)`; the sliders hand out integers. */
  datatype Range = Range(lo: int, hi: int)

  datatype Bounds = Bounds(protein: Range, calories: Range, fats: Range, carbs: Range)

  datatype Macro = Protein | Calories | Fats | Carbs

  function MacroOf(x: Recipe, m: Macro): real
  {
    match m
    case Protein => x.proteins
    case Calories => x.calories
    case Fats => x.fats
    case Carbs => x.carbs
  }

  function RangeOf(b: Bounds, m: Macro): Range
  {
    match m
    case Protein => b.protein
    case Calories => b.calories
    case Fats => b.fats
    case Carbs => b.carbs
  }

  /** `(column >= lo) & (column <= hi)`: a closed range. */
  predicate InRange(v: real, r: Range)
  {
    r.lo as real <= v <= r.hi as real
  }

  /** The four range conditions of the numeric mask, joined with `&`. */
  predicate WithinBounds(x: Recipe, b: Bounds)
    ensures WithinBounds(x, b) <==> forall m :: InRange(MacroOf(x, m), RangeOf(b, m))
  {
    assert InRange(MacroOf(x, Protein), RangeOf(b, Protein)) == InRange(x.proteins, b.protein);
    assert InRange(MacroOf(x, Calories), RangeOf(b, Calories)) == InRange(x.calories, b.calories);
    assert InRange(MacroOf(x, Fats), RangeOf(b, Fats)) == InRange(x.fats, b.fats);
    assert InRange(MacroOf(x, Carbs), RangeOf(b, Carbs)) == InRange(x.carbs, b.carbs);
    InRange(x.proteins, b.protein) && InRange(x.calories, b.calories)
    && InRange(x.fats, b.fats) && InRange(x.carbs, b.carbs)
  }

  lemma WithinBoundsEach(x: Recipe, b: Bounds, m: Macro)
    requires WithinBounds(x, b)
    ensures InRange(MacroOf(x, m), RangeOf(b, m))
  {
  }

  /** The numeric mask applied to the catalog. */
  function NumericFilter(catalog: seq<Recipe>, b: Bounds): (r: seq<Recipe>)
    ensures IsSubsequence(r, catalog)
    ensures forall i :: 0 <= i < |r| ==> r[i] in catalog && WithinBounds(r[i], b)
    ensures forall i :: 0 <= i < |catalog| && WithinBounds(catalog[i], b) ==> catalog[i] in r
    ensures forall x :: multiset(r)[x] == if WithinBounds(x, b) then multiset(catalog)[x] else 0
  {
    KeepMultiset(catalog, x => WithinBounds(x, b));
    Keep(catalog, x => WithinBounds(x, b))
  }

  /** `[t.strip().lower() for t in input.split(',')]`. */
  function Terms(input: string): (r: seq<string>)
    ensures |r| == |Split(input, ',')|
    ensures forall k :: 0 <= k < |r| ==> r[k] == Lower(Strip(Split(input, ',')[k]))
  {
    var parts := Split(input, ',');
    seq(|parts|, k requires 0 <= k < |parts| => Lower(Strip(parts[k])))
  }

  /** `any(t.lower() in ingredients.lower() for t in terms)`. */
  predicate MatchesAny(x: Recipe, terms: seq<string>)
    ensures terms == [] ==> !MatchesAny(x, terms)
    ensures (exists k :: 0 <= k < |terms| && terms[k] == "") ==> MatchesAny(x, terms)
  {
    assert Lower("") == "";
    exists k :: 0 <= k < |terms| && Contains(Lower(terms[k]), Lower(x.ingredients))
  }

  /** The ingredient filter: skipped for an empty input, otherwise keeps the
      recipes whose lower-cased ingredient text contains one of the terms. */
  function IngredientFilter(rows: seq<Recipe>, input: string): (r: seq<Recipe>)
    ensures input == "" ==> r == rows
    ensures IsSubsequence(r, rows)
    ensures input != "" ==> forall i :: 0 <= i < |r| ==> r[i] in rows && MatchesAny(r[i], Terms(input))
    ensures input != "" ==> forall i :: 0 <= i < |rows| && MatchesAny(rows[i], Terms(input)) ==> rows[i] in r
    ensures input != "" ==> forall x :: multiset(r)[x] == if MatchesAny(x, Terms(input)) then multiset(rows)[x] else 0
  {
    if input == "" then
      SubsequenceReflexive(rows);
      rows
    else
      var terms := Terms(input);
      KeepMultiset(rows, x => MatchesAny(x, terms));
      Keep(rows, x => MatchesAny(x, terms))
  }

  /** A term that is blank once stripped (an empty piece between commas, a
      trailing comma, a run of spaces) is contained in every ingredient
      text, so the ingredient filter then keeps every recipe. */
  lemma BlankTermKeepsAll(rows: seq<Recipe>, input: string, k: nat)
    requires input != "" && k < |Split(input, ',')| && AllSpace(Split(input, ',')[k])
    ensures IngredientFilter(rows, input) == rows
  {
    var terms := Terms(input);
    assert terms[k] == "";
    assert Lower(terms[k]) == "";
    forall i | 0 <= i < |rows|
      ensures MatchesAny(rows[i], terms)
    {
      assert Contains(Lower(terms[k]), Lower(rows[i].ingredients));
    }
  }

  /** An ingredient input that ends with a comma matches every recipe. */
  lemma TrailingCommaKeepsAll(rows: seq<Recipe>, input: string)
    requires |input| > 0 && input[|input| - 1] == ','
    ensures IngredientFilter(rows, input) == rows
  {
    SplitTrailingSeparator(input, ',');
    BlankTermKeepsAll(rows, input, |Split(input, ',')| - 1);
  }

  /** A term matches a recipe exactly when it occurs, case-insensitively,
      at some position of the recipe's ingredient text. */
  lemma MatchesAnyAt(x: Recipe, input: string)
    ensures MatchesAny(x, Terms(input))
        <==> exists k, i :: 0 <= k < |Terms(input)| && OccursAt(Terms(input)[k], Lower(x.ingredients), i)
  {
    var terms := Terms(input);
    forall k | 0 <= k < |terms|
      ensures Lower(terms[k]) == terms[k]
      ensures Contains(terms[k], Lower(x.ingredients)) <==> exists i :: OccursAt(terms[k], Lower(x.ingredients), i)
    {
      LowerIdempotent(Strip(Split(input, ',')[k]));
      ContainsAt(terms[k], Lower(x.ingredients));
    }
  }

  /** Whether the page lists recipe `x`: within every numeric range and,
      when the ingredient box is not empty, matching one of its terms. */
  predicate Listed(x: Recipe, b: Bounds, input: string)
  {
    WithinBounds(x, b) && (input != "" ==> MatchesAny(x, Terms(input)))
  }

  /** The recipes listed on the page: the numeric mask, then, when the
      ingredient box is not empty, the ingredient filter. */
  function FilterRecipes(catalog: seq<Recipe>, b: Bounds, input: string): (r: seq<Recipe>)
    ensures IsSubsequence(r, catalog)
    ensures forall i :: 0 <= i < |r| ==> r[i] in catalog && Listed(r[i], b, input)
    ensures forall i :: 0 <= i < |catalog| && Listed(catalog[i], b, input) ==> catalog[i] in r
    ensures forall x :: multiset(r)[x] == if Listed(x, b, input) then multiset(catalog)[x] else 0
  {
    var numeric := NumericFilter(catalog, b);
    var r := IngredientFilter(numeric, input);
    SubsequenceTransitive(r, numeric, catalog);
    MaskCompose(catalog, numeric, r, x => WithinBounds(x, b),
                x => input != "" ==> MatchesAny(x, Terms(input)));
    MaskMembers(catalog, r, x => Listed(x, b, input));
    r
  }

  /** An empty ingredient box leaves the numeric result unchanged. */
  lemma EmptyIngredientInput(catalog: seq<Recipe>, b: Bounds)
    ensures FilterRecipes(catalog, b, "") == NumericFilter(catalog, b)
  {
  }

  /** The values of one macro column. */
  function Column(catalog: seq<Recipe>, m: Macro): (r: seq<real>)
    ensures |r| == |catalog|
    ensures forall i :: 0 <= i < |catalog| ==> r[i] == MacroOf(catalog[i], m)
  {
    seq(|catalog|, i requires 0 <= i < |catalog| => MacroOf(catalog[i], m))
  }

  /** `column.max()` of a non-empty column. */
  function ColumnMax(vals: seq<real>): (r: real)
    requires |vals| > 0
    ensures exists i :: 0 <= i < |vals| && vals[i] == r
    ensures forall i :: 0 <= i < |vals| ==> vals[i] <= r
  {
    if |vals| == 1 then vals[0]
    else
      var m := ColumnMax(vals[1..]);
      assert forall i :: 1 <= i < |vals| ==> vals[i] == vals[1..][i - 1];
      if vals[0] >= m then vals[0] else m
  }

  /** Python's `int(v)` on a float: truncation toward zero. */
  function Trunc(v: real): (n: int)
    ensures v >= 0.0 ==> n as real <= v < n as real + 1.0
    ensures v < 0.0 ==> n as real - 1.0 < v <= n as real
  {
    if v >= 0.0 then v.Floor else -((-v).Floor)
  }

  /** The default slider selection `(0, int(column.max()))`. */
  function DefaultRange(catalog: seq<Recipe>, m: Macro): (r: Range)
    requires |catalog| > 0
    ensures r.lo == 0
    ensures var top := ColumnMax(Column(catalog, m));
      top >= 0.0 ==> r.hi as real <= top < r.hi as real + 1.0
  {
    Range(0, Trunc(ColumnMax(Column(catalog, m))))
  }

  /** The default bounds of the four sliders. There are none for an empty
      catalog: the maximum of an empty column is NaN and `int` raises. */
  function DefaultBounds(catalog: seq<Recipe>): (r: Option<Bounds>)
    ensures r.Some? <==> |catalog| > 0
  {
    if |catalog| == 0 then None
    else
      Some(Bounds(DefaultRange(catalog, Protein), DefaultRange(catalog, Calories),
                  DefaultRange(catalog, Fats), DefaultRange(catalog, Carbs)))
  }

  lemma DefaultRangeOf(catalog: seq<Recipe>, m: Macro)
    requires |catalog| > 0
    ensures RangeOf(DefaultBounds(catalog).value, m) == DefaultRange(catalog, m)
  {
  }

  /** Under the default bounds, a recipe whose macro is negative or above
      the truncated column maximum is not listed. */
  lemma DefaultsExclude(catalog: seq<Recipe>, x: Recipe, m: Macro, input: string)
    requires x in catalog
    requires MacroOf(x, m) < 0.0 || MacroOf(x, m) > Trunc(ColumnMax(Column(catalog, m))) as real
    ensures x !in FilterRecipes(catalog, DefaultBounds(catalog).value, input)
  {
    DefaultRangeOf(catalog, m);
  }

  /** When a column's maximum has a fractional part, the recipe attaining
      it is itself excluded under the default bounds. */
  lemma FractionalMaximumExcluded(catalog: seq<Recipe>, m: Macro, input: string) returns (x: Recipe)
    requires |catalog| > 0
    requires var top := ColumnMax(Column(catalog, m)); top >= 0.0 && top != top.Floor as real
    ensures x in catalog && MacroOf(x, m) == ColumnMax(Column(catalog, m))
    ensures x !in FilterRecipes(catalog, DefaultBounds(catalog).value, input)
  {
    var vals := Column(catalog, m);
    var i :| 0 <= i < |vals| && vals[i] == ColumnMax(vals);
    x := catalog[i];
    DefaultsExclude(catalog, x, m, input);
  }

  /** With whole, non-negative macros and an empty ingredient box, the
      default bounds list the whole catalog. */
  lemma DefaultsKeepWholeCatalog(catalog: seq<Recipe>)
    requires |catalog| > 0
    requires forall i, m :: 0 <= i < |catalog| ==>
      0.0 <= MacroOf(catalog[i], m) && MacroOf(catalog[i], m) == MacroOf(catalog[i], m).Floor as real
    ensures FilterRecipes(catalog, DefaultBounds(catalog).value, "") == catalog
  {
    var b := DefaultBounds(catalog).value;
    forall i | 0 <= i < |catalog|
      ensures WithinBounds(catalog[i], b)
    {
      forall m
        ensures InRange(MacroOf(catalog[i], m), RangeOf(b, m))
      {
        var v := MacroOf(catalog[i], m);
        var top := ColumnMax(Column(catalog, m));
        DefaultRangeOf(catalog, m);
        assert Column(catalog, m)[i] == v;
        assert v.Floor <= top.Floor;
      }
      assert InRange(MacroOf(catalog[i], Protein), RangeOf(b, Protein));
      assert InRange(MacroOf(catalog[i], Calories), RangeOf(b, Calories));
      assert InRange(MacroOf(catalog[i], Fats), RangeOf(b, Fats));
      assert InRange(MacroOf(catalog[i], Carbs), RangeOf(b, Carbs));
    }
  }

  /** `data[data['id'] == id].index[0]`: the first catalog position holding
      the id. */
  function Position(catalog: seq<Recipe>, id: int): (r: Option<nat>)
    ensures r.None? <==> forall j :: 0 <= j < |catalog| ==> catalog[j].id != id
    ensures r.Some? ==> r.value < |catalog| && catalog[r.value].id == id
    ensures r.Some? ==> forall j :: 0 <= j < r.value ==> catalog[j].id != id
  {
    if catalog == [] then None
    else if catalog[0].id == id then Some(0)
    else
      match Position(catalog[1..], id)
      case None => None
      case Some(k) => Some(k + 1)
  }

  predicate UniqueIds(catalog: seq<Recipe>)
  {
    forall i, j :: 0 <= i < j < |catalog| ==> catalog[i].id != catalog[j].id
  }

  /** `listed` names, entry by entry and in the same order, the catalog
      recipes at the positions of the ranked pairs `t`. */
  predicate ListsRanked(catalog: seq<Recipe>, t: seq<Scored>, listed: seq<Recipe>)
  {
    |listed| == |t| && forall k :: 0 <= k < |t| ==> t[k].index < |catalog| && listed[k] == catalog[t[k].index]
  }

  /** Every listed recipe sits at a catalog position that is not the
      lowest-index maximum of `row`. */
  predicate AvoidsLowestIndexMaximum(catalog: seq<Recipe>, row: seq<real>, listed: seq<Recipe>)
  {
    forall k :: 0 <= k < |listed| ==>
      exists j :: 0 <= j < |catalog| && listed[k] == catalog[j] && !LowestIndexMaximum(row, j)
  }

  /** The similar recipes the page lists for the selected id, as written:
      the similarity row at the selected recipe's position is ranked, its
      first entry is skipped and the next five are listed, drawn from the
      whole catalog rather than from the filtered list. The skipped entry
      is the lowest-index maximum of the row, so no listed recipe sits at
      that position. Nothing is listed when the id is not in the catalog. */
  function Suggestions(catalog: seq<Recipe>, sim: seq<seq<real>>, id: int): (r: Option<seq<Recipe>>)
    requires |sim| == |catalog| && forall i :: 0 <= i < |sim| ==> |sim[i]| == |catalog|
    ensures r.Some? <==> exists i :: 0 <= i < |catalog| && catalog[i].id == id
    ensures r.Some? ==> |r.value| == Min(5, |catalog| - 1)
    ensures r.Some? ==> forall k :: 0 <= k < |r.value| ==> r.value[k] in catalog
    ensures r.Some? ==> AvoidsLowestIndexMaximum(catalog, sim[Position(catalog, id).value], r.value)
    ensures r.Some? ==> ListsRanked(catalog, TopFive(sim[Position(catalog, id).value]), r.value)
  {
    match Position(catalog, id)
    case None => None
    case Some(p) =>
      var t := TopFive(sim[p]);
      var r := seq(|t|, k requires 0 <= k < |t| => catalog[t[k].index]);
      forall k | 0 <= k < |r|
        ensures r[k] in catalog
        ensures exists j :: 0 <= j < |catalog| && r[k] == catalog[j] && !LowestIndexMaximum(sim[p], j)
      {
        assert 0 <= t[k].index < |catalog|;
        var j := t[k].index;
        TopFiveSkipsLowestIndexMaximum(sim[p], k);
        assert r[k] == catalog[j] && !LowestIndexMaximum(sim[p], j);
      }
      assert AvoidsLowestIndexMaximum(catalog, sim[p], r);
      assert ListsRanked(catalog, t, r);
      Some(r)
  }

  /** The intended list: the five best-scored recipes other than the
      selected one. With unique ids, the selected recipe is never listed. */
  function SuggestionsExcludingSelf(catalog: seq<Recipe>, sim: seq<seq<real>>, id: int): (r: Option<seq<Recipe>>)
    requires |sim| == |catalog| && forall i :: 0 <= i < |sim| ==> |sim[i]| == |catalog|
    ensures r.Some? <==> exists i :: 0 <= i < |catalog| && catalog[i].id == id
    ensures r.Some? ==> |r.value| == Min(5, |catalog| - 1)
    ensures r.Some? ==> forall k :: 0 <= k < |r.value| ==> r.value[k] in catalog
    ensures r.Some? && UniqueIds(catalog) ==> forall k :: 0 <= k < |r.value| ==> r.value[k].id != id
    ensures r.Some? ==> var p := Position(catalog, id).value;
      ListsRanked(catalog, TopFiveExcluding(sim[p], p), r.value)
  {
    match Position(catalog, id)
    case None => None
    case Some(p) =>
      var t := TopFiveExcluding(sim[p], p);
      var r := seq(|t|, k requires 0 <= k < |t| => catalog[t[k].index]);
      assert ListsRanked(catalog, t, r);
      Some(r)
  }

  /** Two recipes with equal similarity rows, the second selected: the page
      lists the selected recipe as similar to itself. */
  lemma SuggestionsCanListSelf(a: Recipe, b: Recipe)
    requires a.id == 0 && b.id == 1
    ensures Suggestions([a, b], [[1.0, 1.0], [1.0, 1.0]], 1) == Some([b])
  {
    var catalog := [a, b];
    var sim := [[1.0, 1.0], [1.0, 1.0]];
    assert Position(catalog, 1) == Some(1) by {
      assert catalog[1..] == [b];
    }
    assert sim[1] == [1.0, 1.0];
    TopFiveCanKeepSelf();
    var listed := seq(1, k requires 0 <= k < 1 => catalog[TopFive(sim[1])[k].index]);
    assert listed == [b];
  }

  /** Three recipes, the first selected with scores 1.0, 0.5 and 0.9: the
      page lists the third recipe, then the second, in score order. */
  lemma SuggestionsFollowRanking(a: Recipe, b: Recipe, c: Recipe)
    requires a.id == 0 && b.id == 1 && c.id == 2
    ensures Suggestions([a, b, c], [[1.0, 0.5, 0.9], [0.5, 1.0, 0.2], [0.9, 0.2, 1.0]], 0) == Some([c, b])
  {
    var catalog := [a, b, c];
    var sim := [[1.0, 0.5, 0.9], [0.5, 1.0, 0.2], [0.9, 0.2, 1.0]];
    var row := sim[0];
    assert Position(catalog, 0) == Some(0);
    TopFiveInScoreOrder(row);
    var r := Suggestions(catalog, sim, 0);
    assert r.Some? && ListsRanked(catalog, TopFive(row), r.value);
    assert r.value[0] == c && r.value[1] == b;
    assert r.value == [c, b];
  }

  /** On the same input the intended list holds the other recipe. */
  lemma SuggestionsExcludingSelfListsOther(a: Recipe, b: Recipe)
    requires a.id == 0 && b.id == 1
    ensures SuggestionsExcludingSelf([a, b], [[1.0, 1.0], [1.0, 1.0]], 1) == Some([a])
  {
    var catalog := [a, b];
    var sim := [[1.0, 1.0], [1.0, 1.0]];
    assert Position(catalog, 1) == Some(1) by {
      assert catalog[1..] == [b];
    }
    assert sim[1] == [1.0, 1.0];
    var t := TopFiveExcluding(sim[1], 1);
    assert |t| == 1 && t[0].index == 0;
    var listed := seq(|t|, k requires 0 <= k < |t| => catalog[t[k].index]);
    assert listed == [a];
  }
}
