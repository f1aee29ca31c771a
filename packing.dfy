/**
 * The column-packing engine of pdf_generation.py: the first-fit-decreasing
 * fill (`sort_categories_for_best_fit`) and the sequential fill
 * (`fit_sorted_categories`). Each fill is a method with the source's loop, the
 * reference definition being a fold of one placement step over the
 * categories; the properties are proved about the folds.
 */
module Packing {
  import opened Results
  import opened Layout
  import opened Ordering

  /** The columns being built and, column by column, the height still free in each. */
  datatype FillState = FillState(columns: seq<Column>, budgets: seq<real>)

  predicate Shaped(p: FillState) {
    |p.columns| == |p.budgets| >= 1
  }

  /** Both fills start from one empty column holding the whole usable height. */
  function Initial(s: Settings): (p: FillState)
    ensures Shaped(p)
  {
    FillState([[]], [UsableHeight(s)])
  }

  /** The total height charged to a column. */
  function ColumnHeight(s: Settings, col: Column): real {
    if col == [] then 0.0 else ColumnHeight(s, col[..|col| - 1]) + Height(s, col[|col| - 1])
  }

  /** All columns concatenated. */
  function Flatten(cols: seq<Column>): seq<Category> {
    if cols == [] then [] else Flatten(cols[..|cols| - 1]) + cols[|cols| - 1]
  }

  /** The lowest-index column whose remaining height can take `h`. */
  function FirstSuitable(budgets: seq<real>, h: real): (r: Option<nat>)
    ensures r.Some? ==> r.value < |budgets| && budgets[r.value] - h >= 0.0
    ensures r.Some? ==> forall k :: 0 <= k < r.value ==> budgets[k] - h < 0.0
    ensures r.None? ==> forall k :: 0 <= k < |budgets| ==> budgets[k] - h < 0.0
  {
    if budgets == [] then None
    else if budgets[0] - h >= 0.0 then Some(0)
    else match FirstSuitable(budgets[1..], h)
      case None => None
      case Some(i) => Some(i + 1)
  }

  /** One step of best-fit: the first column with room, else a new column. */
  function PlaceFirstFit(s: Settings, p: FillState, c: Category): (r: FillState)
    requires Shaped(p)
    ensures Shaped(r)
  {
    var h := Height(s, c);
    match FirstSuitable(p.budgets, h)
    case Some(i) => FillState(p.columns[i := p.columns[i] + [c]], p.budgets[i := p.budgets[i] - h])
    case None => FillState(p.columns + [[c]], p.budgets + [UsableHeight(s) - h])
  }

  /** One step of the sequential fill: the last column if it has room, else a new column. */
  function PlaceLast(s: Settings, p: FillState, c: Category): (r: FillState)
    requires Shaped(p)
    ensures Shaped(r)
  {
    var h := Height(s, c);
    var last := |p.columns| - 1;
    if p.budgets[last] - h >= 0.0 then
      FillState(p.columns[last := p.columns[last] + [c]], p.budgets[last := p.budgets[last] - h])
    else
      FillState(p.columns + [[c]], p.budgets + [UsableHeight(s) - h])
  }

  function FirstFitAll(s: Settings, p: FillState, cats: seq<Category>): (r: FillState)
    requires Shaped(p)
    ensures Shaped(r)
    ensures |r.columns| >= |p.columns|
    decreases |cats|
  {
    if cats == [] then p
    else PlaceFirstFit(s, FirstFitAll(s, p, cats[..|cats| - 1]), cats[|cats| - 1])
  }

  function AppendAll(s: Settings, p: FillState, cats: seq<Category>): (r: FillState)
    requires Shaped(p)
    ensures Shaped(r)
    ensures |r.columns| >= |p.columns|
    decreases |cats|
  {
    if cats == [] then p
    else PlaceLast(s, AppendAll(s, p, cats[..|cats| - 1]), cats[|cats| - 1])
  }

  /** The key of the best-fit ordering. */
  function HeightKey(s: Settings): Category -> real {
    c => Height(s, c)
  }

  /** `sorted(categories.items(), key=height, reverse=True)`. */
  function ByHeightDescending(s: Settings, cats: seq<Category>): (r: seq<Category>)
    ensures multiset(r) == multiset(cats)
  {
    SortBy(cats, HeightKey(s), AtLeast)
  }

  /** The packing state that best-fit ends in. */
  function BestFitPacking(s: Settings, cats: seq<Category>): (p: FillState)
    ensures Shaped(p)
  {
    FirstFitAll(s, Initial(s), ByHeightDescending(s, cats))
  }

  /** The packing state that the sequential fill ends in. */
  function SequentialPacking(s: Settings, sorted: seq<Category>): (p: FillState)
    ensures Shaped(p)
  {
    AppendAll(s, Initial(s), sorted)
  }

  /** The scan for the first column with enough remaining space. */
  method FindSuitableColumn(columnHeights: seq<real>, categoryHeight: real) returns (suitable: Option<nat>)
    ensures suitable == FirstSuitable(columnHeights, categoryHeight)
  {
    suitable := None;
    var i := 0;
    while i < |columnHeights|
      invariant 0 <= i <= |columnHeights|
      invariant forall k :: 0 <= k < i ==> columnHeights[k] - categoryHeight < 0.0
    {
      if columnHeights[i] - categoryHeight >= 0.0 {
        suitable := Some(i);
        break;
      }
      i := i + 1;
    }
  }

  lemma FirstFitAllStep(s: Settings, cats: seq<Category>, n: nat)
    requires n < |cats|
    ensures FirstFitAll(s, Initial(s), cats[..n + 1]) == PlaceFirstFit(s, FirstFitAll(s, Initial(s), cats[..n]), cats[n])
  {
    assert cats[..n + 1][..n] == cats[..n];
  }

  lemma PlaceIntoColumn(s: Settings, p: FillState, c: Category, i: nat)
    requires Shaped(p) && FirstSuitable(p.budgets, Height(s, c)) == Some(i)
    ensures PlaceFirstFit(s, p, c) == FillState(p.columns[i := p.columns[i] + [c]], p.budgets[i := p.budgets[i] - Height(s, c)])
  {
  }

  lemma PlaceInNewColumn(s: Settings, p: FillState, c: Category)
    requires Shaped(p) && FirstSuitable(p.budgets, Height(s, c)) == None
    ensures PlaceFirstFit(s, p, c) == FillState(p.columns + [[c]], p.budgets + [UsableHeight(s) - Height(s, c)])
  {
  }

  /** `sort_categories_for_best_fit`: first-fit-decreasing over the categories. */
  method SortCategoriesForBestFit(s: Settings, categories: seq<Category>) returns (columns: seq<Column>)
    ensures columns == BestFitPacking(s, categories).columns
    ensures categories == [] ==> columns == [[]]
  {
    var sorted := ByHeightDescending(s, categories);
    columns := FillFirstFit(s, sorted);
  }

  /** The placement loop of `sort_categories_for_best_fit`, over the categories already sorted. */
  method FillFirstFit(s: Settings, sorted: seq<Category>) returns (columns: seq<Column>)
    ensures columns == FirstFitAll(s, Initial(s), sorted).columns
    ensures sorted == [] ==> columns == [[]]
  {
    columns := [[]];
    var columnHeights := [UsableHeight(s)];
    var n := 0;
    while n < |sorted|
      invariant 0 <= n <= |sorted|
      invariant FillState(columns, columnHeights) == FirstFitAll(s, Initial(s), sorted[..n])
    {
      var c := sorted[n];
      var h := Height(s, c);
      FirstFitAllStep(s, sorted, n);
      var suitable := FindSuitableColumn(columnHeights, h);
      ghost var before := FillState(columns, columnHeights);
      if suitable.Some? && columnHeights[suitable.value] - h >= 0.0 {
        PlaceIntoColumn(s, before, c, suitable.value);
        columns := columns[suitable.value := columns[suitable.value] + [c]];
        columnHeights := columnHeights[suitable.value := columnHeights[suitable.value] - h];
      } else {
        PlaceInNewColumn(s, before, c);
        columns := columns + [[c]];
        columnHeights := columnHeights + [UsableHeight(s) - h];
      }
      assert FillState(columns, columnHeights) == PlaceFirstFit(s, before, c);
      n := n + 1;
    }
    assert sorted[..n] == sorted;
  }

  /** `fit_sorted_categories`: appends to the last column only. */
  method FitSortedCategories(s: Settings, sortedCategories: seq<Category>) returns (columns: seq<Column>)
    ensures columns == SequentialPacking(s, sortedCategories).columns
    ensures sortedCategories == [] ==> columns == [[]]
  {
    columns := [[]];
    var columnHeights := [UsableHeight(s)];
    var n := 0;
    while n < |sortedCategories|
      invariant 0 <= n <= |sortedCategories|
      invariant FillState(columns, columnHeights) == AppendAll(s, Initial(s), sortedCategories[..n])
    {
      var c := sortedCategories[n];
      var h := Height(s, c);
      assert sortedCategories[..n + 1][..n] == sortedCategories[..n];
      var last := |columnHeights| - 1;
      if columnHeights[last] - h >= 0.0 {
        columns := columns[last := columns[last] + [c]];
        columnHeights := columnHeights[last := columnHeights[last] - h];
      } else {
        columns := columns + [[c]];
        columnHeights := columnHeights + [UsableHeight(s) - h];
      }
      n := n + 1;
    }
    assert sortedCategories[..n] == sortedCategories;
  }
}
