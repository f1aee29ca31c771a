/**
 * What the two fills of pdf_generation.py guarantee: the columns partition
 * the input, every column's budget is the usable height less what it holds,
 * best-fit is first-fit over a stable non-increasing order, and the
 * sequential fill keeps the input order and breaks only where a category
 * does not fit.
 */
module PackingProperties {
  import opened Results
  import opened Layout
  import opened Ordering
  import opened Packing

  lemma ColumnHeightAppend(s: Settings, col: Column, c: Category)
    ensures ColumnHeight(s, col + [c]) == ColumnHeight(s, col) + Height(s, c)
  {
    assert (col + [c])[..|col|] == col;
  }

  lemma FlattenAppendColumn(cols: seq<Column>, col: Column)
    ensures Flatten(cols + [col]) == Flatten(cols) + col
  {
    assert (cols + [col])[..|cols|] == cols;
  }

  lemma FlattenExtendLast(cols: seq<Column>, c: Category)
    requires |cols| >= 1
    ensures Flatten(cols[|cols| - 1 := cols[|cols| - 1] + [c]]) == Flatten(cols) + [c]
  {
    var last := |cols| - 1;
    var cols' := cols[last := cols[last] + [c]];
    assert cols'[..last] == cols[..last];
  }

  lemma {:induction false} FlattenExtendAny(cols: seq<Column>, i: nat, c: Category)
    requires i < |cols|
    ensures multiset(Flatten(cols[i := cols[i] + [c]])) == multiset(Flatten(cols)) + multiset{c}
  {
    var last := |cols| - 1;
    var cols' := cols[i := cols[i] + [c]];
    if i == last {
      FlattenExtendLast(cols, c);
    } else {
      FlattenExtendAny(cols[..last], i, c);
      assert cols'[..last] == cols[..last][i := cols[i] + [c]];
      assert cols'[last] == cols[last];
    }
  }

  /** Best-fit moves categories into columns and never loses, duplicates or splits one. */
  lemma {:induction false} FirstFitAllItems(s: Settings, p: FillState, cats: seq<Category>)
    requires Shaped(p)
    ensures multiset(Flatten(FirstFitAll(s, p, cats).columns)) == multiset(Flatten(p.columns)) + multiset(cats)
  {
    if cats != [] {
      var init := cats[..|cats| - 1];
      var c := cats[|cats| - 1];
      FirstFitAllItems(s, p, init);
      var q := FirstFitAll(s, p, init);
      assert cats == init + [c];
      assert multiset(cats) == multiset(init) + multiset{c};
      var r := PlaceFirstFit(s, q, c);
      assert FirstFitAll(s, p, cats) == r;
      match FirstSuitable(q.budgets, Height(s, c)) {
        case Some(i) =>
          assert r.columns == q.columns[i := q.columns[i] + [c]];
          FlattenExtendAny(q.columns, i, c);
        case None =>
          assert r.columns == q.columns + [[c]];
          FlattenAppendColumn(q.columns, [c]);
      }
    }
  }

  /** Every best-fit output is a partition of the input categories, each `(name, items)` pair unchanged. */
  lemma BestFitIsPartition(s: Settings, cats: seq<Category>)
    ensures multiset(Flatten(BestFitPacking(s, cats).columns)) == multiset(cats)
  {
    FirstFitAllItems(s, Initial(s), ByHeightDescending(s, cats));
    assert Flatten([[]]) == [];
  }

  lemma {:induction false} AppendAllOrder(s: Settings, p: FillState, cats: seq<Category>)
    requires Shaped(p)
    ensures Flatten(AppendAll(s, p, cats).columns) == Flatten(p.columns) + cats
  {
    if cats != [] {
      var init := cats[..|cats| - 1];
      var c := cats[|cats| - 1];
      AppendAllOrder(s, p, init);
      var q := AppendAll(s, p, init);
      if q.budgets[|q.columns| - 1] - Height(s, c) >= 0.0 {
        FlattenExtendLast(q.columns, c);
      } else {
        FlattenAppendColumn(q.columns, [c]);
      }
      assert cats == init + [c];
    }
  }

  /** Concatenating the columns of the sequential fill gives back its input exactly. */
  lemma SequentialPreservesOrder(s: Settings, cats: seq<Category>)
    ensures Flatten(SequentialPacking(s, cats).columns) == cats
  {
    AppendAllOrder(s, Initial(s), cats);
    assert Flatten([[]]) == [];
  }

  /**
   * The budget invariant of both fills: a column's remaining height is the
   * usable height less the heights it holds; only column 0 may be empty; and
   * a budget is negative only for an empty column 0 (margins exceeding the
   * page) or for a column holding one single category.
   */
  ghost predicate BudgetsConsistent(s: Settings, p: FillState) {
    Shaped(p) &&
    forall j :: 0 <= j < |p.columns| ==>
      p.budgets[j] == UsableHeight(s) - ColumnHeight(s, p.columns[j]) &&
      (j > 0 ==> p.columns[j] != []) &&
      (p.budgets[j] < 0.0 ==> (j == 0 && p.columns[j] == []) || (j > 0 && |p.columns[j]| == 1))
  }

  lemma ExtendKeepsBudgets(s: Settings, p: FillState, i: nat, c: Category)
    requires BudgetsConsistent(s, p)
    requires i < |p.columns| && p.budgets[i] - Height(s, c) >= 0.0
    ensures BudgetsConsistent(s, FillState(p.columns[i := p.columns[i] + [c]], p.budgets[i := p.budgets[i] - Height(s, c)]))
  {
    ColumnHeightAppend(s, p.columns[i], c);
  }

  lemma OpenKeepsBudgets(s: Settings, p: FillState, c: Category)
    requires BudgetsConsistent(s, p)
    ensures BudgetsConsistent(s, FillState(p.columns + [[c]], p.budgets + [UsableHeight(s) - Height(s, c)]))
  {
    ColumnHeightAppend(s, [], c);
  }

  lemma {:induction false} FirstFitAllKeepsBudgets(s: Settings, p: FillState, cats: seq<Category>)
    requires BudgetsConsistent(s, p)
    ensures BudgetsConsistent(s, FirstFitAll(s, p, cats))
  {
    if cats != [] {
      var c := cats[|cats| - 1];
      FirstFitAllKeepsBudgets(s, p, cats[..|cats| - 1]);
      var q := FirstFitAll(s, p, cats[..|cats| - 1]);
      match FirstSuitable(q.budgets, Height(s, c))
      case Some(i) => ExtendKeepsBudgets(s, q, i, c);
      case None => OpenKeepsBudgets(s, q, c);
    }
  }

  lemma {:induction false} AppendAllKeepsBudgets(s: Settings, p: FillState, cats: seq<Category>)
    requires BudgetsConsistent(s, p)
    ensures BudgetsConsistent(s, AppendAll(s, p, cats))
  {
    if cats != [] {
      var c := cats[|cats| - 1];
      AppendAllKeepsBudgets(s, p, cats[..|cats| - 1]);
      var q := AppendAll(s, p, cats[..|cats| - 1]);
      var last := |q.columns| - 1;
      if q.budgets[last] - Height(s, c) >= 0.0 {
        ExtendKeepsBudgets(s, q, last, c);
      } else {
        OpenKeepsBudgets(s, q, c);
      }
    }
  }

  lemma InitialBudgets(s: Settings)
    ensures BudgetsConsistent(s, Initial(s))
  {
  }

  /** The budget invariant holds of the columns best-fit returns. */
  lemma BestFitBudgets(s: Settings, cats: seq<Category>)
    ensures BudgetsConsistent(s, BestFitPacking(s, cats))
  {
    FirstFitAllKeepsBudgets(s, Initial(s), ByHeightDescending(s, cats));
  }

  /** The budget invariant holds of the columns the sequential fill returns. */
  lemma SequentialBudgets(s: Settings, cats: seq<Category>)
    ensures BudgetsConsistent(s, SequentialPacking(s, cats))
  {
    AppendAllKeepsBudgets(s, Initial(s), cats);
  }

  /**
   * The first-fit property as seen in the final columns: no category could have
   * gone into an earlier column, since every earlier column's remaining height
   * is smaller than the category's height.
   */
  ghost predicate NoEarlierFit(s: Settings, p: FillState)
    requires Shaped(p)
  {
    forall j, i, k :: 0 <= k < j < |p.columns| && 0 <= i < |p.columns[j]| ==>
      p.budgets[k] - Height(s, p.columns[j][i]) < 0.0
  }

  lemma PlaceFirstFitNoEarlierFit(s: Settings, p: FillState, c: Category)
    requires NonNegativeMetrics(s)
    requires Shaped(p) && NoEarlierFit(s, p)
    ensures NoEarlierFit(s, PlaceFirstFit(s, p, c))
  {
    var h := Height(s, c);
    HeightNonNegative(s, c);
    var r := PlaceFirstFit(s, p, c);
    match FirstSuitable(p.budgets, h)
    case Some(t) =>
      forall j, i, k | 0 <= k < j < |r.columns| && 0 <= i < |r.columns[j]|
        ensures r.budgets[k] - Height(s, r.columns[j][i]) < 0.0
      {
        if j == t && i == |p.columns[t]| {
          assert r.columns[j][i] == c;
        } else {
          assert r.columns[j][i] == p.columns[j][i];
          assert r.budgets[k] <= p.budgets[k];
        }
      }
    case None =>
      forall j, i, k | 0 <= k < j < |r.columns| && 0 <= i < |r.columns[j]|
        ensures r.budgets[k] - Height(s, r.columns[j][i]) < 0.0
      {
        if j == |p.columns| {
          assert r.columns[j][i] == c;
        } else {
          assert r.columns[j][i] == p.columns[j][i];
        }
      }
  }

  lemma {:induction false} FirstFitAllNoEarlierFit(s: Settings, p: FillState, cats: seq<Category>)
    requires NonNegativeMetrics(s)
    requires Shaped(p) && NoEarlierFit(s, p)
    ensures NoEarlierFit(s, FirstFitAll(s, p, cats))
  {
    if cats != [] {
      FirstFitAllNoEarlierFit(s, p, cats[..|cats| - 1]);
      PlaceFirstFitNoEarlierFit(s, FirstFitAll(s, p, cats[..|cats| - 1]), cats[|cats| - 1]);
    }
  }

  /**
   * Best-fit is first-fit: with non-negative font sizes and spacings, each
   * category sits in a column such that every earlier column has less room
   * left than the category needs.
   */
  lemma BestFitIsFirstFit(s: Settings, cats: seq<Category>)
    requires NonNegativeMetrics(s)
    ensures NoEarlierFit(s, BestFitPacking(s, cats))
  {
    FirstFitAllNoEarlierFit(s, Initial(s), ByHeightDescending(s, cats));
  }

  lemma {:induction false} FirstFitAllFirstColumn(s: Settings, p: FillState, cats: seq<Category>)
    requires BudgetsConsistent(s, p)
    ensures FirstFitAll(s, p, cats).columns[0] == [] <==>
      p.columns[0] == [] && forall c :: c in cats ==> UsableHeight(s) - Height(s, c) < 0.0
  {
    if cats != [] {
      var init := cats[..|cats| - 1];
      var c := cats[|cats| - 1];
      FirstFitAllFirstColumn(s, p, init);
      FirstFitAllKeepsBudgets(s, p, init);
      var q := FirstFitAll(s, p, init);
      assert cats == init + [c];
      if q.columns[0] == [] {
        assert q.budgets[0] == UsableHeight(s);
      }
    }
  }

  /**
   * Column 0 of best-fit stays empty exactly when every category is taller than
   * the usable height (in particular for empty input, which gives `[[]]`).
   */
  lemma BestFitFirstColumnEmpty(s: Settings, cats: seq<Category>)
    ensures BestFitPacking(s, cats).columns[0] == [] <==>
      forall c :: c in cats ==> UsableHeight(s) - Height(s, c) < 0.0
  {
    var sorted := ByHeightDescending(s, cats);
    FirstFitAllFirstColumn(s, Initial(s), sorted);
    assert forall c :: c in sorted <==> c in cats by {
      assert multiset(sorted) == multiset(cats);
      forall c ensures c in sorted <==> c in cats {
        assert c in sorted <==> multiset(sorted)[c] > 0;
        assert c in cats <==> multiset(cats)[c] > 0;
      }
    }
  }

  /**
   * Column 0 of the sequential fill stays empty exactly when the input is
   * empty or its first category is taller than the usable height.
   */
  lemma {:induction false} SequentialFirstColumnEmpty(s: Settings, cats: seq<Category>)
    ensures SequentialPacking(s, cats).columns[0] == [] <==>
      cats == [] || UsableHeight(s) - Height(s, cats[0]) < 0.0
  {
    SequentialPreservesOrder(s, cats);
    SequentialBudgets(s, cats);
    var p := SequentialPacking(s, cats);
    if cats != [] {
      if UsableHeight(s) - Height(s, cats[0]) < 0.0 {
        FirstOpenedColumn(s, cats);
      } else {
        FirstStaysInColumnZero(s, cats);
      }
    }
  }

  lemma {:induction false} FirstOpenedColumn(s: Settings, cats: seq<Category>)
    requires cats != [] && UsableHeight(s) - Height(s, cats[0]) < 0.0
    ensures SequentialPacking(s, cats).columns[0] == []
  {
    if |cats| == 1 {
      assert cats[..0] == [];
      assert AppendAll(s, Initial(s), cats[..0]) == Initial(s);
      assert SequentialPacking(s, cats) == PlaceLast(s, Initial(s), cats[0]);
    } else {
      assert cats[..|cats| - 1][0] == cats[0];
      FirstOpenedColumn(s, cats[..|cats| - 1]);
    }
  }

  lemma {:induction false} FirstStaysInColumnZero(s: Settings, cats: seq<Category>)
    requires cats != [] && UsableHeight(s) - Height(s, cats[0]) >= 0.0
    ensures SequentialPacking(s, cats).columns[0] != []
  {
    if |cats| == 1 {
      assert cats[..0] == [];
      assert AppendAll(s, Initial(s), cats[..0]) == Initial(s);
      assert SequentialPacking(s, cats) == PlaceLast(s, Initial(s), cats[0]);
    } else {
      assert cats[..|cats| - 1][0] == cats[0];
      FirstStaysInColumnZero(s, cats[..|cats| - 1]);
      var q := SequentialPacking(s, cats[..|cats| - 1]);
      var c := cats[|cats| - 1];
      var last := |q.columns| - 1;
      if q.budgets[last] - Height(s, c) >= 0.0 && last == 0 {
        assert SequentialPacking(s, cats).columns[0] == q.columns[0] + [c];
      }
    }
  }

  /**
   * A new column of the sequential fill is opened only when the category does
   * not fit the last column: every column after the first is non-empty and its
   * first category is taller than what the previous column has left.
   */
  ghost predicate BreaksWhereFull(s: Settings, p: FillState)
    requires Shaped(p)
  {
    forall j :: 1 <= j < |p.columns| ==>
      p.columns[j] != [] && p.budgets[j - 1] - Height(s, p.columns[j][0]) < 0.0
  }

  lemma {:induction false} AppendAllBreaksWhereFull(s: Settings, p: FillState, cats: seq<Category>)
    requires Shaped(p) && BreaksWhereFull(s, p)
    ensures BreaksWhereFull(s, AppendAll(s, p, cats))
  {
    if cats != [] {
      AppendAllBreaksWhereFull(s, p, cats[..|cats| - 1]);
      var q := AppendAll(s, p, cats[..|cats| - 1]);
      var c := cats[|cats| - 1];
      var last := |q.columns| - 1;
      var r := PlaceLast(s, q, c);
      assert AppendAll(s, p, cats) == r;
      if q.budgets[last] - Height(s, c) >= 0.0 {
        assert r.columns == q.columns[last := q.columns[last] + [c]];
        forall j | 1 <= j < |r.columns|
          ensures r.columns[j] != [] && r.budgets[j - 1] - Height(s, r.columns[j][0]) < 0.0
        {
          if j == last {
            assert q.columns[last] != [];
            assert r.columns[last] == q.columns[last] + [c];
          }
        }
      } else {
        assert r.columns == q.columns + [[c]];
        assert r.budgets == q.budgets + [UsableHeight(s) - Height(s, c)];
        forall j | 1 <= j < |r.columns|
          ensures r.columns[j] != [] && r.budgets[j - 1] - Height(s, r.columns[j][0]) < 0.0
        {
          if j == last + 1 {
            assert r.columns[j] == [c];
          }
        }
      }
    }
  }

  /** Where the sequential fill breaks: only before a category the last column had no room for. */
  lemma SequentialBreaks(s: Settings, cats: seq<Category>)
    ensures BreaksWhereFull(s, SequentialPacking(s, cats))
  {
    AppendAllBreaksWhereFull(s, Initial(s), cats);
  }

  /** With non-negative metrics a column prefix never weighs more than the whole column. */
  lemma {:induction false} ColumnHeightPrefix(s: Settings, col: Column, k: nat)
    requires NonNegativeMetrics(s) && k <= |col|
    ensures ColumnHeight(s, col[..k]) <= ColumnHeight(s, col)
    decreases |col|
  {
    if k < |col| {
      var init := col[..|col| - 1];
      assert col[..k] == init[..k];
      ColumnHeightPrefix(s, init, k);
      HeightNonNegative(s, col[|col| - 1]);
    } else {
      assert col[..k] == col;
    }
  }

  /**
   * Every category placed below another one in a column fitted the room that
   * column had left when it was placed.
   */
  lemma AppendedCategoriesFit(s: Settings, p: FillState)
    requires NonNegativeMetrics(s) && BudgetsConsistent(s, p)
    ensures forall j, i :: 0 <= j < |p.columns| && 1 <= i < |p.columns[j]| ==>
      UsableHeight(s) - ColumnHeight(s, p.columns[j][..i]) - Height(s, p.columns[j][i]) >= 0.0
  {
    forall j, i | 0 <= j < |p.columns| && 1 <= i < |p.columns[j]|
      ensures UsableHeight(s) - ColumnHeight(s, p.columns[j][..i]) - Height(s, p.columns[j][i]) >= 0.0
    {
      var col := p.columns[j];
      assert col[..i + 1][..i] == col[..i];
      ColumnHeightPrefix(s, col, i + 1);
    }
  }

  /**
   * Every category below the first in a column fitted the room that column
   * had left when it was placed: the test of both fills, as seen in a state.
   */
  ghost predicate AppendsFit(s: Settings, p: FillState) {
    forall j, i :: 0 <= j < |p.columns| && 1 <= i < |p.columns[j]| ==>
      UsableHeight(s) - ColumnHeight(s, p.columns[j][..i]) - Height(s, p.columns[j][i]) >= 0.0
  }

  lemma ExtendKeepsAppendsFit(s: Settings, p: FillState, k: nat, c: Category)
    requires BudgetsConsistent(s, p) && AppendsFit(s, p)
    requires k < |p.columns| && p.budgets[k] - Height(s, c) >= 0.0
    ensures AppendsFit(s, FillState(p.columns[k := p.columns[k] + [c]], p.budgets[k := p.budgets[k] - Height(s, c)]))
  {
    var cols := p.columns[k := p.columns[k] + [c]];
    forall j, i | 0 <= j < |cols| && 1 <= i < |cols[j]|
      ensures UsableHeight(s) - ColumnHeight(s, cols[j][..i]) - Height(s, cols[j][i]) >= 0.0
    {
      if j == k && i < |p.columns[k]| {
        assert cols[j][..i] == p.columns[k][..i];
        assert cols[j][i] == p.columns[k][i];
      } else if j == k {
        assert cols[j][..i] == p.columns[k];
      }
    }
  }

  lemma OpenKeepsAppendsFit(s: Settings, p: FillState, c: Category)
    requires AppendsFit(s, p)
    ensures AppendsFit(s, FillState(p.columns + [[c]], p.budgets + [UsableHeight(s) - Height(s, c)]))
  {
    var cols := p.columns + [[c]];
    assert forall j :: 0 <= j < |p.columns| ==> cols[j] == p.columns[j];
  }

  lemma {:induction false} FirstFitAllAppendsFit(s: Settings, p: FillState, cats: seq<Category>)
    requires BudgetsConsistent(s, p) && AppendsFit(s, p)
    ensures AppendsFit(s, FirstFitAll(s, p, cats))
  {
    if cats != [] {
      var c := cats[|cats| - 1];
      FirstFitAllKeepsBudgets(s, p, cats[..|cats| - 1]);
      FirstFitAllAppendsFit(s, p, cats[..|cats| - 1]);
      var q := FirstFitAll(s, p, cats[..|cats| - 1]);
      match FirstSuitable(q.budgets, Height(s, c))
      case Some(i) => ExtendKeepsAppendsFit(s, q, i, c);
      case None => OpenKeepsAppendsFit(s, q, c);
    }
  }

  lemma {:induction false} AppendAllAppendsFit(s: Settings, p: FillState, cats: seq<Category>)
    requires BudgetsConsistent(s, p) && AppendsFit(s, p)
    ensures AppendsFit(s, AppendAll(s, p, cats))
  {
    if cats != [] {
      var c := cats[|cats| - 1];
      AppendAllKeepsBudgets(s, p, cats[..|cats| - 1]);
      AppendAllAppendsFit(s, p, cats[..|cats| - 1]);
      var q := AppendAll(s, p, cats[..|cats| - 1]);
      var last := |q.columns| - 1;
      if q.budgets[last] - Height(s, c) >= 0.0 {
        ExtendKeepsAppendsFit(s, q, last, c);
      } else {
        OpenKeepsAppendsFit(s, q, c);
      }
    }
  }

  /**
   * The converse of SequentialBreaks: the sequential fill puts a category
   * below the previous one only when it fits, so it opens a new column
   * exactly when the category does not fit.
   */
  lemma SequentialAppendsWhereFit(s: Settings, cats: seq<Category>)
    ensures var r := SequentialPacking(s, cats);
      forall j, i :: 0 <= j < |r.columns| && 1 <= i < |r.columns[j]| ==>
        UsableHeight(s) - ColumnHeight(s, r.columns[j][..i]) - Height(s, r.columns[j][i]) >= 0.0
  {
    InitialBudgets(s);
    AppendAllAppendsFit(s, Initial(s), cats);
  }

  /** Best-fit likewise adds a category to an occupied column only when it fits. */
  lemma BestFitAppendsWhereFit(s: Settings, cats: seq<Category>)
    ensures var r := BestFitPacking(s, cats);
      forall j, i :: 0 <= j < |r.columns| && 1 <= i < |r.columns[j]| ==>
        UsableHeight(s) - ColumnHeight(s, r.columns[j][..i]) - Height(s, r.columns[j][i]) >= 0.0
  {
    InitialBudgets(s);
    FirstFitAllAppendsFit(s, Initial(s), ByHeightDescending(s, cats));
  }

  /**
   * The order best-fit considers the categories in: a permutation of the input,
   * by non-increasing height, categories of equal height in input order.
   */
  lemma BestFitOrder(s: Settings, cats: seq<Category>)
    ensures multiset(ByHeightDescending(s, cats)) == multiset(cats)
    ensures forall i, j :: 0 <= i < j < |cats| ==>
      Height(s, ByHeightDescending(s, cats)[i]) >= Height(s, ByHeightDescending(s, cats)[j])
    ensures forall h :: WithKey(ByHeightDescending(s, cats), HeightKey(s), h) == WithKey(cats, HeightKey(s), h)
  {
    assert TotalPreorder(AtLeast);
    SortBySorted(cats, HeightKey(s), AtLeast);
    forall h ensures WithKey(ByHeightDescending(s, cats), HeightKey(s), h) == WithKey(cats, HeightKey(s), h) {
      SortByStable(cats, HeightKey(s), AtLeast, h);
    }
  }
}
