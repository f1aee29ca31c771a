/**
 * The column/page walk of `generate_pdf`: draw calls are abstracted to the
 * cursor movements they cause, and each column is recorded as the slot
 * (page, x offset, final y) it is drawn in.
 */
module Renderer {
  import opened Results
  import opened Layout
  import opened Packing
  import opened PackingProperties
  import opened Strategies

  /** Where one column lands: the page (number of page breaks before it), its x offset and the cursor's final y. */
  datatype Slot = Slot(page: nat, x: real, bottom: real)

  /** The walk's outcome: one slot per column and the number of page breaks taken. */
  datatype Rendering = Rendering(slots: seq<Slot>, pages: nat)

  function LeftEdge(s: Settings): real { s.leftMargin * INCH }
  function TopEdge(s: Settings): real { s.pageHeight * INCH - s.topMargin * INCH }
  /** The distance from one column to the next: the column width plus the gutter. */
  function ColumnStep(s: Settings): real { s.colWidth * INCH + s.colSpacing }

  /**
   * Columns per page. The walk breaks the page after column k (counting from
   * one) when k % num_columns == 0; Python's remainder is zero exactly at the
   * multiples of |num_columns|, as Dafny's is.
   */
  function PerPage(s: Settings): (n: nat)
    requires s.numColumns != 0
    ensures n >= 1 && (n == s.numColumns || n == -s.numColumns)
  {
    if s.numColumns < 0 then -s.numColumns else s.numColumns
  }

  lemma RemainderOfPerPage(k: int, s: Settings)
    requires s.numColumns != 0
    ensures k % s.numColumns == k % PerPage(s)
  {
    var n := s.numColumns;
    if n < 0 {
      ModOfNegative(k, n);
    }
  }

  lemma ModOfNegative(k: int, n: int)
    requires n < 0
    ensures k % n == k % -n
  {
  }

  /** The slot column `i` of a walk must land in. */
  function SlotOf(s: Settings, columns: seq<Column>, i: nat): Slot
    requires s.numColumns != 0 && i < |columns|
  {
    Slot(i / PerPage(s), LeftEdge(s) + (i % PerPage(s)) as real * ColumnStep(s), TopEdge(s) - ColumnHeight(s, columns[i]))
  }

  /** One header and its items: draw_header, the header spacing, one draw_item per item, the category padding. */
  method DrawCategory(s: Settings, c: Category, y: real) returns (yEnd: real)
    ensures yEnd == y - Height(s, c)
  {
    var currentY := y - (s.headerFontSize + s.rowSpacing);
    currentY := currentY - s.headerSpacing * s.headerFontSize;
    var k := 0;
    while k < |c.items|
      invariant 0 <= k <= |c.items|
      invariant currentY == y - (s.headerFontSize + s.rowSpacing) - s.headerSpacing * s.headerFontSize - k as real * RowHeight(s)
    {
      currentY := currentY - (s.itemFontSize + s.rowSpacing);
      k := k + 1;
    }
    currentY := currentY - s.categorySpacing * s.headerFontSize;
    yEnd := currentY;
  }

  /** All categories of one column, top down from `y`. */
  method DrawColumn(s: Settings, column: Column, y: real) returns (bottom: real)
    ensures bottom == y - ColumnHeight(s, column)
  {
    var currentY := y;
    var n := 0;
    while n < |column|
      invariant 0 <= n <= |column|
      invariant currentY == y - ColumnHeight(s, column[..n])
    {
      assert column[..n + 1][..n] == column[..n];
      currentY := DrawCategory(s, column[n], currentY);
      n := n + 1;
    }
    assert column[..n] == column;
    bottom := currentY;
  }

  lemma {:induction false} MulAtLeast(d: int, n: int)
    requires n >= 1
    ensures d >= 1 ==> d * n >= n
    decreases if d > 0 then d else 0
  {
    if d > 1 {
      MulAtLeast(d - 1, n);
      assert d * n == (d - 1) * n + n;
    }
  }

  lemma MulSmallIsZero(d: int, n: int)
    requires n >= 1 && -n < d * n < n
    ensures d == 0
  {
    MulAtLeast(d, n);
    MulAtLeast(-d, n);
    assert (-d) * n == -(d * n);
  }

  lemma DivModUnique(a: int, n: int, q: int, r: int)
    requires n >= 1 && a == q * n + r && 0 <= r < n
    ensures a / n == q && a % n == r
  {
    var q', r' := a / n, a % n;
    assert a == q' * n + r';
    assert (q - q') * n == r' - r;
    MulSmallIsZero(q - q', n);
  }

  /** Counting columns modulo `num_columns`: one more column either wraps to a new page or moves one slot right. */
  lemma DivModStep(k: nat, n: int)
    requires n >= 1
    ensures (k + 1) % n == 0 ==> (k + 1) / n == k / n + 1
    ensures (k + 1) % n != 0 ==> (k + 1) / n == k / n && (k + 1) % n == k % n + 1
  {
    var q, r := k / n, k % n;
    assert k == q * n + r;
    if r + 1 == n {
      DivModUnique(k + 1, n, q + 1, 0);
    } else {
      DivModUnique(k + 1, n, q, r + 1);
    }
  }

  lemma NextSlotRight(x: real, k: nat, step: real)
    ensures x + k as real * step + step == x + (k + 1) as real * step
  {
  }

  /**
   * The loop of `generate_pdf` over the columns: after every `num_columns`-th
   * column a page break resets x; otherwise x advances by one column step.
   */
  method WalkColumns(s: Settings, columns: seq<Column>) returns (slots: seq<Slot>, pages: nat)
    requires s.numColumns != 0
    ensures |slots| == |columns|
    ensures pages == |columns| / PerPage(s)
    ensures forall i :: 0 <= i < |columns| ==> slots[i] == SlotOf(s, columns, i)
  {
    var n := PerPage(s);
    var x, y := LeftEdge(s), TopEdge(s);
    var currentX := x;
    pages := 0;
    slots := [];
    var colNum := 0;
    while colNum < |columns|
      invariant 0 <= colNum <= |columns|
      invariant |slots| == colNum
      invariant pages == colNum / n
      invariant currentX == x + (colNum % n) as real * ColumnStep(s)
      invariant forall i :: 0 <= i < colNum ==> slots[i] == SlotOf(s, columns, i)
    {
      var bottom := DrawColumn(s, columns[colNum], y);
      assert Slot(pages, currentX, bottom) == SlotOf(s, columns, colNum);
      slots := slots + [Slot(pages, currentX, bottom)];
      DivModStep(colNum, n);
      RemainderOfPerPage(colNum + 1, s);
      if (colNum + 1) % s.numColumns == 0 {
        pages := pages + 1;
        currentX := x;
      } else {
        NextSlotRight(x, colNum % n, ColumnStep(s));
        currentX := currentX + ColumnStep(s);
      }
      colNum := colNum + 1;
    }
  }

  /**
   * `generate_pdf` without the canvas: arrange the categories, then walk the
   * columns. Every arrangement has a column, so a zero `num_columns` raises
   * at the first page-break test.
   */
  method GeneratePdf(s: Settings, categories: seq<Category>, toFloat: string -> Option<real>) returns (r: Result<Rendering>)
    ensures SortCategoriesByMethod(s, categories, toFloat).Err? ==> r == Err(SortCategoriesByMethod(s, categories, toFloat).error)
    ensures SortCategoriesByMethod(s, categories, toFloat).Ok? && s.numColumns == 0 ==> r == Err(ZeroDivision)
    ensures r.Ok? <==> SortCategoriesByMethod(s, categories, toFloat).Ok? && s.numColumns != 0
    ensures r.Ok? ==> var columns := SortCategoriesByMethod(s, categories, toFloat).value;
      |r.value.slots| == |columns| && r.value.pages == |columns| / PerPage(s) &&
      forall i :: 0 <= i < |columns| ==> r.value.slots[i] == SlotOf(s, columns, i)
  {
    match SortCategoriesByMethod(s, categories, toFloat) {
      case Err(e) =>
        r := Err(e);
      case Ok(columns) =>
        if s.numColumns == 0 {
          r := Err(ZeroDivision);
        } else {
          var slots, pages := WalkColumns(s, columns);
          r := Ok(Rendering(slots, pages));
        }
    }
  }

  /**
   * A packed column is drawn down to the bottom margin plus its remaining
   * budget, so the cursor goes below the bottom margin only for a column
   * holding a single category taller than the usable height.
   */
  lemma {:induction false} ColumnsStayAboveBottomMargin(s: Settings, p: FillState)
    requires BudgetsConsistent(s, p)
    ensures forall j :: 0 <= j < |p.columns| ==>
      TopEdge(s) - ColumnHeight(s, p.columns[j]) == s.bottomMargin * INCH + p.budgets[j]
    ensures forall j :: (0 <= j < |p.columns| && p.columns[j] != [] &&
      TopEdge(s) - ColumnHeight(s, p.columns[j]) < s.bottomMargin * INCH) ==>
      j > 0 && |p.columns[j]| == 1 && Height(s, p.columns[j][0]) > UsableHeight(s)
  {
    forall j | 0 <= j < |p.columns| && p.columns[j] != [] && TopEdge(s) - ColumnHeight(s, p.columns[j]) < s.bottomMargin * INCH
      ensures j > 0 && |p.columns[j]| == 1 && Height(s, p.columns[j][0]) > UsableHeight(s)
    {
      assert p.budgets[j] < 0.0;
      var col := p.columns[j];
      assert col[..0] == [];
      assert ColumnHeight(s, col) == ColumnHeight(s, col[..0]) + Height(s, col[0]);
    }
  }

  /** Both fills keep every drawn column above the bottom margin, apart from single oversize categories. */
  lemma PackedColumnsStayAboveBottomMargin(s: Settings, cats: seq<Category>)
    ensures forall j :: (0 <= j < |BestFitPacking(s, cats).columns| && BestFitPacking(s, cats).columns[j] != [] &&
      TopEdge(s) - ColumnHeight(s, BestFitPacking(s, cats).columns[j]) < s.bottomMargin * INCH) ==>
      j > 0 && |BestFitPacking(s, cats).columns[j]| == 1
    ensures forall j :: (0 <= j < |SequentialPacking(s, cats).columns| && SequentialPacking(s, cats).columns[j] != [] &&
      TopEdge(s) - ColumnHeight(s, SequentialPacking(s, cats).columns[j]) < s.bottomMargin * INCH) ==>
      j > 0 && |SequentialPacking(s, cats).columns[j]| == 1
  {
    BestFitBudgets(s, cats);
    ColumnsStayAboveBottomMargin(s, BestFitPacking(s, cats));
    SequentialBudgets(s, cats);
    ColumnsStayAboveBottomMargin(s, SequentialPacking(s, cats));
  }
}
