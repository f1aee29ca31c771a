/**
 * A worked first-fit-decreasing example: categories of heights 10, 8, 6 and
 * 4 inches in columns of 14 inches pack as {10, 4} and {8, 6}; the 4 is
 * back-filled into the first column.
 */
module FfdExample {
  import opened Results
  import opened Layout
  import opened Ordering
  import opened Packing

  /** No header block and one inch per item row, in a column 14 inches high. */
  const EXAMPLE: Settings := Settings(
    pageWidth := 8.5, pageHeight := 14.0,
    leftMargin := 0.0, rightMargin := 0.0, topMargin := 0.0, bottomMargin := 0.0,
    headerFont := "header", headerFontSize := 0.0, itemFont := "item", itemFontSize := 72.0,
    rowSpacing := 0.0, headerSpacing := 0.0, categorySpacing := 0.0, colSpacing := 0.0,
    numColumns := 1, colWidth := 1.0, checkboxSize := 0.9,
    fitMethod := None, categoryOrder := None)

  function Items(n: nat): (r: seq<string>)
    ensures |r| == n
  {
    seq(n, i => "item")
  }

  function A(): Category { Category("a", Items(10)) }
  function B(): Category { Category("b", Items(8)) }
  function C(): Category { Category("c", Items(6)) }
  function D(): Category { Category("d", Items(4)) }

  /** A row costs one inch and the header nothing. */
  lemma RowsCost(n: nat, h: real)
    requires h == n as real * 72.0
    ensures n as real * RowHeight(EXAMPLE) == h
  {
    assert RowHeight(EXAMPLE) == 72.0;
  }

  lemma HeightOf(c: Category, h: real)
    requires h == |c.items| as real * 72.0
    ensures Height(EXAMPLE, c) == h
  {
    RowsCost(|c.items|, h);
    assert Height(EXAMPLE, c) == HeaderHeight(EXAMPLE) + |c.items| as real * RowHeight(EXAMPLE);
  }

  lemma ExampleHeights()
    ensures UsableHeight(EXAMPLE) == 1008.0
    ensures Height(EXAMPLE, A()) == 720.0 && Height(EXAMPLE, B()) == 576.0
    ensures Height(EXAMPLE, C()) == 432.0 && Height(EXAMPLE, D()) == 288.0
  {
    HeightOf(A(), 720.0);
    HeightOf(B(), 576.0);
    HeightOf(C(), 432.0);
    HeightOf(D(), 288.0);
  }

  /** Insertion of one category of height h ahead of a list headed by a shorter one. */
  lemma InsertAhead(x: Category, t: seq<Category>)
    requires t != [] && Height(EXAMPLE, x) >= Height(EXAMPLE, t[0])
    ensures Insert(x, t, HeightKey(EXAMPLE), AtLeast) == [x] + t
  {
  }

  lemma InsertBehind(x: Category, t: seq<Category>)
    requires t != [] && Height(EXAMPLE, x) < Height(EXAMPLE, t[0])
    ensures Insert(x, t, HeightKey(EXAMPLE), AtLeast) == [t[0]] + Insert(x, t[1..], HeightKey(EXAMPLE), AtLeast)
  {
  }

  lemma SortStep(t: seq<Category>)
    requires t != []
    ensures SortBy(t, HeightKey(EXAMPLE), AtLeast) == Insert(t[0], SortBy(t[1..], HeightKey(EXAMPLE), AtLeast), HeightKey(EXAMPLE), AtLeast)
  {
  }

  lemma SortC()
    ensures SortBy([C()], HeightKey(EXAMPLE), AtLeast) == [C()]
  {
    SortStep([C()]);
    assert [C()][1..] == [];
  }

  lemma SortAC()
    ensures SortBy([A(), C()], HeightKey(EXAMPLE), AtLeast) == [A(), C()]
  {
    ExampleHeights();
    SortC();
    SortStep([A(), C()]);
    assert [A(), C()][1..] == [C()];
    InsertAhead(A(), [C()]);
  }

  lemma SortBAC()
    ensures SortBy([B(), A(), C()], HeightKey(EXAMPLE), AtLeast) == [A(), B(), C()]
  {
    ExampleHeights();
    SortAC();
    SortStep([B(), A(), C()]);
    assert [B(), A(), C()][1..] == [A(), C()];
    InsertBehind(B(), [A(), C()]);
    assert [A(), C()][1..] == [C()];
    InsertAhead(B(), [C()]);
  }

  lemma InsertD()
    ensures Insert(D(), [A(), B(), C()], HeightKey(EXAMPLE), AtLeast) == [A(), B(), C(), D()]
  {
    ExampleHeights();
    InsertBehind(D(), [A(), B(), C()]);
    assert [A(), B(), C()][1..] == [B(), C()];
    InsertBehind(D(), [B(), C()]);
    assert [B(), C()][1..] == [C()];
    InsertBehind(D(), [C()]);
    assert [C()][1..] == [];
  }

  /** Sorting by height, tallest first. */
  lemma ExampleOrder()
    ensures ByHeightDescending(EXAMPLE, [D(), B(), A(), C()]) == [A(), B(), C(), D()]
  {
    SortBAC();
    SortStep([D(), B(), A(), C()]);
    assert [D(), B(), A(), C()][1..] == [B(), A(), C()];
    InsertD();
  }

  lemma PlaceA()
    ensures PlaceFirstFit(EXAMPLE, Initial(EXAMPLE), A()) == FillState([[A()]], [288.0])
  {
    ExampleHeights();
    assert Initial(EXAMPLE) == FillState([[]], [1008.0]);
    assert FirstSuitable([1008.0], 720.0) == Some(0);
    assert [] + [A()] == [A()];
    assert [[]][0 := [A()]] == [[A()]];
    assert [1008.0][0 := 1008.0 - 720.0] == [288.0];
  }

  lemma PlaceB()
    ensures PlaceFirstFit(EXAMPLE, FillState([[A()]], [288.0]), B()) == FillState([[A()], [B()]], [288.0, 432.0])
  {
    ExampleHeights();
    assert [288.0][1..] == [];
  }

  lemma PlaceC()
    ensures PlaceFirstFit(EXAMPLE, FillState([[A()], [B()]], [288.0, 432.0]), C()) == FillState([[A()], [B(), C()]], [288.0, 0.0])
  {
    ExampleHeights();
    assert [288.0, 432.0][1..] == [432.0];
    assert FirstSuitable([432.0], 432.0) == Some(0);
    assert FirstSuitable([288.0, 432.0], 432.0) == Some(1);
    assert [B()] + [C()] == [B(), C()];
    assert [[A()], [B()]][1 := [B(), C()]] == [[A()], [B(), C()]];
    assert [288.0, 432.0][1 := 432.0 - 432.0] == [288.0, 0.0];
  }

  lemma PlaceD()
    ensures PlaceFirstFit(EXAMPLE, FillState([[A()], [B(), C()]], [288.0, 0.0]), D()) == FillState([[A(), D()], [B(), C()]], [0.0, 0.0])
  {
    ExampleHeights();
    assert FirstSuitable([288.0, 0.0], 288.0) == Some(0);
    assert [A()] + [D()] == [A(), D()];
    assert [[A()], [B(), C()]][0 := [A(), D()]] == [[A(), D()], [B(), C()]];
    assert [288.0, 0.0][0 := 288.0 - 288.0] == [0.0, 0.0];
  }

  lemma FillStep(cats: seq<Category>)
    requires cats != []
    ensures FirstFitAll(EXAMPLE, Initial(EXAMPLE), cats) == PlaceFirstFit(EXAMPLE, FirstFitAll(EXAMPLE, Initial(EXAMPLE), cats[..|cats| - 1]), cats[|cats| - 1])
  {
  }

  lemma FillA()
    ensures FirstFitAll(EXAMPLE, Initial(EXAMPLE), [A()]) == FillState([[A()]], [288.0])
  {
    FillStep([A()]);
    assert [A()][..0] == [];
    PlaceA();
  }

  lemma FillAB()
    ensures FirstFitAll(EXAMPLE, Initial(EXAMPLE), [A(), B()]) == FillState([[A()], [B()]], [288.0, 432.0])
  {
    FillStep([A(), B()]);
    assert [A(), B()][..1] == [A()];
    FillA();
    PlaceB();
  }

  lemma FillABC()
    ensures FirstFitAll(EXAMPLE, Initial(EXAMPLE), [A(), B(), C()]) == FillState([[A()], [B(), C()]], [288.0, 0.0])
  {
    FillStep([A(), B(), C()]);
    assert [A(), B(), C()][..2] == [A(), B()];
    FillAB();
    PlaceC();
  }

  lemma FillABCD()
    ensures FirstFitAll(EXAMPLE, Initial(EXAMPLE), [A(), B(), C(), D()]) == FillState([[A(), D()], [B(), C()]], [0.0, 0.0])
  {
    FillStep([A(), B(), C(), D()]);
    assert [A(), B(), C(), D()][..3] == [A(), B(), C()];
    FillABC();
    PlaceD();
  }

  /**
   * Best-fit on heights 4, 8, 10 and 6 inches (in that input order) with a
   * 14-inch budget: the 4 goes back into the first column.
   */
  lemma FirstFitDecreasingExample()
    ensures BestFitPacking(EXAMPLE, [D(), B(), A(), C()]).columns == [[A(), D()], [B(), C()]]
  {
    ExampleOrder();
    FillABCD();
    assert BestFitPacking(EXAMPLE, [D(), B(), A(), C()]) == FirstFitAll(EXAMPLE, Initial(EXAMPLE), [A(), B(), C(), D()]);
  }
}
