/**
 * The data the layout engine works on: the settings bag (with the keys the
 * engine reads, as typed fields), categories, and the height every category
 * is given when packed into a column.
 */
module Layout {
  import opened Results

  /** Points per inch, as in reportlab's `inch`. */
  const INCH: real := 72.0

  /**
   * The settings dictionary. Page geometry and margins are in inches, font
   * sizes and spacings in points. `colSpacing`, `numColumns`, `colWidth` and
   * `checkboxSize` are the derived keys that calculate_settings writes.
   * `fitMethod` and `categoryOrder` are optional keys (read with `get`).
   */
  datatype Settings = Settings(
    pageWidth: real,
    pageHeight: real,
    leftMargin: real,
    rightMargin: real,
    topMargin: real,
    bottomMargin: real,
    headerFont: string,
    headerFontSize: real,
    itemFont: string,
    itemFontSize: real,
    rowSpacing: real,
    headerSpacing: real,
    categorySpacing: real,
    colSpacing: real,
    numColumns: int,
    colWidth: real,
    checkboxSize: real,
    fitMethod: Option<string>,
    categoryOrder: Option<seq<string>>)

  /** One `(name, items)` pair of the categories dictionary. */
  datatype Category = Category(name: string, items: seq<string>)

  /** A column is the ordered list of the categories placed in it. */
  type Column = seq<Category>

  /** The vertical budget of one column: page height less top and bottom margins, in points. */
  function UsableHeight(s: Settings): real {
    s.pageHeight * INCH - s.topMargin * INCH - s.bottomMargin * INCH
  }

  /** The header block of a category: header line, header spacing, category padding and one row spacing. */
  function HeaderHeight(s: Settings): real {
    (1.0 + s.headerSpacing + s.categorySpacing) * s.headerFontSize + s.rowSpacing
  }

  /** One item row: the item font size plus one row spacing. */
  function RowHeight(s: Settings): real {
    s.itemFontSize + s.rowSpacing
  }

  /** The height both fill routines charge a category against a column's budget. */
  function Height(s: Settings, c: Category): real {
    HeaderHeight(s) + |c.items| as real * RowHeight(s)
  }

  /** Font sizes and spacings are not negative (true of every sensible settings file). */
  predicate NonNegativeMetrics(s: Settings) {
    s.headerFontSize >= 0.0 && s.itemFontSize >= 0.0 && s.rowSpacing >= 0.0 &&
    s.headerSpacing >= 0.0 && s.categorySpacing >= 0.0
  }

  /** With non-negative metrics every category has a non-negative height, at least its header block. */
  lemma HeightNonNegative(s: Settings, c: Category)
    requires NonNegativeMetrics(s)
    ensures Height(s, c) >= HeaderHeight(s) >= 0.0
  {
    var n := |c.items| as real;
    assert n >= 0.0;
    assert RowHeight(s) >= 0.0;
    assert n * RowHeight(s) >= 0.0;
    assert (1.0 + s.headerSpacing + s.categorySpacing) * s.headerFontSize >= 0.0;
  }

  /** Each extra item adds exactly one row to a category's height. */
  lemma HeightAddsRow(s: Settings, name: string, items: seq<string>, item: string)
    ensures Height(s, Category(name, items + [item])) == Height(s, Category(name, items)) + RowHeight(s)
  {
    var n := |items| as real;
    assert |items + [item]| as real == n + 1.0;
    assert (n + 1.0) * RowHeight(s) == n * RowHeight(s) + RowHeight(s);
  }

  /** With non-negative metrics a category with more items is at least as tall. */
  lemma HeightMonotone(s: Settings, c: Category, d: Category)
    requires NonNegativeMetrics(s) && |c.items| <= |d.items|
    ensures Height(s, c) <= Height(s, d)
  {
    var m, n := |c.items| as real, |d.items| as real;
    assert (n - m) * RowHeight(s) >= 0.0;
    assert n * RowHeight(s) - m * RowHeight(s) == (n - m) * RowHeight(s);
  }

  /** The names of the categories, in order (`list(categories.keys())`). */
  function Names(cats: seq<Category>): (r: seq<string>)
    ensures |r| == |cats|
    ensures forall i :: 0 <= i < |cats| ==> r[i] == cats[i].name
  {
    if cats == [] then [] else [cats[0].name] + Names(cats[1..])
  }

  /** Dictionary keys are unique. */
  predicate DistinctNames(cats: seq<Category>) {
    forall i, j :: 0 <= i < j < |cats| ==> cats[i].name != cats[j].name
  }
}
