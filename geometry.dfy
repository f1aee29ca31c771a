/**
 * The column geometry of main.py: the widest text (`find_max_width`, with
 * the font metric given as a function), the column count
 * (`determine_columns`) and the derived settings (`calculate_settings`).
 */
module Geometry {
  import opened Results
  import opened Layout

  const ITEM_FONT := "item_font"
  const HEADER_FONT := "header_font"

  /** The page width left between the left and right margins, in inches. */
  function AvailableWidth(s: Settings): real {
    s.pageWidth - s.leftMargin - s.rightMargin
  }

  /** A column is as wide as the widest text plus one gutter, in inches. */
  function ColumnWidth(maxWidth: real, colSpacing: real): (w: real)
    ensures w == 0.0 <==> maxWidth + colSpacing == 0.0
    ensures w > 0.0 <==> maxWidth + colSpacing > 0.0
  {
    (maxWidth + colSpacing) / INCH
  }

  /** `max(int(available // col_width), 1)`; a zero column width raises. */
  function DetermineColumns(s: Settings, maxWidth: real): (r: Result<int>)
    ensures r.Err? <==> ColumnWidth(maxWidth, s.colSpacing) == 0.0
    ensures r.Err? ==> r.error == ZeroDivision
    ensures r.Ok? ==> r.value >= 1
  {
    var availableWidth := AvailableWidth(s);
    var colWidth := ColumnWidth(maxWidth, s.colSpacing);
    if colWidth == 0.0 then Err(ZeroDivision)
    else
      var numColumns := (availableWidth / colWidth).Floor;
      Ok(if numColumns >= 1 then numColumns else 1)
  }

  lemma MulLeft(a: real, b: real, c: real)
    requires a <= b && c >= 0.0
    ensures a * c <= b * c
  {
    assert (b - a) * c >= 0.0;
  }

  lemma MulLeftStrict(a: real, b: real, c: real)
    requires a < b && c > 0.0
    ensures a * c < b * c
  {
    assert (b - a) * c > 0.0;
  }

  lemma DivMono(a: real, b: real, c: real)
    requires a <= b && c > 0.0
    ensures a / c <= b / c
  {
    assert b / c - a / c == (b - a) / c;
  }

  lemma DivMonoStrict(a: real, b: real, c: real)
    requires a < b && c > 0.0
    ensures a / c < b / c
  {
    assert b / c - a / c == (b - a) / c;
  }

  /**
   * With a positive column width: when at least one column fits, the count is
   * the largest `k` with `k * col_width <= available`; otherwise it is 1.
   */
  lemma DetermineColumnsIsFloor(s: Settings, maxWidth: real)
    requires ColumnWidth(maxWidth, s.colSpacing) > 0.0
    ensures var cw := ColumnWidth(maxWidth, s.colSpacing);
      var k := DetermineColumns(s, maxWidth).value;
      AvailableWidth(s) >= cw ==> k as real * cw <= AvailableWidth(s) < (k + 1) as real * cw
    ensures AvailableWidth(s) < ColumnWidth(maxWidth, s.colSpacing) ==> DetermineColumns(s, maxWidth).value == 1
  {
    var cw := ColumnWidth(maxWidth, s.colSpacing);
    var a := AvailableWidth(s);
    var q := a / cw;
    var f := q.Floor;
    assert q * cw == a;
    assert cw / cw == 1.0;
    if a >= cw {
      DivMono(cw, a, cw);
      assert f >= 1;
      assert DetermineColumns(s, maxWidth).value == f;
      assert f as real <= q < (f + 1) as real;
      MulLeft(f as real, q, cw);
      MulLeftStrict(q, (f + 1) as real, cw);
      assert (f + 1) as real * cw > a;
    } else {
      DivMonoStrict(a, cw, cw);
      assert q < 1.0;
    }
  }

  lemma QuotientAntitone(a: real, c1: real, c2: real)
    requires a >= 0.0 && 0.0 < c1 <= c2
    ensures a / c2 <= a / c1
  {
    var q1, q2 := a / c1, a / c2;
    assert q1 * c1 == a && q2 * c2 == a;
    DivMono(0.0, a, c2);
    MulLeft(c1, c2, q2);
    assert (q1 - q2) * c1 >= 0.0;
    DivMono(0.0, (q1 - q2) * c1, c1);
    assert (q1 - q2) * c1 / c1 == q1 - q2;
  }

  lemma QuotientNegative(a: real, c: real)
    requires a < 0.0 && c > 0.0
    ensures (a / c).Floor < 1
  {
    DivMonoStrict(a, 0.0, c);
  }

  /** Wider content never gives more columns, other settings fixed. */
  lemma DetermineColumnsMonotone(s: Settings, narrow: real, wide: real)
    requires ColumnWidth(narrow, s.colSpacing) > 0.0 && narrow <= wide
    ensures DetermineColumns(s, wide).value <= DetermineColumns(s, narrow).value
  {
    var a := AvailableWidth(s);
    var c1, c2 := ColumnWidth(narrow, s.colSpacing), ColumnWidth(wide, s.colSpacing);
    DivMono(narrow + s.colSpacing, wide + s.colSpacing, INCH);
    if a >= 0.0 {
      QuotientAntitone(a, c1, c2);
      assert (a / c2).Floor <= (a / c1).Floor;
    } else {
      QuotientNegative(a, c1);
      QuotientNegative(a, c2);
    }
  }

  /** The largest of a list of widths; `max()` of an empty list raises. */
  function MaxOf(xs: seq<real>): (r: Option<real>)
    ensures r.None? <==> xs == []
    ensures r.Some? ==> r.value in xs && forall x :: x in xs ==> x <= r.value
  {
    if xs == [] then None
    else
      assert forall x :: x in xs ==> x == xs[0] || x in xs[1..];
      match MaxOf(xs[1..])
      case None => Some(xs[0])
      case Some(m) => Some(if xs[0] >= m then xs[0] else m)
  }

  /** The widths of a list of texts under one font, in order. */
  function Widths(texts: seq<string>, font: string, size: real, width: (string, string, real) -> real): (r: seq<real>)
    ensures forall text :: text in texts ==> width(text, font, size) in r
    ensures forall w :: w in r ==> exists text :: text in texts && w == width(text, font, size)
  {
    if texts == [] then []
    else
      assert forall text :: text in texts ==> text == texts[0] || text in texts[1..];
      [width(texts[0], font, size)] + Widths(texts[1..], font, size, width)
  }

  /** The widths of every item of every category, in order. */
  function ItemWidths(cats: seq<Category>, font: string, size: real, width: (string, string, real) -> real): (r: seq<real>)
    ensures forall c, item :: c in cats && item in c.items ==> width(item, font, size) in r
    ensures forall w :: w in r ==> exists c, item :: c in cats && item in c.items && w == width(item, font, size)
  {
    if cats == [] then []
    else
      assert forall c :: c in cats ==> c == cats[0] || c in cats[1..];
      Widths(cats[0].items, font, size, width) + ItemWidths(cats[1..], font, size, width)
  }

  /** There are item widths exactly when some category has an item. */
  lemma ItemWidthsEmpty(cats: seq<Category>, font: string, size: real, width: (string, string, real) -> real)
    ensures ItemWidths(cats, font, size, width) == [] <==> !exists c :: c in cats && c.items != []
  {
    var widths := ItemWidths(cats, font, size, width);
    if exists c :: c in cats && c.items != [] {
      var c :| c in cats && c.items != [];
      assert width(c.items[0], font, size) in widths;
    }
    if widths != [] {
      assert widths[0] in widths;
    }
  }

  /** The header widths are the widths of the category names, one per category. */
  lemma NameWidths(cats: seq<Category>, font: string, size: real, width: (string, string, real) -> real)
    ensures forall c :: c in cats ==> width(c.name, font, size) in Widths(Names(cats), font, size, width)
    ensures forall w :: w in Widths(Names(cats), font, size, width) ==> exists c :: c in cats && w == width(c.name, font, size)
    ensures Widths(Names(cats), font, size, width) == [] <==> cats == []
  {
    var widths := Widths(Names(cats), font, size, width);
    assert forall c :: c in cats ==> c.name in Names(cats) by {
      forall c | c in cats ensures c.name in Names(cats) {
        var i :| 0 <= i < |cats| && cats[i] == c;
        assert Names(cats)[i] == c.name;
      }
    }
    assert forall n :: n in Names(cats) ==> exists c :: c in cats && c.name == n by {
      forall n | n in Names(cats) ensures exists c :: c in cats && c.name == n {
        var i :| 0 <= i < |cats| && Names(cats)[i] == n;
        assert cats[i] in cats;
      }
    }
    if cats != [] {
      assert width(cats[0].name, font, size) in widths;
    }
    if widths != [] {
      assert widths[0] in widths;
    }
  }

  /**
   * `find_max_width`: the widest item text under the item font, or the
   * widest category name under the header font; `max()` over nothing and an
   * unknown key both raise.
   */
  function FindMaxWidth(cats: seq<Category>, s: Settings, fontKey: string, width: (string, string, real) -> real): (r: Result<real>)
    ensures fontKey == ITEM_FONT ==>
      (r.Ok? <==> exists c :: c in cats && c.items != []) &&
      (r.Err? ==> r.error == EmptyMax) &&
      (r.Ok? ==> (forall c, item :: c in cats && item in c.items ==> width(item, s.itemFont, s.itemFontSize) <= r.value) &&
                 (exists c, item :: c in cats && item in c.items && r.value == width(item, s.itemFont, s.itemFontSize)))
    ensures fontKey == HEADER_FONT ==>
      (r.Ok? <==> cats != []) &&
      (r.Err? ==> r.error == EmptyMax) &&
      (r.Ok? ==> (forall c :: c in cats ==> width(c.name, s.headerFont, s.headerFontSize) <= r.value) &&
                 (exists c :: c in cats && r.value == width(c.name, s.headerFont, s.headerFontSize)))
    ensures fontKey != ITEM_FONT && fontKey != HEADER_FONT ==> r == Err(InvalidFontKey(fontKey))
  {
    if fontKey == ITEM_FONT then
      var widths := ItemWidths(cats, s.itemFont, s.itemFontSize, width);
      ItemWidthsEmpty(cats, s.itemFont, s.itemFontSize, width);
      match MaxOf(widths)
      case None => Err(EmptyMax)
      case Some(m) => Ok(m)
    else if fontKey == HEADER_FONT then
      var widths := Widths(Names(cats), s.headerFont, s.headerFontSize, width);
      NameWidths(cats, s.headerFont, s.headerFontSize, width);
      match MaxOf(widths)
      case None => Err(EmptyMax)
      case Some(m) => Ok(m)
    else Err(InvalidFontKey(fontKey))
  }

  /** The settings dictionary that `calculate_settings` updates in place. */
  class SettingsDict {
    var settings: Settings

    constructor(initial: Settings)
      ensures settings == initial
    {
      settings := initial;
    }
  }

  /**
   * `calculate_settings`: writes `col_spacing`, then `num_columns` (computed
   * from the new `col_spacing`), `col_width` and `checkbox_size`, one key after
   * the other into the caller's dictionary, and returns that dictionary. When
   * `determine_columns` raises, `col_spacing` has already been written.
   */
  method CalculateSettings(d: SettingsDict, maxItemWidth: real, maxHeaderWidth: real) returns (r: Result<Settings>)
    modifies d
    ensures var maxWidth := if maxItemWidth >= maxHeaderWidth then maxItemWidth else maxHeaderWidth;
      r.Err? <==> maxWidth + old(d.settings).itemFontSize == 0.0
    ensures r.Err? ==> r.error == ZeroDivision && d.settings == old(d.settings).(colSpacing := old(d.settings).itemFontSize)
    ensures r.Ok? ==> r.value == d.settings
    ensures r.Ok? ==> var maxWidth := if maxItemWidth >= maxHeaderWidth then maxItemWidth else maxHeaderWidth;
      var s, t := old(d.settings), d.settings;
      maxItemWidth <= maxWidth && maxHeaderWidth <= maxWidth &&
      t.colSpacing == s.itemFontSize &&
      t.colWidth == (maxWidth + s.itemFontSize) / INCH &&
      t.checkboxSize == 0.9 * s.itemFontSize &&
      t.numColumns >= 1 &&
      t.numColumns == DetermineColumns(s.(colSpacing := s.itemFontSize), maxWidth).value &&
      t == s.(colSpacing := t.colSpacing, numColumns := t.numColumns, colWidth := t.colWidth, checkboxSize := t.checkboxSize)
    ensures r.Ok? && d.settings.colWidth > 0.0 && AvailableWidth(old(d.settings)) >= d.settings.colWidth ==>
      d.settings.numColumns as real * d.settings.colWidth <= AvailableWidth(old(d.settings)) < (d.settings.numColumns + 1) as real * d.settings.colWidth
  {
    var maxWidth := if maxItemWidth >= maxHeaderWidth then maxItemWidth else maxHeaderWidth;
    ghost var original := d.settings;
    d.settings := d.settings.(colSpacing := 1.0 * d.settings.itemFontSize);
    var numColumns := DetermineColumns(d.settings, maxWidth);
    if numColumns.Err? {
      return Err(numColumns.error);
    }
    d.settings := d.settings.(numColumns := numColumns.value);
    d.settings := d.settings.(colWidth := (maxWidth + d.settings.colSpacing) / INCH);
    d.settings := d.settings.(checkboxSize := 0.9 * d.settings.itemFontSize);
    if d.settings.colWidth > 0.0 {
      DetermineColumnsIsFloor(original.(colSpacing := original.itemFontSize), maxWidth);
    }
    r := Ok(d.settings);
  }
}
