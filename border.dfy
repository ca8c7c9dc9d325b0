/**
 * The selection border of the Walkontable grid: four strips drawn around the
 * rendered part of a selected cell range, the fill-handle corner, and on
 * mobile browsers the two selection handles.
 *
 * Every DOM measurement (element offsets, outer sizes, computed border widths,
 * the window's inner width, the header cells) is an input, gathered in a
 * `TableView`; style properties are integers of CSS pixels.
 */
module SelectionBorder {
  import opened Wrappers

  // ---------------------------------------------------------------------------
  // Styles

  /** The CSS `display` values the border writes. */
  datatype Display = DisplayNone | DisplayBlock

  /** The style properties of one border strip (or of the corner's box). */
  datatype BoxStyle = BoxStyle(top: int, left: int, right: int, width: int, height: int, display: Display)

  /** The fill-handle corner: its box and the three border widths the code touches. */
  datatype CornerStyle = CornerStyle(box: BoxStyle, borderLeftWidth: int, borderRightWidth: int, borderBottomWidth: int)

  /** A mobile selection handle; `raised` is a `zIndex` of 9999 (otherwise the empty string). */
  datatype HandleStyle = HandleStyle(top: int, left: int, right: int, display: Display, raised: bool)

  datatype Handles = Handles(top: HandleStyle, topHitArea: HandleStyle, bottom: HandleStyle, bottomHitArea: HandleStyle)

  /** Everything `appear` and `disappear` write. */
  datatype Styles = Styles(top: BoxStyle, start: BoxStyle, bottom: BoxStyle, end: BoxStyle, corner: CornerStyle, handles: Handles)

  /** The inline-start position: `right` in right-to-left mode, `left` otherwise. */
  function InlineOf(s: BoxStyle, rtl: bool): int {
    if rtl then s.right else s.left
  }

  function WithInline(s: BoxStyle, rtl: bool, v: int): (r: BoxStyle)
    ensures InlineOf(r, rtl) == v && r.top == s.top && r.width == s.width && r.height == s.height && r.display == s.display
  {
    if rtl then s.(right := v) else s.(left := v)
  }

  function HandleInlineOf(s: HandleStyle, rtl: bool): int {
    if rtl then s.right else s.left
  }

  function HandleWithInline(s: HandleStyle, rtl: bool, v: int): (r: HandleStyle)
    ensures HandleInlineOf(r, rtl) == v && r.top == s.top && r.display == s.display && r.raised == s.raised
  {
    if rtl then s.(right := v) else s.(left := v)
  }

  // ---------------------------------------------------------------------------
  // Inputs

  datatype Offset = Offset(left: int, top: int)

  /**
   * The measurements of one cell or header element: its page offset, outer
   * size, computed border widths, and its position as seen by
   * `getBoundingClientRect` (`clientLeft`, `clientTop`) and by
   * `offsetLeft`/`offsetTop`.
   */
  datatype Element = Element(
    offset: Offset, outerWidth: int, outerHeight: int,
    borderTopWidth: int, borderLeftWidth: int, borderRightWidth: int,
    clientLeft: int, clientTop: int, offsetLeft: int, offsetTop: int)

  /** `border.cornerVisible`: a value, or a function of the layer level (called with no argument by the handles). */
  datatype CornerVisible = Flag(visible: bool) | Callback(f: Option<int> -> bool)

  /** The border's settings: `border.width`, `border.cornerVisible` and `layerLevel`. */
  datatype BorderSettings = BorderSettings(width: int, cornerVisible: CornerVisible, layerLevel: int)

  /** The `[row1, column1, row2, column2]` corners given to `appear`. */
  datatype Corners = Corners(topRow: int, startColumn: int, bottomRow: int, endColumn: int)

  /**
   * What the table reports at the time of `appear`:
   * - `renderedRows[i]`/`renderedColumns[i]`: the source index of rendered position `i`;
   * - `cell(row, column)`, `rowHeader(row, level)`, `columnHeader(column, level)`: elements, headers possibly missing;
   * - the table element's offset and outer width, the window's inner width;
   * - the first and last rendered row and column;
   * - whether the root element carries the whole-rows and the whole-columns selection class;
   * - the number of column header levels, the total rows and columns;
   * - whether the trimming container is the window, and that container's inner size;
   * - the `onModifyGetCellCoords` hook's third and fourth entries (indices 2 and 3) when it answers an array;
   * - the `to` corner of the area selection's range, when there is one;
   * - the `rtlMode`, `fixedRowsTop` and `fixedColumnsStart` settings.
   */
  datatype TableView = TableView(
    renderedRows: seq<int>, renderedColumns: seq<int>,
    cell: (int, int) -> Element,
    rowHeader: (int, int) -> Option<Element>, columnHeader: (int, int) -> Option<Element>,
    containerOffset: Offset, containerWidth: int, windowInnerWidth: int,
    firstRenderedRow: int, lastRenderedRow: int, firstRenderedColumn: int, lastRenderedColumn: int,
    rowsSelectionClass: bool, columnsSelectionClass: bool,
    columnHeaderLevels: int, totalRows: int, totalColumns: int,
    trimToWindow: bool, trimmingInnerWidth: int, trimmingInnerHeight: int,
    hookResult: Option<(int, int)>, areaTo: Option<(int, int)>,
    rtl: bool, fixedRowsTop: int, fixedColumnsStart: int)

  // ---------------------------------------------------------------------------
  // Clipping the range to what is rendered

  predicate InRange(s: int, lo: int, hi: int) {
    lo <= s <= hi
  }

  /** The first rendered source index within `[lo, hi]`. */
  function FirstSourceIn(rendered: seq<int>, lo: int, hi: int): (r: Option<int>)
    ensures r.None? <==> forall j :: 0 <= j < |rendered| ==> !InRange(rendered[j], lo, hi)
    ensures r.Some? ==> exists i :: (0 <= i < |rendered| && rendered[i] == r.value && InRange(rendered[i], lo, hi)
      && forall j :: 0 <= j < i ==> !InRange(rendered[j], lo, hi))
  {
    if rendered == [] then None
    else if InRange(rendered[0], lo, hi) then Some(rendered[0])
    else
      var r := FirstSourceIn(rendered[1..], lo, hi);
      assert forall j :: 1 <= j < |rendered| ==> rendered[j] == rendered[1..][j - 1];
      if r.Some? then
        ghost var i :| 0 <= i < |rendered[1..]| && rendered[1..][i] == r.value && InRange(rendered[1..][i], lo, hi)
          && forall j :: 0 <= j < i ==> !InRange(rendered[1..][j], lo, hi);
        assert rendered[i + 1] == r.value;
        r
      else r
  }

  /** The last rendered source index within `[lo, hi]`. */
  function LastSourceIn(rendered: seq<int>, lo: int, hi: int): (r: Option<int>)
    ensures r.None? <==> forall j :: 0 <= j < |rendered| ==> !InRange(rendered[j], lo, hi)
    ensures r.Some? ==> exists i :: (0 <= i < |rendered| && rendered[i] == r.value && InRange(rendered[i], lo, hi)
      && forall j :: i < j < |rendered| ==> !InRange(rendered[j], lo, hi))
  {
    if rendered == [] then None
    else if InRange(rendered[|rendered| - 1], lo, hi) then Some(rendered[|rendered| - 1])
    else
      var init := rendered[..|rendered| - 1];
      var r := LastSourceIn(init, lo, hi);
      assert forall j :: 0 <= j < |init| ==> rendered[j] == init[j];
      r
  }

  /** Unfolding `LastSourceIn` on a prefix by its last element. */
  lemma LastSourceInPrefix(rendered: seq<int>, lo: int, hi: int, i: nat)
    requires i < |rendered|
    ensures LastSourceIn(rendered[..i + 1], lo, hi) ==
      if InRange(rendered[i], lo, hi) then Some(rendered[i]) else LastSourceIn(rendered[..i], lo, hi)
  {
    assert rendered[..i + 1][..i] == rendered[..i];
  }

  /** The forward scan of `appear`: stop at the first rendered position in range. */
  method ScanFirst(rendered: seq<int>, lo: int, hi: int) returns (r: Option<int>)
    ensures r == FirstSourceIn(rendered, lo, hi)
  {
    for i := 0 to |rendered|
      invariant FirstSourceIn(rendered[i..], lo, hi) == FirstSourceIn(rendered, lo, hi)
    {
      assert rendered[i..][1..] == rendered[i + 1..];
      if InRange(rendered[i], lo, hi) {
        return Some(rendered[i]);
      }
    }
    return None;
  }

  /** The backward scan of `appear`: stop at the last rendered position in range. */
  method ScanLast(rendered: seq<int>, lo: int, hi: int) returns (r: Option<int>)
    ensures r == LastSourceIn(rendered, lo, hi)
  {
    var i := |rendered| - 1;
    while i >= 0
      invariant -1 <= i < |rendered|
      invariant LastSourceIn(rendered[..i + 1], lo, hi) == LastSourceIn(rendered, lo, hi)
    {
      LastSourceInPrefix(rendered, lo, hi, i);
      if InRange(rendered[i], lo, hi) {
        return Some(rendered[i]);
      }
      i := i - 1;
    }
    return None;
  }

  /** The rendered part of the range: its first and last rendered rows and columns. */
  datatype Clip = Clip(fromRow: int, toRow: int, fromColumn: int, toColumn: int)

  /** `None` when no rendered row or no rendered column falls in the range: the border disappears. */
  function ClipToRendered(corners: Corners, t: TableView): (r: Option<Clip>)
    ensures r.None? <==>
      (forall j :: 0 <= j < |t.renderedRows| ==> !InRange(t.renderedRows[j], corners.topRow, corners.bottomRow))
      || (forall j :: 0 <= j < |t.renderedColumns| ==> !InRange(t.renderedColumns[j], corners.startColumn, corners.endColumn))
  {
    var fromRow := FirstSourceIn(t.renderedRows, corners.topRow, corners.bottomRow);
    var toRow := LastSourceIn(t.renderedRows, corners.topRow, corners.bottomRow);
    var fromColumn := FirstSourceIn(t.renderedColumns, corners.startColumn, corners.endColumn);
    var toColumn := LastSourceIn(t.renderedColumns, corners.startColumn, corners.endColumn);
    if fromRow.None? || fromColumn.None? then None
    else Some(Clip(fromRow.value, toRow.value, fromColumn.value, toColumn.value))
  }

  /**
   * The clipped range lies inside the requested one, and the first rendered
   * row (column) is rendered no later than the last one.
   */
  lemma ClipInsideRange(corners: Corners, t: TableView)
    requires ClipToRendered(corners, t).Some?
    ensures var c := ClipToRendered(corners, t).value;
      && corners.topRow <= c.fromRow <= corners.bottomRow && corners.topRow <= c.toRow <= corners.bottomRow
      && corners.startColumn <= c.fromColumn <= corners.endColumn && corners.startColumn <= c.toColumn <= corners.endColumn
      && (exists i, k :: 0 <= i <= k < |t.renderedRows| && t.renderedRows[i] == c.fromRow && t.renderedRows[k] == c.toRow)
      && (exists i, k :: 0 <= i <= k < |t.renderedColumns| && t.renderedColumns[i] == c.fromColumn && t.renderedColumns[k] == c.toColumn)
  {
    var c := ClipToRendered(corners, t).value;
    FirstBeforeLast(t.renderedRows, corners.topRow, corners.bottomRow);
    FirstBeforeLast(t.renderedColumns, corners.startColumn, corners.endColumn);
  }

  lemma FirstBeforeLast(rendered: seq<int>, lo: int, hi: int)
    requires FirstSourceIn(rendered, lo, hi).Some?
    ensures LastSourceIn(rendered, lo, hi).Some?
    ensures exists i, k :: (0 <= i <= k < |rendered|
      && rendered[i] == FirstSourceIn(rendered, lo, hi).value && rendered[k] == LastSourceIn(rendered, lo, hi).value)
  {
    var f, l := FirstSourceIn(rendered, lo, hi), LastSourceIn(rendered, lo, hi);
    var i :| 0 <= i < |rendered| && rendered[i] == f.value && InRange(rendered[i], lo, hi)
      && forall j :: 0 <= j < i ==> !InRange(rendered[j], lo, hi);
    var k :| 0 <= k < |rendered| && rendered[k] == l.value && InRange(rendered[k], lo, hi)
      && forall j :: k < j < |rendered| ==> !InRange(rendered[j], lo, hi);
    assert i <= k;
  }

  // ---------------------------------------------------------------------------
  // Geometry

  /** The box the strips are drawn around, relative to the table element. */
  datatype Frame = Frame(top: int, inlineStart: int, width: int, height: int)

  /**
   * The inline start and width from the first and last cells. Left to right:
   * from the first cell's left edge to the last cell's right edge. Right to
   * left: measured from the table's right edge, via the window's inner width.
   * Either way the inline start is the gap between the table's start edge and
   * the first cell's start edge, less one, and a single cell spans its outer
   * width. Left to right the span ends on the last cell's right edge; right to
   * left it ends on the last cell's left edge.
   */
  function CellInline(t: TableView, from: Element, to: Element): (r: (int, int))
    ensures t.rtl ==> r.0 == (t.containerOffset.left + t.containerWidth) - (from.offset.left + from.outerWidth) - 1
    ensures !t.rtl ==> r.0 == from.offset.left - t.containerOffset.left - 1
    ensures from == to ==> r.1 == from.outerWidth
    ensures !t.rtl ==> t.containerOffset.left + r.0 + 1 + r.1 == to.offset.left + to.outerWidth
    ensures t.rtl ==> r.0 + 1 + r.1 == (t.containerOffset.left + t.containerWidth) - to.offset.left
  {
    if t.rtl then
      var fromWidth := from.outerWidth;
      var gridRightPos := t.windowInnerWidth - t.containerOffset.left - t.containerWidth;
      (t.windowInnerWidth - from.offset.left - fromWidth - gridRightPos - 1, from.offset.left + fromWidth - to.offset.left)
    else
      (from.offset.left - t.containerOffset.left - 1, to.offset.left + to.outerWidth - from.offset.left)
  }

  /**
   * Right to left, the result does not depend on the window's inner width,
   * although the source measures through it.
   */
  lemma RtlInlineIgnoresWindow(t: TableView, from: Element, to: Element, innerWidth: int)
    requires t.rtl
    ensures CellInline(t, from, to) == CellInline(t.(windowInnerWidth := innerWidth), from, to)
  {
  }

  /** `isEntireColumnSelected`: the rows run from the first to the last rendered one. */
  predicate IsEntireColumnSelected(t: TableView, startRow: int, endRow: int) {
    startRow == t.firstRenderedRow && endRow == t.lastRenderedRow
  }

  /** `isEntireRowSelected`: the columns run from the first to the last rendered one. */
  predicate IsEntireRowSelected(t: TableView, startColumn: int, endColumn: int) {
    startColumn == t.firstRenderedColumn && endColumn == t.lastRenderedColumn
  }

  /** The scans stop at both ends of the rendered indexes exactly when the range holds both ends. */
  lemma ScansFindEnds(rendered: seq<int>, lo: int, hi: int)
    requires |rendered| > 0
    ensures (FirstSourceIn(rendered, lo, hi) == Some(rendered[0])
             && LastSourceIn(rendered, lo, hi) == Some(rendered[|rendered| - 1]))
        <==> InRange(rendered[0], lo, hi) && InRange(rendered[|rendered| - 1], lo, hi)
  {
    var last := |rendered| - 1;
    if InRange(rendered[0], lo, hi) && InRange(rendered[last], lo, hi) {
      var r := LastSourceIn(rendered, lo, hi);
      var i :| 0 <= i < |rendered| && rendered[i] == r.value && InRange(rendered[i], lo, hi)
        && forall j :: i < j < |rendered| ==> !InRange(rendered[j], lo, hi);
      assert i == last;
    }
  }

  /**
   * When the table's first and last rendered rows are the ends of the rendered
   * rows, the clipped area selects entire columns exactly when the requested
   * rows take in both of them.
   */
  lemma EntireColumnSelectedIff(corners: Corners, t: TableView)
    requires ClipToRendered(corners, t).Some?
    requires |t.renderedRows| > 0 && t.renderedRows[0] == t.firstRenderedRow
    requires t.renderedRows[|t.renderedRows| - 1] == t.lastRenderedRow
    ensures var clip := ClipToRendered(corners, t).value;
      IsEntireColumnSelected(t, clip.fromRow, clip.toRow) <==>
        InRange(t.firstRenderedRow, corners.topRow, corners.bottomRow) && InRange(t.lastRenderedRow, corners.topRow, corners.bottomRow)
  {
    ScansFindEnds(t.renderedRows, corners.topRow, corners.bottomRow);
  }

  /** The same for rows: entire rows are selected exactly when the requested columns take in both rendered ends. */
  lemma EntireRowSelectedIff(corners: Corners, t: TableView)
    requires ClipToRendered(corners, t).Some?
    requires |t.renderedColumns| > 0 && t.renderedColumns[0] == t.firstRenderedColumn
    requires t.renderedColumns[|t.renderedColumns| - 1] == t.lastRenderedColumn
    ensures var clip := ClipToRendered(corners, t).value;
      IsEntireRowSelected(t, clip.fromColumn, clip.toColumn) <==>
        InRange(t.firstRenderedColumn, corners.startColumn, corners.endColumn)
        && InRange(t.lastRenderedColumn, corners.startColumn, corners.endColumn)
  {
    ScansFindEnds(t.renderedColumns, corners.startColumn, corners.endColumn);
  }

  datatype Direction = Rows | Columns

  /**
   * `getDimensionsFromHeader`: when the root carries the whole-rows (or
   * whole-columns) selection class and both header cells exist, the start
   * header and the position and size spanned by the two headers, along `top`
   * for rows and `left` for columns; `false` (here `None`) otherwise.
   */
  function DimensionsFromHeader(t: TableView, direction: Direction, fromIndex: int, toIndex: int, headerIndex: int)
    : (r: Option<(Element, int, int)>)
    ensures r.Some? <==>
      && (if direction == Rows then t.rowsSelectionClass else t.columnsSelectionClass)
      && HeaderAt(t, direction, fromIndex, t.columnHeaderLevels - headerIndex).Some?
      && HeaderAt(t, direction, toIndex, t.columnHeaderLevels - headerIndex).Some?
    ensures r.Some? ==>
      var start := HeaderAt(t, direction, fromIndex, t.columnHeaderLevels - headerIndex).value;
      var end := HeaderAt(t, direction, toIndex, t.columnHeaderLevels - headerIndex).value;
      && r.value.0 == start
      && r.value.1 == Along(start.offset, direction) - Along(t.containerOffset, direction) - 1
      && r.value.2 == Along(end.offset, direction) + SizeAlong(end, direction) - Along(start.offset, direction)
  {
    var hasClass := if direction == Rows then t.rowsSelectionClass else t.columnsSelectionClass;
    if !hasClass then None
    else
      var level := t.columnHeaderLevels - headerIndex;
      var startHeader := HeaderAt(t, direction, fromIndex, level);
      var endHeader := HeaderAt(t, direction, toIndex, level);
      if startHeader.None? || endHeader.None? then None
      else
        var start, end := startHeader.value, endHeader.value;
        Some((start, Along(start.offset, direction) - Along(t.containerOffset, direction) - 1,
              Along(end.offset, direction) + SizeAlong(end, direction) - Along(start.offset, direction)))
  }

  function HeaderAt(t: TableView, direction: Direction, index: int, level: int): Option<Element> {
    if direction == Rows then t.rowHeader(index, level) else t.columnHeader(index, level)
  }

  /** The `top` offset for rows, the `left` offset for columns (in both reading directions). */
  function Along(o: Offset, direction: Direction): int {
    if direction == Rows then o.top else o.left
  }

  function SizeAlong(e: Element, direction: Direction): int {
    if direction == Rows then e.outerHeight else e.outerWidth
  }

  /**
   * The frame before the border adjustments, and the element whose computed
   * style decides them: the first cell, or the start header when a header
   * override applied.
   */
  function Measured(clip: Clip, corners: Corners, t: TableView): (r: (Frame, Element))
    ensures var from, to := t.cell(clip.fromRow, clip.fromColumn), t.cell(clip.toRow, clip.toColumn);
      var columns := if IsEntireColumnSelected(t, clip.fromRow, clip.toRow)
        then DimensionsFromHeader(t, Columns, clip.fromColumn, clip.toColumn, corners.topRow) else None;
      var rows := if IsEntireRowSelected(t, clip.fromColumn, clip.toColumn)
        then DimensionsFromHeader(t, Rows, clip.fromRow, clip.toRow, corners.startColumn) else None;
      && (columns.None? ==> (r.0.inlineStart, r.0.width) == CellInline(t, from, to))
      && (columns.Some? ==> r.0.inlineStart == columns.value.1 && r.0.width == columns.value.2)
      && (rows.None? ==> r.0.top == from.offset.top - t.containerOffset.top - 1
                         && r.0.height == to.offset.top + to.outerHeight - from.offset.top)
      && (rows.Some? ==> r.0.top == rows.value.1 && r.0.height == rows.value.2)
      && r.1 == (if rows.Some? then rows.value.0 else if columns.Some? then columns.value.0 else from)
  {
    var from, to := t.cell(clip.fromRow, clip.fromColumn), t.cell(clip.toRow, clip.toColumn);
    var (inlineStart, width) := CellInline(t, from, to);
    var columns := if IsEntireColumnSelected(t, clip.fromRow, clip.toRow)
      then DimensionsFromHeader(t, Columns, clip.fromColumn, clip.toColumn, corners.topRow) else None;
    var (inlineStart', width', anchor) :=
      if columns.Some? then (columns.value.1, columns.value.2, columns.value.0) else (inlineStart, width, from);
    var top := from.offset.top - t.containerOffset.top - 1;
    var height := to.offset.top + to.outerHeight - from.offset.top;
    var rows := if IsEntireRowSelected(t, clip.fromColumn, clip.toColumn)
      then DimensionsFromHeader(t, Rows, clip.fromRow, clip.toRow, corners.startColumn) else None;
    var (top', height', anchor') :=
      if rows.Some? then (rows.value.1, rows.value.2, rows.value.0) else (top, height, anchor);
    (Frame(top', inlineStart', width', height'), anchor')
  }

  /**
   * The 1px adjustment for an element with a border on that side: the position
   * moves in by one and the size shrinks by one, never below zero.
   */
  function Inset(pos: int, size: int, bordered: bool): (r: (int, int))
    ensures !bordered ==> r == (pos, size)
    ensures bordered ==> r.0 == pos + 1 && r.1 >= 0
    ensures bordered && size > 0 ==> r.0 + r.1 == pos + size
    ensures bordered && size <= 0 ==> r.1 == 0
  {
    if bordered then (pos + 1, if size > 0 then size - 1 else 0) else (pos, size)
  }

  /** The frame the strips are drawn at. */
  function Placed(clip: Clip, corners: Corners, t: TableView): (f: Frame)
    ensures var m := Measured(clip, corners, t).0;
      && (m.width >= 0 ==> f.width >= 0)
      && (m.height > 0 ==> f.top + f.height == m.top + m.height)
      && (m.width > 0 ==> f.inlineStart + f.width == m.inlineStart + m.width)
      && m.top <= f.top <= m.top + 1 && m.inlineStart <= f.inlineStart <= m.inlineStart + 1
  {
    var (m, anchor) := Measured(clip, corners, t);
    var (top, height) := Inset(m.top, m.height, anchor.borderTopWidth > 0);
    var (inlineStart, width) := Inset(m.inlineStart, m.width,
      (if t.rtl then anchor.borderRightWidth else anchor.borderLeftWidth) > 0);
    Frame(top, inlineStart, width, height)
  }

  // ---------------------------------------------------------------------------
  // Strips, corner and handles

  /**
   * The four strips around a frame; `delta` is half the border width, rounded
   * down. The strips frame the box: top and start strips at its corner, the
   * bottom strip `height` below less half the border, the end strip `width`
   * further along less half the border and one pixel taller; all four shown,
   * corner and handles untouched.
   */
  function WithStrips(s: Styles, f: Frame, rtl: bool, borderWidth: int): (r: Styles)
    ensures r.top.top == r.start.top == r.end.top == f.top
    ensures InlineOf(r.top, rtl) == InlineOf(r.start, rtl) == InlineOf(r.bottom, rtl) == f.inlineStart
    ensures r.bottom.top - r.top.top == f.height - borderWidth / 2
    ensures InlineOf(r.end, rtl) - InlineOf(r.start, rtl) == f.width - borderWidth / 2
    ensures 2 * (borderWidth / 2) <= borderWidth < 2 * (borderWidth / 2) + 2
    ensures r.top.width == r.bottom.width == f.width && r.start.height == f.height && r.end.height == f.height + 1
    ensures r.top.display == r.start.display == r.bottom.display == r.end.display == DisplayBlock
    ensures r.corner == s.corner && r.handles == s.handles
  {
    var delta := borderWidth / 2;
    s.(top := WithInline(s.top.(top := f.top, width := f.width, display := DisplayBlock), rtl, f.inlineStart),
       start := WithInline(s.start.(top := f.top, height := f.height, display := DisplayBlock), rtl, f.inlineStart),
       bottom := WithInline(s.bottom.(top := f.top + f.height - delta, width := f.width, display := DisplayBlock), rtl, f.inlineStart),
       end := WithInline(s.end.(top := f.top, height := f.height + 1, display := DisplayBlock), rtl, f.inlineStart + f.width - delta))
  }

  /** The corner's side: 6px (`cornerDefaultStyle.width`). */
  const CornerSize: int := 6
  /** `cornerCenterPointOffset`: minus half the corner's side. */
  const CornerCenterPointOffset: int := -(CornerSize / 2)

  /** `isPartRange(row, col)`: an area range exists and `(row, col)` is not its `to` corner. */
  function IsPartRange(areaTo: Option<(int, int)>, row: int, col: int): (r: bool)
    ensures r <==> areaTo.Some? && (row != areaTo.value.0 || col != areaTo.value.1)
  {
    if areaTo.Some? then row != areaTo.value.0 || col != areaTo.value.1 else false
  }

  /** `cornerVisible` as `appear` reads it: a function is called with the layer level. */
  function CornerVisibleForLayer(settings: BorderSettings): bool {
    match settings.cornerVisible
    case Flag(b) => b
    case Callback(f) => f(Some(settings.layerLevel))
  }

  /** The cell the corner check looks at: the hook's answer, or the last cell. */
  function CheckCell(clip: Clip, t: TableView): (int, int) {
    if t.hookResult.Some? then t.hookResult.value else (clip.toRow, clip.toColumn)
  }

  predicate CornerHidden(clip: Clip, t: TableView, settings: BorderSettings, mobile: bool) {
    var (checkRow, checkCol) := CheckCell(clip, t);
    mobile || !CornerVisibleForLayer(settings) || IsPartRange(t.areaTo, checkRow, checkCol)
  }

  /** The corner would stick out past the trimming container's inline end. */
  predicate OverlapsInline(to: Element, t: TableView) {
    var toLeft := if t.trimToWindow then to.clientLeft else to.offsetLeft;
    if t.rtl then toLeft - CornerSize / 2 < 0
    else toLeft + to.outerWidth + CornerSize / 2 >= t.trimmingInnerWidth
  }

  /** The corner would stick out past the trimming container's bottom. */
  predicate OverlapsBottom(to: Element, t: TableView) {
    var toTop := if t.trimToWindow then to.clientTop else to.offsetTop;
    toTop + to.outerHeight + CornerSize / 2 >= t.trimmingInnerHeight
  }

  predicate ClampInline(clip: Clip, t: TableView) {
    clip.toColumn == t.totalColumns - 1 && OverlapsInline(t.cell(clip.toRow, clip.toColumn), t)
  }

  predicate ClampBottom(clip: Clip, t: TableView) {
    clip.toRow == t.totalRows - 1 && OverlapsBottom(t.cell(clip.toRow, clip.toColumn), t)
  }

  /**
   * The corner after `appear`: hidden, or centred on the frame's far corner and
   * pulled back inside when it would overlap the container at the last column
   * or row, losing that side's border. It is hidden exactly on mobile, when
   * `cornerVisible` is falsy, or when the checked cell is not the area's `to`
   * corner. Shown, it sits 4px before the frame's far corner, or 6px when
   * clamped; the right border is restored to 1px unless clamped in
   * left-to-right mode.
   */
  function CornerAfter(c: CornerStyle, clip: Clip, f: Frame, t: TableView, settings: BorderSettings, mobile: bool): (r: CornerStyle)
    ensures r.box.display == DisplayNone <==> CornerHidden(clip, t, settings, mobile)
    ensures CornerHidden(clip, t, settings, mobile) ==> r == c.(box := c.box.(display := DisplayNone))
    ensures !CornerHidden(clip, t, settings, mobile) ==>
      && r.box.top == f.top + f.height - (if ClampBottom(clip, t) then 6 else 4)
      && InlineOf(r.box, t.rtl) == f.inlineStart + f.width - (if ClampInline(clip, t) then 6 else 4)
      && r.box.width == CornerSize && r.box.height == c.box.height
      && r.borderBottomWidth == (if ClampBottom(clip, t) then 0 else c.borderBottomWidth)
      && r.borderRightWidth == (if ClampInline(clip, t) && !t.rtl then 0 else 1)
      && r.borderLeftWidth == (if ClampInline(clip, t) && t.rtl then 0 else c.borderLeftWidth)
  {
    if CornerHidden(clip, t, settings, mobile) then c.(box := c.box.(display := DisplayNone))
    else
      var placed := c.(box := WithInline(c.box.(top := f.top + f.height + CornerCenterPointOffset - 1, width := CornerSize),
                                         t.rtl, f.inlineStart + f.width + CornerCenterPointOffset - 1),
                       borderRightWidth := 1);
      var inlineClamped :=
        if ClampInline(clip, t) then
          var moved := placed.(box := WithInline(placed.box, t.rtl, f.inlineStart + f.width + CornerCenterPointOffset - CornerSize / 2));
          if t.rtl then moved.(borderLeftWidth := 0) else moved.(borderRightWidth := 0)
        else placed;
      var clamped :=
        if ClampBottom(clip, t) then
          inlineClamped.(box := inlineClamped.box.(top := f.top + f.height + CornerCenterPointOffset - CornerSize / 2),
                         borderBottomWidth := 0)
        else inlineClamped;
      clamped.(box := clamped.box.(display := DisplayBlock))
  }

  /** Once zeroed, the corner's bottom border is never given back by `appear`. */
  lemma CornerBottomBorderStaysZero(c: CornerStyle, clip: Clip, f: Frame, t: TableView, settings: BorderSettings, mobile: bool)
    requires c.borderBottomWidth == 0
    ensures CornerAfter(c, clip, f, t, settings, mobile).borderBottomWidth == 0
  {
  }

  /** The mobile handles' size, and their hit areas' (`10px`, `40px`). */
  const HandleWidth: int := 10
  const HitAreaWidth: int := 40

  /** The position writes of the handles, before their display is decided. */
  function HandlesPositioned(h: Handles, f: Frame, rtl: bool): (r: Handles)
    ensures r.top.top == f.top - 11 && HandleInlineOf(r.top, rtl) == f.inlineStart - 11
    ensures r.topHitArea.top == f.top - 30 && HandleInlineOf(r.topHitArea, rtl) == f.inlineStart - 30
    ensures r.bottom.top == f.top + f.height && HandleInlineOf(r.bottom, rtl) == f.inlineStart + f.width
    ensures r.bottomHitArea.top == r.bottom.top - 10 && HandleInlineOf(r.bottomHitArea, rtl) == f.inlineStart + f.width - 10
    ensures r.top.display == h.top.display && r.topHitArea.display == h.topHitArea.display
    ensures r.bottom.display == h.bottom.display && r.bottomHitArea.display == h.bottomHitArea.display
    ensures r.top.raised == h.top.raised && r.topHitArea.raised == h.topHitArea.raised
  {
    Handles(
      HandleWithInline(h.top.(top := f.top - HandleWidth - 1), rtl, f.inlineStart - HandleWidth - 1),
      HandleWithInline(h.topHitArea.(top := f.top - HitAreaWidth / 4 * 3), rtl, f.inlineStart - HitAreaWidth / 4 * 3),
      HandleWithInline(h.bottom.(top := f.top + f.height), rtl, f.inlineStart + f.width),
      HandleWithInline(h.bottomHitArea.(top := f.top + f.height - HitAreaWidth / 4), rtl, f.inlineStart + f.width - HitAreaWidth / 4))
  }

  /**
   * `updateMultipleSelectionHandlesPosition(row, col, top, left, width, height)`.
   * The result's second part is true when calling `cornerVisible` throws: it is
   * `true` and not a function, so the positions are written and nothing after.
   * The handles bracket the frame: the top handle 11px before its start
   * corner, the bottom handle at its far corner, each hit area centred on its
   * handle's outer corner. The top pair shows exactly when `cornerVisible` is a
   * function answering true; the bottom pair then shows unless the cell is only
   * part of the area; the top pair is raised on the first unfixed row or column.
   */
  function HandlesAfter(h: Handles, row: int, col: int, f: Frame, t: TableView, settings: BorderSettings): (res: (Handles, bool))
    ensures var (r, thrown) := res;
      && (thrown <==> settings.cornerVisible == Flag(true))
      && r.top.top == f.top - 11 && HandleInlineOf(r.top, t.rtl) == f.inlineStart - 11
      && r.topHitArea.top == f.top - 30 && HandleInlineOf(r.topHitArea, t.rtl) == f.inlineStart - 30
      && r.bottom.top == f.top + f.height && HandleInlineOf(r.bottom, t.rtl) == f.inlineStart + f.width
      && r.bottomHitArea.top == r.bottom.top - 10 && HandleInlineOf(r.bottomHitArea, t.rtl) == f.inlineStart + f.width - 10
      && (thrown ==>
          && r.top.display == h.top.display && r.bottom.display == h.bottom.display
          && r.topHitArea.display == h.topHitArea.display && r.bottomHitArea.display == h.bottomHitArea.display
          && r.top.raised == h.top.raised && r.topHitArea.raised == h.topHitArea.raised)
      && (!thrown ==>
          && (r.top.display == DisplayBlock <==> settings.cornerVisible.Callback? && settings.cornerVisible.f(None))
          && r.topHitArea.display == r.top.display && r.bottomHitArea.display == r.bottom.display
          && (r.bottom.display == DisplayBlock <==> r.top.display == DisplayBlock && !IsPartRange(t.areaTo, row, col))
          && (r.top.raised <==> row == t.fixedRowsTop || col == t.fixedColumnsStart)
          && r.topHitArea.raised == r.top.raised)
  {
    var positioned := HandlesPositioned(h, f, t.rtl);
    if settings.cornerVisible == Flag(true) then (positioned, true)
    else
      var visible := settings.cornerVisible.Callback? && settings.cornerVisible.f(None);
      var bottomDisplay := if IsPartRange(t.areaTo, row, col) then DisplayNone else DisplayBlock;
      var shown :=
        if visible then
          positioned.(top := positioned.top.(display := DisplayBlock),
                      topHitArea := positioned.topHitArea.(display := DisplayBlock),
                      bottom := positioned.bottom.(display := bottomDisplay),
                      bottomHitArea := positioned.bottomHitArea.(display := bottomDisplay))
        else
          positioned.(top := positioned.top.(display := DisplayNone),
                      topHitArea := positioned.topHitArea.(display := DisplayNone),
                      bottom := positioned.bottom.(display := DisplayNone),
                      bottomHitArea := positioned.bottomHitArea.(display := DisplayNone));
      var raised := row == t.fixedRowsTop || col == t.fixedColumnsStart;
      (shown.(top := shown.top.(raised := raised), topHitArea := shown.topHitArea.(raised := raised)), false)
  }

  // ---------------------------------------------------------------------------
  // appear and disappear

  /** What `appear` ended in. */
  datatype Outcome = Skipped | Disappeared | Shown | HandlesTypeError

  /** `disappear`: hide the strips and the corner, and on mobile the two handles. */
  function Hidden(s: Styles, mobile: bool): (r: Styles)
    ensures r.top.display == r.start.display == r.bottom.display == r.end.display == r.corner.box.display == DisplayNone
    ensures mobile ==> r.handles.top.display == r.handles.bottom.display == DisplayNone
    ensures r.handles.topHitArea == s.handles.topHitArea && r.handles.bottomHitArea == s.handles.bottomHitArea
    ensures !mobile ==> r.handles == s.handles
  {
    var handles := if mobile then s.handles.(top := s.handles.top.(display := DisplayNone),
                                             bottom := s.handles.bottom.(display := DisplayNone))
                   else s.handles;
    Styles(s.top.(display := DisplayNone), s.start.(display := DisplayNone), s.bottom.(display := DisplayNone),
           s.end.(display := DisplayNone), s.corner.(box := s.corner.box.(display := DisplayNone)), handles)
  }

  /**
   * `appear(corners)` on an enabled border. It hides everything exactly when no
   * rendered row or column is in the range; otherwise the four strips show
   * around the placed frame, the corner follows its rule, the handles change
   * only on mobile, and a type error only comes from a `cornerVisible` of `true`.
   */
  function Appeared(s: Styles, corners: Corners, t: TableView, settings: BorderSettings, mobile: bool): (res: (Styles, Outcome))
    ensures var (r, outcome) := res;
      && (outcome == Disappeared <==> ClipToRendered(corners, t).None?)
      && (outcome == Disappeared ==> r == Hidden(s, mobile))
      && (outcome != Disappeared ==>
          var clip := ClipToRendered(corners, t).value;
          var f := Placed(clip, corners, t);
          && r.top.display == r.start.display == r.bottom.display == r.end.display == DisplayBlock
          && r.top.top == f.top && InlineOf(r.top, t.rtl) == f.inlineStart && r.top.width == f.width
          && r.start.height == f.height
          && (r.corner.box.display == DisplayBlock <==> !CornerHidden(clip, t, settings, mobile)))
      && outcome != Skipped
      && (outcome == HandlesTypeError ==> mobile && settings.cornerVisible == Flag(true))
      && (!mobile ==> r.handles == s.handles)
  {
    match ClipToRendered(corners, t)
    case None => (Hidden(s, mobile), Disappeared)
    case Some(clip) =>
      var f := Placed(clip, corners, t);
      var framed := WithStrips(s, f, t.rtl, settings.width);
      var cornered := framed.(corner := CornerAfter(s.corner, clip, f, t, settings, mobile));
      if mobile then
        var (handles, thrown) := HandlesAfter(s.handles, clip.toRow, clip.toColumn, f, t, settings);
        (cornered.(handles := handles), if thrown then HandlesTypeError else Shown)
      else (cornered, Shown)
  }

  // ---------------------------------------------------------------------------

  class Border {
    var topStyle: BoxStyle
    var startStyle: BoxStyle
    var bottomStyle: BoxStyle
    var endStyle: BoxStyle
    var cornerStyle: CornerStyle
    /** `selectionHandles.styles`, used on mobile browsers only. */
    var handleStyles: Handles
    var mouseDown: bool
    var disabled: bool
    const settings: BorderSettings
    /** `isMobileBrowser()`. */
    const mobile: bool

    function CurrentStyles(): Styles
      reads this
    {
      Styles(topStyle, startStyle, bottomStyle, endStyle, cornerStyle, handleStyles)
    }

    /**
     * A border for the given settings: the mouse is up, the strips and the
     * corner are hidden, the corner is 6px square; positions start at 0.
     */
    constructor (settings: BorderSettings, mobile: bool)
      ensures this.settings == settings && this.mobile == mobile
      ensures !mouseDown && !disabled
      ensures var s := CurrentStyles();
        s.top.display == s.start.display == s.bottom.display == s.end.display == s.corner.box.display == DisplayNone
      ensures cornerStyle.box.width == CornerSize && cornerStyle.box.height == CornerSize
    {
      this.settings := settings;
      this.mobile := mobile;
      mouseDown := false;
      disabled := false;
      var strip := BoxStyle(0, 0, 0, settings.width, settings.width, DisplayNone);
      topStyle, startStyle, bottomStyle, endStyle := strip, strip, strip, strip;
      cornerStyle := CornerStyle(BoxStyle(0, 0, 0, CornerSize, CornerSize, DisplayNone), 1, 1, 1);
      var handle := HandleStyle(0, 0, 0, DisplayNone, false);
      handleStyles := Handles(handle, handle, handle, handle);
    }

    /** `onMouseDown`. */
    method OnMouseDown()
      modifies this
      ensures mouseDown && CurrentStyles() == old(CurrentStyles()) && disabled == old(disabled)
    {
      mouseDown := true;
    }

    /** `onMouseUp`. */
    method OnMouseUp()
      modifies this
      ensures !mouseDown && CurrentStyles() == old(CurrentStyles()) && disabled == old(disabled)
    {
      mouseDown := false;
    }

    /** Writes every style at once; the step-by-step style writes of `appear` and `disappear`, not a source function. */
    method SetStyles(s: Styles)
      modifies this
      ensures CurrentStyles() == s && mouseDown == old(mouseDown) && disabled == old(disabled)
    {
      topStyle, startStyle, bottomStyle, endStyle := s.top, s.start, s.bottom, s.end;
      cornerStyle, handleStyles := s.corner, s.handles;
    }

    /** `disappear`. */
    method Disappear()
      modifies this
      ensures CurrentStyles() == Hidden(old(CurrentStyles()), mobile)
      ensures mouseDown == old(mouseDown) && disabled == old(disabled)
    {
      SetStyles(Hidden(CurrentStyles(), mobile));
    }

    /**
     * `appear(corners)`: nothing on a disabled border; otherwise clip the range
     * to the rendered rows and columns (hiding the border when nothing is left)
     * and draw the strips, the corner and, on mobile, the handles.
     */
    method Appear(corners: Corners, t: TableView) returns (outcome: Outcome)
      modifies this
      ensures mouseDown == old(mouseDown) && disabled == old(disabled)
      ensures old(disabled) ==> outcome == Skipped && CurrentStyles() == old(CurrentStyles())
      ensures !old(disabled) ==> (CurrentStyles(), outcome) == Appeared(old(CurrentStyles()), corners, t, settings, mobile)
    {
      if disabled {
        return Skipped;
      }
      var fromRow := ScanFirst(t.renderedRows, corners.topRow, corners.bottomRow);
      var toRow := ScanLast(t.renderedRows, corners.topRow, corners.bottomRow);
      var fromColumn := ScanFirst(t.renderedColumns, corners.startColumn, corners.endColumn);
      var toColumn := ScanLast(t.renderedColumns, corners.startColumn, corners.endColumn);
      if fromRow.None? || fromColumn.None? {
        Disappear();
        return Disappeared;
      }
      var clip := Clip(fromRow.value, toRow.value, fromColumn.value, toColumn.value);
      assert ClipToRendered(corners, t) == Some(clip);
      var f := Placed(clip, corners, t);
      var s := WithStrips(CurrentStyles(), f, t.rtl, settings.width);
      s := s.(corner := CornerAfter(cornerStyle, clip, f, t, settings, mobile));
      outcome := Shown;
      if mobile {
        var (handles, thrown) := HandlesAfter(handleStyles, clip.toRow, clip.toColumn, f, t, settings);
        s := s.(handles := handles);
        if thrown {
          outcome := HandlesTypeError;
        }
      }
      SetStyles(s);
    }
  }
}
