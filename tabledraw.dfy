/** The per-cell custom-draw pipeline of the Windows table
    (windows/tabledraw.cpp). `DrawState` is the source's `struct drawState`
    with its steps as methods, and `HandleCustomDraw` is
    uiprivTableHandleNM_CUSTOMDRAW. Each step is proved equal to a function on
    values (`Fill`, `ComputeTextRect`, `TextPart`, `Release`, `Handle`) over
    the record `DrawRec` and the device-context state `GdiState`; the
    properties of the pipeline are proved about those functions in module
    TableDrawProperties. */
module TableDraw {
  import opened Optional
  import opened Geometry
  import opened Win32

  /** The optional text parameters of a column: only the text colour column is read here. */
  datatype TextParams = TextParams(colorModelColumn: int)

  /** uiprivTableColumnParams: the model columns feeding one table column; -1 means none. */
  datatype ColumnParams = ColumnParams(
    textModelColumn: int,
    textParams: TextParams,
    imageModelColumn: int,
    checkboxModelColumn: int)

  /** A colour cell value as uiTableDataColor yields it: channels and alpha. */
  datatype Tint = Tint(r: real, g: real, b: real, a: real)

  /** The model handler's CellValue for colour and text cells; None is a NULL cell value. */
  datatype TableModel = TableModel(cellColor: (int, int) -> Option<Tint>, cellText: (int, int) -> string)

  /** uiTable: its column parameters, its background colour column (-1 for none),
      its model and its list view. */
  datatype Table = Table(columns: seq<ColumnParams>, backgroundColumn: int, model: TableModel, view: ListView)

  /** NMLVCUSTOMDRAW: draw stage, item (row) index, item state bits and subitem (column) index. */
  datatype Notification = Notification(drawStage: bv32, itemSpec: int, itemState: bv32, iSubItem: int)

  /** blend(base, r, g, b, a): the tint laid over a base colour. Its floating-point
      arithmetic is not modelled; only which base colour it is given is. */
  type Blend = (Rgb, Tint) -> Rgb

  /** The first group of drawState's fields: the column's parameters, the cell,
      and the flags derived for it. */
  datatype Cell = Cell(
    p: ColumnParams,
    iItem: int,
    iSubItem: int,
    hasText: bool,
    hasImage: bool,
    selected: bool,
    focused: bool)

  /** The second group: the item's and the subitem's rectangles. */
  datatype Rects = Rects(
    itemBounds: Rect,
    itemIcon: Rect,
    itemLabel: Rect,
    subitemBounds: Rect,
    subitemIcon: Rect,
    subitemLabel: Rect)

  /** The third group: background and text colours, their brushes, and whether
      each brush is owned (to be deleted) by the draw state. */
  datatype Colors = Colors(
    bgColor: Rgb,
    bgBrush: Brush,
    freeBgBrush: bool,
    textColor: Rgb,
    textBrush: Brush,
    freeTextBrush: bool)

  /** The value of a `struct drawState` (the device context, table and model
      pointers are passed to each step instead). */
  datatype DrawRec = DrawRec(
    cell: Cell,
    rects: Rects,
    colors: Colors,
    bitmapMargin: int,
    cxIcon: int,
    cyIcon: int,
    realTextRect: Rect,
    focusRect: Rect)

  const ZeroCell := Cell(ColumnParams(0, TextParams(0), 0, 0), 0, 0, false, false, false, false)
  const ZeroRects := Rects(EmptyRect, EmptyRect, EmptyRect, EmptyRect, EmptyRect, EmptyRect)
  const ZeroColors := Colors(0, NullBrush, false, 0, NullBrush, false)

  /** A drawState after ZeroMemory. */
  const ZeroRec := DrawRec(ZeroCell, ZeroRects, ZeroColors, 0, 0, 0, EmptyRect, EmptyRect)

  // ---------------------------------------------------------------------------
  // fillDrawState

  /** The cell fields fillDrawState sets first: the column flags, the selection
      (asked of the list view with LVM_GETITEMSTATE) and the focus (from the notification). */
  function CellOf(t: Table, nm: Notification, p: ColumnParams): Cell {
    Cell(p, nm.itemSpec, nm.iSubItem,
      p.textModelColumn != -1,
      p.imageModelColumn != -1 || p.checkboxModelColumn != -1,
      (t.view.itemState(nm.itemSpec) & LVIS_SELECTED) != 0,
      (nm.itemState & CDIS_FOCUS) != 0)
  }

  /** The five rectangle queries fillDrawState issues, in order: item bounds,
      icon and label, then the subitem's bounds and icon. */
  function FillQueries(item: int, subItem: int): seq<Query> {
    [Query(GetItemRect, item, LVIR_BOUNDS, 0),
     Query(GetItemRect, item, LVIR_ICON, 0),
     Query(GetItemRect, item, LVIR_LABEL, 0),
     Query(GetSubItemRect, item, LVIR_BOUNDS, subItem),
     Query(GetSubItemRect, item, LVIR_ICON, subItem)]
  }

  /** What itemRect writes before sending query q: a zeroed rectangle with the
      part in its left and the subitem in its top. A failed query leaves it so. */
  function QuerySeed(q: Query): Rect {
    Rect(q.part, q.subItem, 0, 0)
  }

  /** itemRect: passes an earlier failure on without sending anything and without
      writing the rectangle; otherwise seeds the rectangle, sends the query, and
      fails when the list view reports failure. */
  function ItemRect(hr: HResult, view: ListView, q: Query, r: Rect): (HResult, Rect) {
    if hr != S_OK then (hr, r)
    else match view.rect(q)
      case Some(answer) => (S_OK, answer)
      case None => (E_FAIL(RectQuery(q)), QuerySeed(q))
  }

  /** The five chained itemRect calls of fillDrawState: the result code and the
      rectangles afterwards, answered or not. */
  function QueryRects(view: ListView, c: Cell, rs: Rects): (HResult, Rects) {
    var qs := FillQueries(c.iItem, c.iSubItem);
    var (h0, w0) := ItemRect(S_OK, view, qs[0], rs.itemBounds);
    var (h1, w1) := ItemRect(h0, view, qs[1], rs.itemIcon);
    var (h2, w2) := ItemRect(h1, view, qs[2], rs.itemLabel);
    var (h3, w3) := ItemRect(h2, view, qs[3], rs.subitemBounds);
    var (h4, w4) := ItemRect(h3, view, qs[4], rs.subitemIcon);
    (h4, Rects(w0, w1, w2, w3, w4, rs.subitemLabel))
  }

  /** The subitem label starts where the subitem icon ends; on column 0 the subitem
      rectangles would span every column, so their right edge becomes the item label's. */
  function DeriveSubitemLabel(iSubItem: int, rs: Rects): Rects {
    var rs := rs.(subitemLabel := rs.subitemBounds.(left := rs.subitemIcon.right));
    if iSubItem == 0 then
      rs.(subitemBounds := rs.subitemBounds.(right := rs.itemLabel.right),
          subitemLabel := rs.subitemLabel.(right := rs.itemLabel.right))
    else rs
  }

  /** The tint stored in a model column; a column of -1 is not asked. */
  function TintAt(model: TableModel, item: int, column: int): Option<Tint> {
    if column == -1 then None else model.cellColor(item, column)
  }

  /** An unselected cell's background: the window colour and its stock brush, or,
      when the background column holds a colour, that colour blended over the window
      colour in a brush of its own. */
  function TintBackground(t: Table, c: Cell, k: Colors, g: GdiState, n: Native, blend: Blend): (Colors, GdiState, HResult) {
    var k := k.(bgColor := n.sysColor(Window), bgBrush := GetSysColorBrush(Window));
    match TintAt(t.model, c.iItem, t.backgroundColumn)
    case None => (k, g, S_OK)
    case Some(tint) =>
      var k := k.(bgColor := blend(k.bgColor, tint));
      var (g', b) := CreateSolidBrushOp(g, n, CreateBgBrush, k.bgColor);
      var k := k.(bgBrush := b);
      if b == NullBrush then (k, g', E_FAIL(CreateBgBrush))
      else (k.(freeBgBrush := true), g', S_OK)
  }

  /** An unselected cell's text: the window-text colour and its stock brush, or,
      when the column's text colour column holds a colour, that colour blended over
      the background colour already resolved, in a brush of its own. */
  function TintText(t: Table, c: Cell, k: Colors, g: GdiState, n: Native, blend: Blend): (Colors, GdiState, HResult) {
    var k := k.(textColor := n.sysColor(WindowText), textBrush := GetSysColorBrush(WindowText));
    match TintAt(t.model, c.iItem, c.p.textParams.colorModelColumn)
    case None => (k, g, S_OK)
    case Some(tint) =>
      var k := k.(textColor := blend(k.bgColor, tint));
      var (g', b) := CreateSolidBrushOp(g, n, CreateTextBrush, k.textColor);
      var k := k.(textBrush := b);
      if b == NullBrush then (k, g', E_FAIL(CreateTextBrush))
      else (k.(freeTextBrush := true), g', S_OK)
  }

  /** Colours and brushes: the highlight colours and stock brushes for a selected
      cell, otherwise the background and then the text. */
  function ResolveColors(t: Table, c: Cell, k: Colors, g: GdiState, n: Native, blend: Blend): (Colors, GdiState, HResult) {
    if c.selected then
      (k.(bgColor := n.sysColor(Highlight), bgBrush := GetSysColorBrush(Highlight),
          textColor := n.sysColor(HighlightText), textBrush := GetSysColorBrush(HighlightText)), g, S_OK)
    else
      var (k1, g1, hr1) := TintBackground(t, c, k, g, n, blend);
      if hr1 != S_OK then (k1, g1, hr1)
      else TintText(t, c, k1, g1, n, blend)
  }

  /** The failure path of fillDrawState: free what is owned, return the original error. */
  function Abandon(s: DrawRec, g: GdiState, n: Native, hr: HResult): (DrawRec, GdiState, HResult) {
    var (s', g', _) := Release(s, g, n);
    (s', g', hr)
  }

  /** fillDrawState. */
  function Fill(t: Table, nm: Notification, p: ColumnParams, g: GdiState, n: Native, blend: Blend): (DrawRec, GdiState, HResult) {
    var c := CellOf(t, nm, p);
    var (hr, rs) := QueryRects(t.view, c, ZeroRects);
    var s := ZeroRec.(cell := c, rects := rs);
    if hr != S_OK then Abandon(s, g, n, hr)
    else
      var s := s.(rects := DeriveSubitemLabel(c.iSubItem, rs));
      var (k, g', hr') := ResolveColors(t, c, s.colors, g, n, blend);
      var s := s.(colors := k);
      if hr' != S_OK then Abandon(s, g', n, hr')
      else (s.(bitmapMargin := t.view.headerBitmapMargin), g', S_OK)
  }

  // ---------------------------------------------------------------------------
  // computeAndDrawTextRect

  /** The rectangle painted with the background: the label, or the whole subitem
      when the column has neither text nor image. */
  function FillTarget(s: DrawRec): Rect {
    if !s.cell.hasText && !s.cell.hasImage then s.rects.subitemBounds else s.rects.subitemLabel
  }

  /** How far text starts right of the painted rectangle: 2 units after an image,
      a bitmap margin without one, nothing on column 0. */
  function TextInset(s: DrawRec): int {
    if s.cell.hasImage && s.cell.iSubItem != 0 then 2
    else if s.cell.iSubItem != 0 then s.bitmapMargin
    else 0
  }

  /** computeAndDrawTextRect. */
  function ComputeTextRect(s: DrawRec, g: GdiState, n: Native): (DrawRec, GdiState, HResult) {
    var r := FillTarget(s);
    var (g', painted) := FillRectOp(g, n, FillBackground, r, s.colors.bgBrush);
    if !painted then (s, g', E_FAIL(FillBackground))
    else (s.(focusRect := UnionRect(s.focusRect, r), realTextRect := r.(left := r.left + TextInset(s))), g', S_OK)
  }

  // ---------------------------------------------------------------------------
  // drawTextPart

  /** drawTextPart: set the text colour and transparent mode, draw the cell's
      string, then restore mode and colour and check what the restores return. */
  function TextPart(s: DrawRec, model: TableModel, g: GdiState, n: Native): (GdiState, HResult) {
    if !s.cell.hasText then (g, S_OK)
    else
      var (g1, prevText) := SetTextColorOp(g, n, SetCellTextColor, s.colors.textColor);
      if prevText == CLR_INVALID then (g1, E_FAIL(SetCellTextColor))
      else
        var (g2, prevMode) := SetBkModeOp(g1, n, SetTransparentMode, TRANSPARENT);
        if prevMode == 0 then (g2, E_FAIL(SetTransparentMode))
        else
          var text := model.cellText(s.cell.iItem, s.cell.p.textModelColumn);
          var (g3, drawn) := DrawTextOp(g2, n, DrawCellText, text, s.realTextRect);
          if !drawn then (g3, E_FAIL(DrawCellText))
          else
            var (g4, mode) := SetBkModeOp(g3, n, RestoreBkMode, prevMode);
            if mode != TRANSPARENT then (g4, E_FAIL(RestoreBkMode))
            else
              var (g5, color) := SetTextColorOp(g4, n, RestoreTextColor, prevText);
              if color != s.colors.textColor then (g5, E_FAIL(RestoreTextColor))
              else (g5, S_OK)
  }

  // ---------------------------------------------------------------------------
  // freeDrawState

  /** One DeleteObject whose failure turns the running result into E_FAIL. */
  function DeleteChecked(g: GdiState, n: Native, site: Site, b: Brush, hr: HResult): (GdiState, HResult) {
    var (g', deleted) := DeleteObjectOp(g, n, site, b);
    (g', if deleted then hr else E_FAIL(site))
  }

  /** freeDrawState: delete the text brush, then the background brush, each only
      when owned; clear both flags; fail when a delete fails. */
  function Release(s: DrawRec, g: GdiState, n: Native): (DrawRec, GdiState, HResult) {
    var k := s.colors;
    var (g1, hr1) := if k.freeTextBrush then DeleteChecked(g, n, DeleteTextBrush, k.textBrush, S_OK) else (g, S_OK);
    var (g2, hr2) := if k.freeBgBrush then DeleteChecked(g1, n, DeleteBgBrush, k.bgBrush, hr1) else (g1, hr1);
    (s.(colors := k.(freeTextBrush := false, freeBgBrush := false)), g2, hr2)
  }

  // ---------------------------------------------------------------------------
  // uiprivTableHandleNM_CUSTOMDRAW

  /** What a draw stage asks for: a reply, or the custom drawing of one subitem. */
  datatype StageAction = Reply(code: int) | DrawSubitem

  function ActionFor(stage: bv32): StageAction {
    if stage == CDDS_PREPAINT then Reply(CDRF_NOTIFYITEMDRAW)
    else if stage == CDDS_ITEMPREPAINT then Reply(CDRF_NOTIFYSUBITEMDRAW)
    else if stage == CDDS_SUBITEM | CDDS_ITEMPREPAINT then DrawSubitem
    else Reply(CDRF_DODEFAULT)
  }

  /** A failed drawing step: free the draw state, ignore that result, keep the step's error. */
  function AbandonDraw(s: DrawRec, g: GdiState, n: Native, hr: HResult, lResult: int): (HResult, int, GdiState) {
    var (_, g', _) := Release(s, g, n);
    (hr, lResult, g')
  }

  /** The subitem pre-paint stage: the result code, *lResult afterwards and the
      device-context state. */
  function DrawCell(t: Table, nm: Notification, lResult: int, g: GdiState, n: Native, blend: Blend): (HResult, int, GdiState)
    requires 0 <= nm.iSubItem < |t.columns|
  {
    var (s1, g1, hr1) := Fill(t, nm, t.columns[nm.iSubItem], g, n, blend);
    if hr1 != S_OK then (hr1, lResult, g1)
    else DrawFilled(s1, t.model, lResult, g1, n)
  }

  /** The drawing steps after a successful fillDrawState, and the final free. */
  function DrawFilled(s1: DrawRec, model: TableModel, lResult: int, g1: GdiState, n: Native): (HResult, int, GdiState) {
    var (s2, g2, hr2) := ComputeTextRect(s1, g1, n);
    if hr2 != S_OK then AbandonDraw(s2, g2, n, hr2, lResult)
    else
      var (g3, hr3) := TextPart(s2, model, g2, n);
      if hr3 != S_OK then AbandonDraw(s2, g3, n, hr3, lResult)
      else
        var (_, g4, hr4) := Release(s2, g3, n);
        if hr4 != S_OK then (hr4, lResult, g4)
        else (S_OK, CDRF_SKIPDEFAULT, g4)
  }

  /** uiprivTableHandleNM_CUSTOMDRAW: the result code, the value of *lResult after
      the call (unchanged when not written) and the device-context state. */
  function Handle(t: Table, nm: Notification, lResult: int, g: GdiState, n: Native, blend: Blend): (HResult, int, GdiState)
    requires ActionFor(nm.drawStage) == DrawSubitem ==> 0 <= nm.iSubItem < |t.columns|
  {
    match ActionFor(nm.drawStage)
    case Reply(code) => (S_OK, code, g)
    case DrawSubitem => DrawCell(t, nm, lResult, g, n, blend)
  }

  // ---------------------------------------------------------------------------
  // The imperative code

  /** struct drawState, one per cell being drawn; its fields are kept in the
      struct's own groups. */
  class DrawState {
    var cell: Cell
    var rects: Rects
    var colors: Colors
    var bitmapMargin: int
    var cxIcon: int
    var cyIcon: int
    var realTextRect: Rect
    var focusRect: Rect

    function Snapshot(): DrawRec
      reads this
    {
      DrawRec(cell, rects, colors, bitmapMargin, cxIcon, cyIcon, realTextRect, focusRect)
    }

    /** A draw state as declared on the stack: its contents are whatever they are. */
    constructor ()
    {
    }

    method FillDrawState(t: Table, nm: Notification, p: ColumnParams, dc: Gdi, blend: Blend) returns (hr: HResult)
      requires dc.Valid()
      modifies this, dc
      ensures dc.Valid()
      ensures (Snapshot(), dc.State(), hr) == Fill(t, nm, p, old(dc.State()), dc.native, blend)
    {
      Start(t, nm, p);
      hr := IssueQueries(t.view);
      if hr != S_OK {
        var _ := FreeDrawState(dc);
        return;
      }
      DeriveSubitemRects();
      hr := FillColors(t, dc, blend);
      if hr != S_OK {
        var _ := FreeDrawState(dc);
        return;
      }
      bitmapMargin := t.view.headerBitmapMargin;
    }

    /** ZeroMemory, then the cell's fields. */
    method Start(t: Table, nm: Notification, p: ColumnParams)
      modifies this
      ensures Snapshot() == ZeroRec.(cell := CellOf(t, nm, p))
    {
      cell, rects, colors := ZeroCell, ZeroRects, ZeroColors;
      bitmapMargin, cxIcon, cyIcon := 0, 0, 0;
      realTextRect, focusRect := EmptyRect, EmptyRect;

      cell := cell.(p := p, iItem := nm.itemSpec, iSubItem := nm.iSubItem);
      cell := cell.(hasText := p.textModelColumn != -1);
      cell := cell.(hasImage := p.imageModelColumn != -1 || p.checkboxModelColumn != -1);
      var state := t.view.itemState(nm.itemSpec);
      cell := cell.(selected := (state & LVIS_SELECTED) != 0);
      cell := cell.(focused := (nm.itemState & CDIS_FOCUS) != 0);
    }

    /** The subitem label from the subitem's bounds and icon, clamped on column 0. */
    method DeriveSubitemRects()
      modifies this`rects
      ensures rects == DeriveSubitemLabel(cell.iSubItem, old(rects))
    {
      rects := rects.(subitemLabel := rects.subitemBounds);
      rects := rects.(subitemLabel := rects.subitemLabel.(left := rects.subitemIcon.right));
      if cell.iSubItem == 0 {
        rects := rects.(subitemBounds := rects.subitemBounds.(right := rects.itemLabel.right));
        rects := rects.(subitemLabel := rects.subitemLabel.(right := rects.itemLabel.right));
      }
    }

    /** The five chained itemRect calls of fillDrawState. */
    method IssueQueries(view: ListView) returns (hr: HResult)
      modifies this`rects
      ensures (hr, rects) == QueryRects(view, cell, old(rects))
    {
      var qs := FillQueries(cell.iItem, cell.iSubItem);
      var res := ItemRect(S_OK, view, qs[0], rects.itemBounds);
      hr, rects := res.0, rects.(itemBounds := res.1);
      res := ItemRect(hr, view, qs[1], rects.itemIcon);
      hr, rects := res.0, rects.(itemIcon := res.1);
      res := ItemRect(hr, view, qs[2], rects.itemLabel);
      hr, rects := res.0, rects.(itemLabel := res.1);
      res := ItemRect(hr, view, qs[3], rects.subitemBounds);
      hr, rects := res.0, rects.(subitemBounds := res.1);
      res := ItemRect(hr, view, qs[4], rects.subitemIcon);
      hr, rects := res.0, rects.(subitemIcon := res.1);
    }

    /** The colours and brushes part of fillDrawState. */
    method FillColors(t: Table, dc: Gdi, blend: Blend) returns (hr: HResult)
      requires dc.Valid()
      modifies this`colors, dc
      ensures dc.Valid()
      ensures (colors, dc.State(), hr) == ResolveColors(t, cell, old(colors), old(dc.State()), dc.native, blend)
    {
      hr := S_OK;
      if cell.selected {
        colors := colors.(bgColor := dc.GetSysColor(Highlight), bgBrush := GetSysColorBrush(Highlight));
        colors := colors.(textColor := dc.GetSysColor(HighlightText), textBrush := GetSysColorBrush(HighlightText));
        return;
      }

      colors := colors.(bgColor := dc.GetSysColor(Window), bgBrush := GetSysColorBrush(Window));
      if t.backgroundColumn != -1 {
        var data := t.model.cellColor(cell.iItem, t.backgroundColumn);
        if data.Some? {
          colors := colors.(bgColor := blend(colors.bgColor, data.value));
          var b := dc.CreateSolidBrush(colors.bgColor, CreateBgBrush);
          colors := colors.(bgBrush := b);
          if b == NullBrush {
            return E_FAIL(CreateBgBrush);
          }
          colors := colors.(freeBgBrush := true);
        }
      }

      colors := colors.(textColor := dc.GetSysColor(WindowText), textBrush := GetSysColorBrush(WindowText));
      if cell.p.textParams.colorModelColumn != -1 {
        var data := t.model.cellColor(cell.iItem, cell.p.textParams.colorModelColumn);
        if data.Some? {
          colors := colors.(textColor := blend(colors.bgColor, data.value));
          var b := dc.CreateSolidBrush(colors.textColor, CreateTextBrush);
          colors := colors.(textBrush := b);
          if b == NullBrush {
            return E_FAIL(CreateTextBrush);
          }
          colors := colors.(freeTextBrush := true);
        }
      }
    }

    method ComputeAndDrawTextRect(dc: Gdi) returns (hr: HResult)
      requires dc.Valid()
      modifies this`focusRect, this`realTextRect, dc
      ensures dc.Valid()
      ensures (Snapshot(), dc.State(), hr) == ComputeTextRect(old(Snapshot()), old(dc.State()), dc.native)
    {
      var r := rects.subitemLabel;
      if !cell.hasText && !cell.hasImage {
        r := rects.subitemBounds;
      }
      var painted := dc.FillRect(r, colors.bgBrush, FillBackground);
      if !painted {
        return E_FAIL(FillBackground);
      }
      focusRect := UnionRect(focusRect, r);
      realTextRect := r;
      if cell.hasImage && cell.iSubItem != 0 {
        realTextRect := realTextRect.(left := realTextRect.left + 2);
      } else if cell.iSubItem != 0 {
        realTextRect := realTextRect.(left := realTextRect.left + bitmapMargin);
      }
      hr := S_OK;
    }

    method DrawTextPart(model: TableModel, dc: Gdi) returns (hr: HResult)
      requires dc.Valid()
      modifies dc
      ensures dc.Valid()
      ensures (dc.State(), hr) == TextPart(Snapshot(), model, old(dc.State()), dc.native)
    {
      if !cell.hasText {
        return S_OK;
      }
      var prevText := dc.SetTextColor(colors.textColor, SetCellTextColor);
      if prevText == CLR_INVALID {
        return E_FAIL(SetCellTextColor);
      }
      var prevMode := dc.SetBkMode(TRANSPARENT, SetTransparentMode);
      if prevMode == 0 {
        return E_FAIL(SetTransparentMode);
      }
      var text := model.cellText(cell.iItem, cell.p.textModelColumn);
      var drawn := dc.DrawText(text, realTextRect, DrawCellText);
      if !drawn {
        return E_FAIL(DrawCellText);
      }
      var mode := dc.SetBkMode(prevMode, RestoreBkMode);
      if mode != TRANSPARENT {
        return E_FAIL(RestoreBkMode);
      }
      var color := dc.SetTextColor(prevText, RestoreTextColor);
      if color != colors.textColor {
        return E_FAIL(RestoreTextColor);
      }
      hr := S_OK;
    }

    method FreeDrawState(dc: Gdi) returns (hr: HResult)
      requires dc.Valid()
      modifies this`colors, dc
      ensures dc.Valid()
      ensures (Snapshot(), dc.State(), hr) == Release(old(Snapshot()), old(dc.State()), dc.native)
    {
      hr := S_OK;
      if colors.freeTextBrush {
        var deleted := dc.DeleteObject(colors.textBrush, DeleteTextBrush);
        if !deleted {
          hr := E_FAIL(DeleteTextBrush);
        }
        colors := colors.(freeTextBrush := false);
      }
      if colors.freeBgBrush {
        var deleted := dc.DeleteObject(colors.bgBrush, DeleteBgBrush);
        if !deleted {
          hr := E_FAIL(DeleteBgBrush);
        }
        colors := colors.(freeBgBrush := false);
      }
    }
  }

  /** An LRESULT written through a pointer. */
  class LResult {
    var value: int

    constructor (value: int)
      ensures this.value == value
    {
      this.value := value;
    }
  }

  /** uiprivTableHandleNM_CUSTOMDRAW. */
  method HandleCustomDraw(t: Table, nm: Notification, lResult: LResult, dc: Gdi, blend: Blend) returns (hr: HResult)
    requires dc.Valid()
    requires ActionFor(nm.drawStage) == DrawSubitem ==> 0 <= nm.iSubItem < |t.columns|
    modifies lResult, dc
    ensures dc.Valid()
    ensures (hr, lResult.value, dc.State()) == Handle(t, nm, old(lResult.value), old(dc.State()), dc.native, blend)
  {
    if nm.drawStage == CDDS_PREPAINT {
      lResult.value := CDRF_NOTIFYITEMDRAW;
      return S_OK;
    } else if nm.drawStage == CDDS_ITEMPREPAINT {
      lResult.value := CDRF_NOTIFYSUBITEMDRAW;
      return S_OK;
    } else if nm.drawStage != CDDS_SUBITEM | CDDS_ITEMPREPAINT {
      lResult.value := CDRF_DODEFAULT;
      return S_OK;
    }

    var p := t.columns[nm.iSubItem];
    var s := new DrawState();
    hr := s.FillDrawState(t, nm, p, dc, blend);
    if hr != S_OK {
      return;
    }
    hr := s.ComputeAndDrawTextRect(dc);
    if hr != S_OK {
      var _ := s.FreeDrawState(dc);
      return;
    }
    hr := s.DrawTextPart(t.model, dc);
    if hr != S_OK {
      var _ := s.FreeDrawState(dc);
      return;
    }
    hr := s.FreeDrawState(dc);
    if hr != S_OK {
      return;
    }
    lResult.value := CDRF_SKIPDEFAULT;
    hr := S_OK;
  }
}
