/** The slice of Win32 that the table custom-draw code talks to: the list
    view's rectangle and state messages, system colours and stock brushes,
    and a device context with its GDI object table. Every native call is an
    oracle: the list view answers rectangle queries through `ListView.rect`,
    and a GDI call fails exactly when its call site is in `Native.failing`
    (each site is reached at most once while one cell is drawn). */
module Win32 {
  import opened Optional
  import opened Geometry

  /** COLORREF: a 32-bit value; colours built by RGB() use the low 24 bits. */
  type ColorRef = c: int | 0 <= c < 0x1_0000_0000

  /** A colour as GetSysColor and RGB() produce it. */
  type Rgb = c: ColorRef | c < 0x100_0000

  /** What SetTextColor returns when it fails. */
  const CLR_INVALID: ColorRef := 0xFFFF_FFFF

  /** Background modes of SetBkMode; SetBkMode returns 0 when it fails. */
  const TRANSPARENT: int := 1
  const OPAQUE: int := 2

  type BkMode = m: int | m == TRANSPARENT || m == OPAQUE witness TRANSPARENT

  /** Custom-draw stages (dwDrawStage) and replies (*lResult). */
  const CDDS_PREPAINT: bv32 := 0x0000_0001
  const CDDS_ITEM: bv32 := 0x0001_0000
  const CDDS_ITEMPREPAINT: bv32 := CDDS_ITEM | CDDS_PREPAINT
  const CDDS_SUBITEM: bv32 := 0x0002_0000

  const CDRF_DODEFAULT: int := 0x00
  const CDRF_SKIPDEFAULT: int := 0x04
  const CDRF_NOTIFYITEMDRAW: int := 0x20
  const CDRF_NOTIFYSUBITEMDRAW: int := 0x20

  /** Item state bits: LVM_GETITEMSTATE's selection bit and custom draw's focus bit. */
  const LVIS_SELECTED: bv32 := 0x0002
  const CDIS_FOCUS: bv32 := 0x0010

  /** Which part of an item a rectangle query asks for (passed in the rectangle's left). */
  const LVIR_BOUNDS: int := 0
  const LVIR_ICON: int := 1
  const LVIR_LABEL: int := 2

  /** The system colours the cell code reads: COLOR_WINDOW, COLOR_WINDOWTEXT,
      COLOR_HIGHLIGHT and COLOR_HIGHLIGHTTEXT. */
  datatype SysColor = Window | WindowText | Highlight | HighlightText

  /** An HBRUSH: NULL, a stock brush of GetSysColorBrush (borrowed), or a brush
      of CreateSolidBrush with its handle and colour (owned by whoever created it). */
  datatype Brush = NullBrush | Stock(sys: SysColor) | Solid(handle: nat, color: Rgb)

  /** LVM_GETITEMRECT (item-wide) and LVM_GETSUBITEMRECT (one column). */
  datatype RectMessage = GetItemRect | GetSubItemRect

  /** One rectangle query: the message, the item, the part asked for and the subitem. */
  datatype Query = Query(msg: RectMessage, item: int, part: int, subItem: int)

  /** The list view's answers: rectangles (None when SendMessageW returns the
      failure value), LVM_GETITEMSTATE per item, and the header's HDM_GETBITMAPMARGIN. */
  datatype ListView = ListView(rect: Query -> Option<Rect>, itemState: int -> bv32, headerBitmapMargin: int)

  /** The native calls of one cell's drawing that can fail, by call site. */
  datatype Site =
    | RectQuery(q: Query)
    | CreateBgBrush
    | CreateTextBrush
    | FillBackground
    | SetCellTextColor
    | SetTransparentMode
    | DrawCellText
    | RestoreBkMode
    | RestoreTextColor
    | DeleteTextBrush
    | DeleteBgBrush

  /** HRESULT. Every failure of this code is E_FAIL; the call site whose failure
      produced it is kept (the code logs that call's name before returning). */
  datatype HResult = S_OK | E_FAIL(at: Site)

  /** The display's fixed answers: which GDI call sites fail, and GetSysColor. */
  datatype Native = Native(failing: set<Site>, sysColor: SysColor -> Rgb)

  /** A FillRect that painted, and a DrawTextW that drew (with the device context's
      text colour and background mode at that moment). */
  datatype FillCall = FillCall(rect: Rect, brush: Brush)
  datatype TextCall = TextCall(text: string, rect: Rect, color: ColorRef, mode: BkMode)

  /** The state of the device context and of the GDI object table: text colour,
      background mode, what was painted and drawn, every brush CreateSolidBrush
      returned and every brush DeleteObject was called on, in order. */
  datatype GdiState = GdiState(
    textColor: ColorRef,
    bkMode: BkMode,
    fills: seq<FillCall>,
    texts: seq<TextCall>,
    created: seq<Brush>,
    deleteCalls: seq<Brush>)

  /** CreateSolidBrush hands out a new handle each time. */
  ghost predicate HandlesFresh(g: GdiState) {
    forall i :: 0 <= i < |g.created| ==> g.created[i].Solid? && g.created[i].handle == i
  }

  function FillRectOp(g: GdiState, n: Native, site: Site, r: Rect, b: Brush): (GdiState, bool) {
    if site in n.failing then (g, false)
    else (g.(fills := g.fills + [FillCall(r, b)]), true)
  }

  /** SetTextColor returns the previous colour, or CLR_INVALID when it fails. */
  function SetTextColorOp(g: GdiState, n: Native, site: Site, c: ColorRef): (GdiState, ColorRef) {
    if site in n.failing then (g, CLR_INVALID)
    else (g.(textColor := c), g.textColor)
  }

  /** SetBkMode returns the previous mode, or 0 when it fails. */
  function SetBkModeOp(g: GdiState, n: Native, site: Site, m: BkMode): (GdiState, int) {
    if site in n.failing then (g, 0 as int)
    else (g.(bkMode := m), g.bkMode as int)
  }

  function DrawTextOp(g: GdiState, n: Native, site: Site, text: string, r: Rect): (GdiState, bool) {
    if site in n.failing then (g, false)
    else (g.(texts := g.texts + [TextCall(text, r, g.textColor, g.bkMode)]), true)
  }

  /** CreateSolidBrush returns NULL when it fails. */
  function CreateSolidBrushOp(g: GdiState, n: Native, site: Site, c: Rgb): (GdiState, Brush) {
    if site in n.failing then (g, NullBrush)
    else
      var b := Solid(|g.created|, c);
      (g.(created := g.created + [b]), b)
  }

  /** Every DeleteObject call is recorded, whether it reports success or not. */
  function DeleteObjectOp(g: GdiState, n: Native, site: Site, b: Brush): (GdiState, bool) {
    (g.(deleteCalls := g.deleteCalls + [b]), site !in n.failing)
  }

  /** GetSysColorBrush: a stock brush, borrowed, never to be deleted. */
  function GetSysColorBrush(c: SysColor): Brush {
    Stock(c)
  }

  /** A device context together with the GDI object table behind it. */
  class Gdi {
    const native: Native
    var textColor: ColorRef
    var bkMode: BkMode
    var fills: seq<FillCall>
    var texts: seq<TextCall>
    var created: seq<Brush>
    var deleteCalls: seq<Brush>

    function State(): GdiState
      reads this
    {
      GdiState(textColor, bkMode, fills, texts, created, deleteCalls)
    }

    ghost predicate Valid()
      reads this
    {
      HandlesFresh(State())
    }

    constructor (native: Native, textColor: ColorRef, bkMode: BkMode)
      ensures Valid() && this.native == native
      ensures State() == GdiState(textColor, bkMode, [], [], [], [])
    {
      this.native := native;
      this.textColor := textColor;
      this.bkMode := bkMode;
      fills, texts, created, deleteCalls := [], [], [], [];
    }

    function GetSysColor(c: SysColor): Rgb {
      native.sysColor(c)
    }

    method FillRect(r: Rect, b: Brush, site: Site) returns (ok: bool)
      requires Valid()
      modifies this
      ensures Valid()
      ensures (State(), ok) == FillRectOp(old(State()), native, site, r, b)
    {
      ok := site !in native.failing;
      if ok {
        fills := fills + [FillCall(r, b)];
      }
    }

    method SetTextColor(c: ColorRef, site: Site) returns (prev: ColorRef)
      requires Valid()
      modifies this
      ensures Valid()
      ensures (State(), prev) == SetTextColorOp(old(State()), native, site, c)
    {
      if site in native.failing {
        prev := CLR_INVALID;
      } else {
        prev := textColor;
        textColor := c;
      }
    }

    method SetBkMode(m: BkMode, site: Site) returns (prev: int)
      requires Valid()
      modifies this
      ensures Valid()
      ensures (State(), prev) == SetBkModeOp(old(State()), native, site, m)
    {
      if site in native.failing {
        prev := 0;
      } else {
        prev := bkMode;
        bkMode := m;
      }
    }

    method DrawText(text: string, r: Rect, site: Site) returns (ok: bool)
      requires Valid()
      modifies this
      ensures Valid()
      ensures (State(), ok) == DrawTextOp(old(State()), native, site, text, r)
    {
      ok := site !in native.failing;
      if ok {
        texts := texts + [TextCall(text, r, textColor, bkMode)];
      }
    }

    method CreateSolidBrush(c: Rgb, site: Site) returns (b: Brush)
      requires Valid()
      modifies this
      ensures Valid()
      ensures (State(), b) == CreateSolidBrushOp(old(State()), native, site, c)
    {
      if site in native.failing {
        b := NullBrush;
      } else {
        b := Solid(|created|, c);
        created := created + [b];
      }
    }

    method DeleteObject(b: Brush, site: Site) returns (ok: bool)
      requires Valid()
      modifies this
      ensures Valid()
      ensures (State(), ok) == DeleteObjectOp(old(State()), native, site, b)
    {
      deleteCalls := deleteCalls + [b];
      ok := site !in native.failing;
    }
  }
}
