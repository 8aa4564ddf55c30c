/** What the custom-draw pipeline of windows/tabledraw.cpp guarantees, proved
    about the functions of module TableDraw (and so, through the methods'
    postconditions, about `DrawState` and `HandleCustomDraw`). */
module TableDrawProperties {
  import opened Optional
  import opened Geometry
  import opened Win32
  import opened TableDraw

  // ---------------------------------------------------------------------------
  // Stage dispatch

  /** Exactly one draw stage draws a cell: CDDS_SUBITEM | CDDS_ITEMPREPAINT. */
  lemma OnlySubitemPrepaintDraws(stage: bv32)
    ensures ActionFor(stage) == DrawSubitem <==> stage == CDDS_SUBITEM | CDDS_ITEMPREPAINT
  {
  }

  /** Every other stage is answered at once: item notifications are asked for at
      pre-paint, subitem notifications at item pre-paint, and the rest is left to
      the list view; the device context is not touched. */
  lemma OtherStagesReply(t: Table, nm: Notification, lResult: int, g: GdiState, n: Native, blend: Blend)
    requires nm.drawStage != CDDS_SUBITEM | CDDS_ITEMPREPAINT
    ensures var (hr, lr, g') := Handle(t, nm, lResult, g, n, blend);
      hr == S_OK && g' == g &&
      lr == (if nm.drawStage == CDDS_PREPAINT then CDRF_NOTIFYITEMDRAW
             else if nm.drawStage == CDDS_ITEMPREPAINT then CDRF_NOTIFYSUBITEMDRAW
             else CDRF_DODEFAULT)
  {
  }

  // ---------------------------------------------------------------------------
  // Outcome and error precedence

  /** The two DeleteObject calls of freeDrawState: the text brush's and the
      background brush's. */
  predicate CleanupSite(site: Site) {
    site == DeleteTextBrush || site == DeleteBgBrush
  }

  /** A drawn cell succeeds exactly when fillDrawState, computeAndDrawTextRect,
      drawTextPart and the final freeDrawState all succeed; once the three drawing
      steps have succeeded, the result is the final free's. *lResult becomes
      CDRF_SKIPDEFAULT on success and is left as it was on any failure. */
  lemma DrawnCellOutcome(t: Table, nm: Notification, lResult: int, g: GdiState, n: Native, blend: Blend)
    requires nm.drawStage == CDDS_SUBITEM | CDDS_ITEMPREPAINT && 0 <= nm.iSubItem < |t.columns|
    ensures var (hr, lr, _) := Handle(t, nm, lResult, g, n, blend);
      var (s1, g1, hr1) := Fill(t, nm, t.columns[nm.iSubItem], g, n, blend);
      var (s2, g2, hr2) := ComputeTextRect(s1, g1, n);
      var (g3, hr3) := TextPart(s2, t.model, g2, n);
      (hr == S_OK <==> hr1 == S_OK && hr2 == S_OK && hr3 == S_OK && Release(s2, g3, n).2 == S_OK) &&
      (hr1 == S_OK && hr2 == S_OK && hr3 == S_OK ==> hr == Release(s2, g3, n).2) &&
      lr == (if hr == S_OK then CDRF_SKIPDEFAULT else lResult)
  {
    OnlySubitemPrepaintDraws(nm.drawStage);
  }

  /** fillDrawState reports the error of the query or brush creation that failed,
      never the result of freeing what it had created. */
  lemma FillReportsItsOwnError(t: Table, nm: Notification, p: ColumnParams, g: GdiState, n: Native, blend: Blend)
    ensures var hr := Fill(t, nm, p, g, n, blend).2;
      hr == S_OK || hr.at.RectQuery? || hr.at == CreateBgBrush || hr.at == CreateTextBrush
  {
    var c := CellOf(t, nm, p);
    var (hr, rs) := QueryRects(t.view, c, ZeroRects);
    QueryRectsShortCircuit(t.view, c, ZeroRects);
    if hr == S_OK {
      var (k, g', hr') := ResolveColors(t, c, ZeroColors, g, n, blend);
      assert hr' == S_OK || hr'.at == CreateBgBrush || hr'.at == CreateTextBrush;
    }
  }

  /** Once every rectangle query is answered, fillDrawState fails only when it
      creates a brush: a selected cell always succeeds; an unselected one fails
      with the background brush's creation when its background is tinted and that
      CreateSolidBrush fails, else with the text brush's when its text is tinted
      and that one fails, and succeeds otherwise. */
  lemma FillBrushOutcome(t: Table, nm: Notification, p: ColumnParams, g: GdiState, n: Native, blend: Blend)
    requires FirstUnanswered(t.view, FillQueries(nm.itemSpec, nm.iSubItem), 0) == S_OK
    ensures var hr := Fill(t, nm, p, g, n, blend).2;
      var selected := (t.view.itemState(nm.itemSpec) & LVIS_SELECTED) != 0;
      var bgFails := TintAt(t.model, nm.itemSpec, t.backgroundColumn).Some? && CreateBgBrush in n.failing;
      var textFails := TintAt(t.model, nm.itemSpec, p.textParams.colorModelColumn).Some? && CreateTextBrush in n.failing;
      hr == (if selected then S_OK
             else if bgFails then E_FAIL(CreateBgBrush)
             else if textFails then E_FAIL(CreateTextBrush)
             else S_OK)
  {
    QueryRectsShortCircuit(t.view, CellOf(t, nm, p), ZeroRects);
  }

  /** The error of the first drawing step that fails is the one returned, with
      *lResult untouched, whatever freeing the draw state then reports. */
  lemma DrawingErrorIsReported(t: Table, nm: Notification, lResult: int, g: GdiState, n: Native, blend: Blend)
    requires nm.drawStage == CDDS_SUBITEM | CDDS_ITEMPREPAINT && 0 <= nm.iSubItem < |t.columns|
    ensures var (hr, lr, _) := Handle(t, nm, lResult, g, n, blend);
      var (s1, g1, hr1) := Fill(t, nm, t.columns[nm.iSubItem], g, n, blend);
      var (s2, g2, hr2) := ComputeTextRect(s1, g1, n);
      var hr3 := TextPart(s2, t.model, g2, n).1;
      (hr1 != S_OK ==> hr == hr1 && lr == lResult) &&
      (hr1 == S_OK && hr2 != S_OK ==> hr == hr2 && lr == lResult) &&
      (hr1 == S_OK && hr2 == S_OK && hr3 != S_OK ==> hr == hr3 && lr == lResult)
  {
    OnlySubitemPrepaintDraws(nm.drawStage);
  }

  /** A failing DeleteObject is reported only when every drawing step succeeded:
      the error of a failed step is never replaced by the cleanup's. */
  lemma CleanupErrorOnlyAfterDrawing(t: Table, nm: Notification, lResult: int, g: GdiState, n: Native, blend: Blend)
    requires nm.drawStage == CDDS_SUBITEM | CDDS_ITEMPREPAINT && 0 <= nm.iSubItem < |t.columns|
    requires var hr := Handle(t, nm, lResult, g, n, blend).0; hr != S_OK && CleanupSite(hr.at)
    ensures var (s1, g1, hr1) := Fill(t, nm, t.columns[nm.iSubItem], g, n, blend);
      var (s2, g2, hr2) := ComputeTextRect(s1, g1, n);
      hr1 == S_OK && hr2 == S_OK && TextPart(s2, t.model, g2, n).1 == S_OK
  {
    OnlySubitemPrepaintDraws(nm.drawStage);
    FillReportsItsOwnError(t, nm, t.columns[nm.iSubItem], g, n, blend);
    var (s1, g1, hr1) := Fill(t, nm, t.columns[nm.iSubItem], g, n, blend);
    var (s2, g2, hr2) := ComputeTextRect(s1, g1, n);
    TextPartErrorSites(s2, t.model, g2, n);
  }

  // ---------------------------------------------------------------------------
  // The rectangle queries

  /** The first of the queries from index `from` on that the list view cannot
      answer, as the error itemRect reports. */
  function FirstUnanswered(view: ListView, qs: seq<Query>, from: nat): HResult
    decreases |qs| - from
  {
    if from >= |qs| then S_OK
    else if view.rect(qs[from]).None? then E_FAIL(RectQuery(qs[from]))
    else FirstUnanswered(view, qs, from + 1)
  }

  predicate Answered(view: ListView, q: Query) {
    view.rect(q).Some?
  }

  /** The rectangles the five queries write, in query order. */
  function Queried(rs: Rects): seq<Rect> {
    [rs.itemBounds, rs.itemIcon, rs.itemLabel, rs.subitemBounds, rs.subitemIcon]
  }

  /** What query q leaves in its rectangle when it is sent. */
  function Written(view: ListView, q: Query): Rect {
    match view.rect(q)
    case Some(answer) => answer
    case None => QuerySeed(q)
  }

  /** The query chain stops at the first query the list view fails: that query's
      error is the result, it and every earlier query write their rectangles, and
      every later query is never sent and leaves its rectangle as it was. */
  lemma QueryRectsShortCircuit(view: ListView, c: Cell, rs: Rects)
    ensures var qs := FillQueries(c.iItem, c.iSubItem);
      var (hr, w) := QueryRects(view, c, rs);
      hr == FirstUnanswered(view, qs, 0) &&
      w.subitemLabel == rs.subitemLabel &&
      forall i :: 0 <= i < 5 ==>
        Queried(w)[i] == if forall j :: 0 <= j < i ==> Answered(view, qs[j]) then Written(view, qs[i]) else Queried(rs)[i]
  {
    var qs := FillQueries(c.iItem, c.iSubItem);
    assert FirstUnanswered(view, qs, 4) == if view.rect(qs[4]).None? then E_FAIL(RectQuery(qs[4])) else S_OK;
    assert FirstUnanswered(view, qs, 2) ==
      if view.rect(qs[2]).None? then E_FAIL(RectQuery(qs[2]))
      else if view.rect(qs[3]).None? then E_FAIL(RectQuery(qs[3]))
      else FirstUnanswered(view, qs, 4);
  }

  /** When a rectangle query fails, fillDrawState returns that query's error and,
      having created no brush yet, leaves the device context as it was. */
  lemma FillStopsAtFirstUnanswered(t: Table, nm: Notification, p: ColumnParams, g: GdiState, n: Native, blend: Blend)
    requires FirstUnanswered(t.view, FillQueries(nm.itemSpec, nm.iSubItem), 0) != S_OK
    ensures var (s, g', hr) := Fill(t, nm, p, g, n, blend);
      hr == FirstUnanswered(t.view, FillQueries(nm.itemSpec, nm.iSubItem), 0) && g' == g &&
      s.colors == ZeroColors
  {
    QueryRectsShortCircuit(t.view, CellOf(t, nm, p), ZeroRects);
  }

  // ---------------------------------------------------------------------------
  // Geometry of a filled draw state

  /** After a successful fillDrawState every query was answered and the item
      rectangles are the list view's answers; the subitem label is the subitem's
      bounds starting at the right of its icon, with the same top and bottom; on
      column 0 both subitem rectangles end where the item label ends. */
  lemma FillGeometry(t: Table, nm: Notification, p: ColumnParams, g: GdiState, n: Native, blend: Blend)
    requires Fill(t, nm, p, g, n, blend).2 == S_OK
    ensures var r := Fill(t, nm, p, g, n, blend).0.rects;
      var qs := FillQueries(nm.itemSpec, nm.iSubItem);
      var bounds := Written(t.view, qs[3]);
      (forall i :: 0 <= i < 5 ==> Answered(t.view, qs[i])) &&
      r.itemBounds == Written(t.view, qs[0]) && r.itemIcon == Written(t.view, qs[1]) &&
      r.itemLabel == Written(t.view, qs[2]) && r.subitemIcon == Written(t.view, qs[4]) &&
      r.subitemLabel.left == r.subitemIcon.right &&
      r.subitemLabel.top == bounds.top && r.subitemLabel.bottom == bounds.bottom &&
      r.subitemBounds == (if nm.iSubItem == 0 then bounds.(right := r.itemLabel.right) else bounds) &&
      r.subitemLabel.right == r.subitemBounds.right
  {
    var c := CellOf(t, nm, p);
    var qs := FillQueries(nm.itemSpec, nm.iSubItem);
    QueryRectsShortCircuit(t.view, c, ZeroRects);
    var w := QueryRects(t.view, c, ZeroRects).1;
    FirstUnansweredOk(t.view, qs, 0);
    assert Queried(w)[3] == Written(t.view, qs[3]);
  }

  /** No error means every query was answered. */
  lemma {:induction false} FirstUnansweredOk(view: ListView, qs: seq<Query>, from: nat)
    requires FirstUnanswered(view, qs, from) == S_OK
    ensures forall i :: from <= i < |qs| ==> Answered(view, qs[i])
    decreases |qs| - from
  {
    if from < |qs| {
      FirstUnansweredOk(view, qs, from + 1);
    }
  }

  // ---------------------------------------------------------------------------
  // Cell flags and colours

  /** The cell shows text exactly when the column has a text model column, an
      image exactly when it has an image or a checkbox model column; it is
      selected as LVM_GETITEMSTATE says and focused as the notification says. */
  lemma FillCellFlags(t: Table, nm: Notification, p: ColumnParams, g: GdiState, n: Native, blend: Blend)
    ensures var c := Fill(t, nm, p, g, n, blend).0.cell;
      c.p == p && c.iItem == nm.itemSpec && c.iSubItem == nm.iSubItem &&
      (c.hasText <==> p.textModelColumn != -1) &&
      (c.hasImage <==> p.imageModelColumn != -1 || p.checkboxModelColumn != -1) &&
      (c.selected <==> t.view.itemState(nm.itemSpec) & LVIS_SELECTED != 0) &&
      (c.focused <==> nm.itemState & CDIS_FOCUS != 0)
  {
  }

  /** A selected cell is drawn in the highlight colours with the stock brushes,
      which it does not own; nothing is created. */
  lemma SelectedCellColors(t: Table, nm: Notification, p: ColumnParams, g: GdiState, n: Native, blend: Blend)
    requires (t.view.itemState(nm.itemSpec) & LVIS_SELECTED) != 0
    requires Fill(t, nm, p, g, n, blend).2 == S_OK
    ensures var (s, g', _) := Fill(t, nm, p, g, n, blend);
      s.colors == Colors(n.sysColor(Highlight), Stock(Highlight), false, n.sysColor(HighlightText), Stock(HighlightText), false) &&
      g' == g
  {
  }

  /** An unselected cell: the background is the window colour with its stock
      brush unless the background column holds a tint, which is blended over the
      window colour into a brush the cell owns; likewise the text, whose tint is
      blended over the background colour just chosen. */
  lemma UnselectedCellColors(t: Table, nm: Notification, p: ColumnParams, g: GdiState, n: Native, blend: Blend)
    requires (t.view.itemState(nm.itemSpec) & LVIS_SELECTED) == 0
    requires Fill(t, nm, p, g, n, blend).2 == S_OK
    ensures var (s, g', _) := Fill(t, nm, p, g, n, blend);
      var k := s.colors;
      var bgTint := TintAt(t.model, nm.itemSpec, t.backgroundColumn);
      var textTint := TintAt(t.model, nm.itemSpec, p.textParams.colorModelColumn);
      (bgTint.None? ==> k.bgColor == n.sysColor(Window) && k.bgBrush == Stock(Window) && !k.freeBgBrush) &&
      (bgTint.Some? ==> k.bgColor == blend(n.sysColor(Window), bgTint.value) && k.freeBgBrush &&
                        k.bgBrush.Solid? && k.bgBrush.color == k.bgColor && k.bgBrush in g'.created) &&
      (textTint.None? ==> k.textColor == n.sysColor(WindowText) && k.textBrush == Stock(WindowText) && !k.freeTextBrush) &&
      (textTint.Some? ==> k.textColor == blend(k.bgColor, textTint.value) && k.freeTextBrush &&
                          k.textBrush.Solid? && k.textBrush.color == k.textColor && k.textBrush in g'.created)
  {
  }

  // ---------------------------------------------------------------------------
  // computeAndDrawTextRect

  /** The background fill covers the label, or the whole subitem when the column
      has neither text nor image. If FillRect fails nothing changes; otherwise the
      focus rectangle grows to cover the fill, and the text rectangle is the fill
      moved right by 2 after an image, by the bitmap margin without one, and not
      at all on column 0. */
  lemma TextRectPlacement(s: DrawRec, g: GdiState, n: Native)
    ensures var (s', g', hr) := ComputeTextRect(s, g, n);
      var r := if !s.cell.hasText && !s.cell.hasImage then s.rects.subitemBounds else s.rects.subitemLabel;
      (hr == S_OK <==> FillBackground !in n.failing) &&
      (hr != S_OK ==> s' == s && g' == g) &&
      (hr == S_OK ==>
        g' == g.(fills := g.fills + [FillCall(r, s.colors.bgBrush)]) &&
        s' == s.(focusRect := s'.focusRect, realTextRect := s'.realTextRect) &&
        (forall x, y :: Contains(s.focusRect, x, y) || Contains(r, x, y) ==> Contains(s'.focusRect, x, y)) &&
        s'.realTextRect.(left := r.left) == r &&
        s'.realTextRect.left == r.left + (if s.cell.iSubItem == 0 then 0 else if s.cell.hasImage then 2 else s.bitmapMargin))
  {
  }

  /** The new focus rectangle is the least one covering the old one and the fill. */
  lemma FocusRectIsLeast(s: DrawRec, g: GdiState, n: Native, c: Rect)
    requires ComputeTextRect(s, g, n).2 == S_OK
    requires forall x, y :: Contains(s.focusRect, x, y) ==> Contains(c, x, y)
    requires forall x, y :: Contains(FillTarget(s), x, y) ==> Contains(c, x, y)
    ensures forall x, y :: Contains(ComputeTextRect(s, g, n).0.focusRect, x, y) ==> Contains(c, x, y)
  {
    UnionRectIsLeast(s.focusRect, FillTarget(s), c);
  }

  // ---------------------------------------------------------------------------
  // drawTextPart

  /** The error of the first failing call among `sites`, or S_OK. */
  function FirstFailing(failing: set<Site>, sites: seq<Site>): HResult
    decreases |sites|
  {
    if sites == [] then S_OK
    else if sites[0] in failing then E_FAIL(sites[0])
    else FirstFailing(failing, sites[1..])
  }

  /** The calls of drawTextPart that can fail, in the order they are made. */
  const TextSites := [SetCellTextColor, SetTransparentMode, DrawCellText, RestoreBkMode, RestoreTextColor]

  /** A column without text draws nothing and leaves the device context alone. */
  lemma NoTextNoDrawing(s: DrawRec, model: TableModel, g: GdiState, n: Native)
    requires !s.cell.hasText
    ensures TextPart(s, model, g, n) == (g, S_OK)
  {
  }

  /** drawTextPart fails only at one of its own calls. */
  lemma TextPartErrorSites(s: DrawRec, model: TableModel, g: GdiState, n: Native)
    ensures var hr := TextPart(s, model, g, n).1;
      hr == S_OK || hr.at in TextSites
  {
  }

  /** drawTextPart fails with the first of its calls that fails: each restore
      reports the value set just before it, so a restore is judged failed only
      when the call itself fails. (A device context whose current text colour
      equals CLR_INVALID would read as a failed SetTextColor.) */
  lemma TextPartReportsFirstFailure(s: DrawRec, model: TableModel, g: GdiState, n: Native)
    requires s.cell.hasText && g.textColor != CLR_INVALID
    ensures TextPart(s, model, g, n).1 == FirstFailing(n.failing, TextSites)
  {
    var sites := TextSites;
    assert sites[1..][1..][1..][1..][1..] == [];
    assert sites[1..][0] == SetTransparentMode && sites[1..][1..][0] == DrawCellText;
    assert sites[1..][1..][1..][0] == RestoreBkMode && sites[1..][1..][1..][1..][0] == RestoreTextColor;
    assert FirstFailing(n.failing, sites[1..][1..][1..][1..]) ==
      if RestoreTextColor in n.failing then E_FAIL(RestoreTextColor) else S_OK;
  }

  /** On success the cell's string is drawn once, in the cell's text colour, in
      transparent mode, in the text rectangle; afterwards the device context has
      its text colour and background mode back, and nothing else changed. */
  lemma TextPartSuccess(s: DrawRec, model: TableModel, g: GdiState, n: Native)
    requires s.cell.hasText
    requires TextPart(s, model, g, n).1 == S_OK
    ensures var g' := TextPart(s, model, g, n).0;
      g' == g.(texts := g.texts + [TextCall(model.cellText(s.cell.iItem, s.cell.p.textModelColumn), s.realTextRect, s.colors.textColor, TRANSPARENT)])
  {
  }

  /** What a failing drawTextPart leaves in the device context, call by call:
      nothing after a failed SetTextColor (the cell colour when the context's
      colour was CLR_INVALID, which reads as a failure); the cell colour after a
      failed SetBkMode; the cell colour and transparent mode after a failed
      DrawTextW; the same plus the drawn string after a failed mode restore; and
      after a failed colour restore the mode is back but the cell colour stays. */
  lemma TextPartFailureState(s: DrawRec, model: TableModel, g: GdiState, n: Native)
    requires s.cell.hasText
    ensures var (g', hr) := TextPart(s, model, g, n);
      var cellColor := s.colors.textColor;
      var drawn := TextCall(model.cellText(s.cell.iItem, s.cell.p.textModelColumn), s.realTextRect, cellColor, TRANSPARENT);
      (hr == E_FAIL(SetCellTextColor) ==>
        g' == if SetCellTextColor in n.failing then g else g.(textColor := cellColor)) &&
      (hr == E_FAIL(SetTransparentMode) ==> g' == g.(textColor := cellColor)) &&
      (hr == E_FAIL(DrawCellText) ==> g' == g.(textColor := cellColor, bkMode := TRANSPARENT)) &&
      (hr == E_FAIL(RestoreBkMode) ==>
        g' == g.(textColor := cellColor, bkMode := TRANSPARENT, texts := g.texts + [drawn])) &&
      (hr == E_FAIL(RestoreTextColor) ==> g' == g.(textColor := cellColor, texts := g.texts + [drawn]))
  {
  }

  // ---------------------------------------------------------------------------
  // freeDrawState

  /** The brushes freeDrawState deletes, in order: the text brush, then the
      background brush, each only when owned. */
  function DeletedBy(k: Colors): seq<Brush> {
    (if k.freeTextBrush then [k.textBrush] else []) + (if k.freeBgBrush then [k.bgBrush] else [])
  }

  /** freeDrawState deletes exactly the owned brushes, text brush first; clears
      both flags whatever happens; changes nothing else; and fails exactly when
      one of its deletes fails. */
  lemma ReleaseEffect(s: DrawRec, g: GdiState, n: Native)
    ensures var (s', g', hr) := Release(s, g, n);
      s' == s.(colors := s.colors.(freeTextBrush := false, freeBgBrush := false)) &&
      g' == g.(deleteCalls := g.deleteCalls + DeletedBy(s.colors)) &&
      (hr != S_OK <==> (s.colors.freeTextBrush && DeleteTextBrush in n.failing) ||
                       (s.colors.freeBgBrush && DeleteBgBrush in n.failing))
  {
  }

  /** A second freeDrawState deletes nothing and succeeds. */
  lemma ReleaseTwice(s: DrawRec, g: GdiState, n: Native)
    ensures var (s1, g1, _) := Release(s, g, n);
      Release(s1, g1, n) == (s1, g1, S_OK)
  {
  }

  // ---------------------------------------------------------------------------
  // No leak, no double delete, no stock brush deleted

  /** The brushes a draw state owns. */
  function Owned(k: Colors): multiset<Brush> {
    (if k.freeTextBrush then multiset{k.textBrush} else multiset{}) +
    (if k.freeBgBrush then multiset{k.bgBrush} else multiset{})
  }

  /** Since g0, only solid brushes were created, and every one of them was either
      deleted or is still owned; nothing else was deleted. */
  ghost predicate Balanced(owned: multiset<Brush>, g: GdiState, g0: GdiState) {
    g0.created <= g.created && g0.deleteCalls <= g.deleteCalls &&
    (forall i :: |g0.created| <= i < |g.created| ==> g.created[i].Solid?) &&
    multiset(g.created[|g0.created|..]) == multiset(g.deleteCalls[|g0.deleteCalls|..]) + owned
  }

  lemma AppendedSlice<T>(a: seq<T>, x: seq<T>, k: nat)
    requires k <= |a|
    ensures (a + x)[k..] == a[k..] + x
  {
  }

  /** A brush creation that succeeds adds the brush to what must be owned. */
  lemma CreateKeepsBalance(owned: multiset<Brush>, g: GdiState, g0: GdiState, n: Native, site: Site, c: Rgb)
    requires Balanced(owned, g, g0)
    ensures var (g', b) := CreateSolidBrushOp(g, n, site, c);
      Balanced(owned + (if b == NullBrush then multiset{} else multiset{b}), g', g0)
  {
    var (g', b) := CreateSolidBrushOp(g, n, site, c);
    if b != NullBrush {
      AppendedSlice(g.created, [b], |g0.created|);
    }
  }

  /** Choosing colours creates at most two brushes, each owned once created,
      and deletes nothing. */
  lemma ResolveColorsBalanced(t: Table, c: Cell, k: Colors, g: GdiState, n: Native, blend: Blend)
    requires !k.freeBgBrush && !k.freeTextBrush
    ensures var (k', g', _) := ResolveColors(t, c, k, g, n, blend);
      Balanced(Owned(k'), g', g)
  {
    assert Balanced(Owned(k), g, g);
    if !c.selected {
      var k0 := k.(bgColor := n.sysColor(Window), bgBrush := GetSysColorBrush(Window));
      var (k1, g1, hr1) := TintBackground(t, c, k, g, n, blend);
      if TintAt(t.model, c.iItem, t.backgroundColumn).Some? {
        var kb := k0.(bgColor := blend(k0.bgColor, TintAt(t.model, c.iItem, t.backgroundColumn).value));
        CreateKeepsBalance(Owned(k), g, g, n, CreateBgBrush, kb.bgColor);
      }
      if hr1 == S_OK {
        var k2 := k1.(textColor := n.sysColor(WindowText), textBrush := GetSysColorBrush(WindowText));
        if TintAt(t.model, c.iItem, c.p.textParams.colorModelColumn).Some? {
          var kt := k2.(textColor := blend(k2.bgColor, TintAt(t.model, c.iItem, c.p.textParams.colorModelColumn).value));
          CreateKeepsBalance(Owned(k1), g1, g, n, CreateTextBrush, kt.textColor);
        }
      }
    }
  }

  /** freeDrawState deletes what is owned, so afterwards nothing is owned and
      everything created since g0 has been deleted. */
  lemma ReleaseBalanced(s: DrawRec, g: GdiState, g0: GdiState, n: Native)
    requires Balanced(Owned(s.colors), g, g0)
    ensures Balanced(multiset{}, Release(s, g, n).1, g0)
    ensures Owned(Release(s, g, n).0.colors) == multiset{}
  {
    ReleaseEffect(s, g, n);
    AppendedSlice(g.deleteCalls, DeletedBy(s.colors), |g0.deleteCalls|);
    assert multiset(DeletedBy(s.colors)) == Owned(s.colors);
  }

  /** fillDrawState keeps every brush it creates owned, and on failure has
      deleted all of them. */
  lemma FillBalanced(t: Table, nm: Notification, p: ColumnParams, g: GdiState, n: Native, blend: Blend)
    ensures var (s, g', hr) := Fill(t, nm, p, g, n, blend);
      Balanced(Owned(s.colors), g', g) && (hr != S_OK ==> Owned(s.colors) == multiset{})
  {
    var c := CellOf(t, nm, p);
    var (hr, rs) := QueryRects(t.view, c, ZeroRects);
    var s := ZeroRec.(cell := c, rects := rs);
    assert Balanced(Owned(s.colors), g, g);
    if hr != S_OK {
      ReleaseBalanced(s, g, g, n);
    } else {
      var s := s.(rects := DeriveSubitemLabel(c.iSubItem, rs));
      ResolveColorsBalanced(t, c, s.colors, g, n, blend);
      var (k, g', hr') := ResolveColors(t, c, s.colors, g, n, blend);
      if hr' != S_OK {
        ReleaseBalanced(s.(colors := k), g', g, n);
      }
    }
  }

  /** computeAndDrawTextRect creates and deletes no brush and leaves the colours alone. */
  lemma ComputeTextRectKeepsBrushes(s: DrawRec, g: GdiState, n: Native)
    ensures var (s', g', _) := ComputeTextRect(s, g, n);
      s'.colors == s.colors && g'.created == g.created && g'.deleteCalls == g.deleteCalls
  {
  }

  /** drawTextPart creates and deletes no brush. */
  lemma TextPartKeepsBrushes(s: DrawRec, model: TableModel, g: GdiState, n: Native)
    ensures var g' := TextPart(s, model, g, n).0;
      g'.created == g.created && g'.deleteCalls == g.deleteCalls
  {
  }

  /** Once nothing is owned, every brush deleted since g0 was created since g0,
      and so is a solid brush. */
  lemma BalancedDeletesOnlyCreated(g: GdiState, g0: GdiState)
    requires Balanced(multiset{}, g, g0)
    ensures forall i :: |g0.deleteCalls| <= i < |g.deleteCalls| ==> g.deleteCalls[i].Solid?
  {
    forall i | |g0.deleteCalls| <= i < |g.deleteCalls|
      ensures g.deleteCalls[i].Solid?
    {
      var b := g.deleteCalls[i];
      assert b == g.deleteCalls[|g0.deleteCalls|..][i - |g0.deleteCalls|];
      assert b in multiset(g.created[|g0.created|..]);
      var j :| 0 <= j < |g.created[|g0.created|..]| && g.created[|g0.created|..][j] == b;
      assert g.created[|g0.created| + j] == b;
    }
  }

  /** Once nothing is owned and handles are distinct, no brush was deleted twice since g0. */
  lemma BalancedDeletesOnce(g: GdiState, g0: GdiState, i: int, j: int)
    requires Balanced(multiset{}, g, g0) && HandlesFresh(g)
    requires |g0.deleteCalls| <= i < j < |g.deleteCalls|
    ensures g.deleteCalls[i] != g.deleteCalls[j]
  {
    var deleted := g.deleteCalls[|g0.deleteCalls|..];
    var created := g.created[|g0.created|..];
    if g.deleteCalls[i] == g.deleteCalls[j] {
      var b := g.deleteCalls[i];
      assert deleted[i - |g0.deleteCalls|] == b && deleted[j - |g0.deleteCalls|] == b;
      TwiceCounted(deleted, i - |g0.deleteCalls|, j - |g0.deleteCalls|);
      forall x, y | 0 <= x < y < |created|
        ensures created[x] != created[y]
      {
        assert created[x] == g.created[|g0.created| + x] && created[y] == g.created[|g0.created| + y];
      }
      DistinctCounted(created, b);
      assert false;
    }
  }

  /** The drawing steps and the final free leave nothing owned, on every path. */
  lemma DrawFilledBalanced(s1: DrawRec, model: TableModel, lResult: int, g1: GdiState, g0: GdiState, n: Native)
    requires Balanced(Owned(s1.colors), g1, g0)
    ensures Balanced(multiset{}, DrawFilled(s1, model, lResult, g1, n).2, g0)
  {
    var (s2, g2, hr2) := ComputeTextRect(s1, g1, n);
    ComputeTextRectKeepsBrushes(s1, g1, n);
    assert Balanced(Owned(s2.colors), g2, g0);
    if hr2 != S_OK {
      ReleaseBalanced(s2, g2, g0, n);
    } else {
      var g3 := TextPart(s2, model, g2, n).0;
      TextPartKeepsBrushes(s2, model, g2, n);
      assert Balanced(Owned(s2.colors), g3, g0);
      ReleaseBalanced(s2, g3, g0, n);
    }
  }

  /** Drawing one cell leaves nothing owned, on every path. */
  lemma DrawCellBalanced(t: Table, nm: Notification, lResult: int, g: GdiState, n: Native, blend: Blend)
    requires 0 <= nm.iSubItem < |t.columns|
    ensures Balanced(multiset{}, DrawCell(t, nm, lResult, g, n, blend).2, g)
  {
    var (s1, g1, hr1) := Fill(t, nm, t.columns[nm.iSubItem], g, n, blend);
    FillBalanced(t, nm, t.columns[nm.iSubItem], g, n, blend);
    if hr1 == S_OK {
      DrawFilledBalanced(s1, t.model, lResult, g1, g, n);
    }
  }

  /** On every exit of the subitem stage, every brush created while drawing the
      cell has been deleted, as often as it was created, and no other brush has
      been deleted: nothing leaks and no stock brush is deleted. */
  lemma HandleReleasesEveryBrush(t: Table, nm: Notification, lResult: int, g: GdiState, n: Native, blend: Blend)
    requires nm.drawStage == CDDS_SUBITEM | CDDS_ITEMPREPAINT && 0 <= nm.iSubItem < |t.columns|
    ensures var g' := Handle(t, nm, lResult, g, n, blend).2;
      g.created <= g'.created && g.deleteCalls <= g'.deleteCalls &&
      multiset(g'.created[|g.created|..]) == multiset(g'.deleteCalls[|g.deleteCalls|..]) &&
      forall i :: |g.deleteCalls| <= i < |g'.deleteCalls| ==> g'.deleteCalls[i].Solid?
  {
    OnlySubitemPrepaintDraws(nm.drawStage);
    DrawCellBalanced(t, nm, lResult, g, n, blend);
    BalancedDeletesOnlyCreated(DrawCell(t, nm, lResult, g, n, blend).2, g);
  }

  /** A successful CreateSolidBrush hands out the next handle. */
  lemma CreateKeepsFresh(g: GdiState, n: Native, site: Site, c: Rgb)
    requires HandlesFresh(g)
    ensures HandlesFresh(CreateSolidBrushOp(g, n, site, c).0)
  {
  }

  /** Choosing colours creates brushes only through CreateSolidBrush. */
  lemma ResolveColorsKeepsFresh(t: Table, c: Cell, k: Colors, g: GdiState, n: Native, blend: Blend)
    requires HandlesFresh(g)
    ensures HandlesFresh(ResolveColors(t, c, k, g, n, blend).1)
  {
    if !c.selected {
      var k0 := k.(bgColor := n.sysColor(Window), bgBrush := GetSysColorBrush(Window));
      var (k1, g1, hr1) := TintBackground(t, c, k, g, n, blend);
      if TintAt(t.model, c.iItem, t.backgroundColumn).Some? {
        CreateKeepsFresh(g, n, CreateBgBrush, blend(k0.bgColor, TintAt(t.model, c.iItem, t.backgroundColumn).value));
      }
      if hr1 == S_OK {
        var k2 := k1.(textColor := n.sysColor(WindowText), textBrush := GetSysColorBrush(WindowText));
        if TintAt(t.model, c.iItem, c.p.textParams.colorModelColumn).Some? {
          CreateKeepsFresh(g1, n, CreateTextBrush, blend(k2.bgColor, TintAt(t.model, c.iItem, c.p.textParams.colorModelColumn).value));
        }
      }
    }
  }

  /** The drawing steps after fillDrawState and the final free create no brush. */
  lemma DrawFilledKeepsCreated(s1: DrawRec, model: TableModel, lResult: int, g1: GdiState, n: Native)
    ensures DrawFilled(s1, model, lResult, g1, n).2.created == g1.created
  {
    var (s2, g2, _) := ComputeTextRect(s1, g1, n);
    ComputeTextRectKeepsBrushes(s1, g1, n);
    TextPartKeepsBrushes(s2, model, g2, n);
  }

  /** Drawing one cell creates brushes only through CreateSolidBrush, so the
      handles stay distinct. */
  lemma HandleKeepsFresh(t: Table, nm: Notification, lResult: int, g: GdiState, n: Native, blend: Blend)
    requires nm.drawStage == CDDS_SUBITEM | CDDS_ITEMPREPAINT && 0 <= nm.iSubItem < |t.columns|
    requires HandlesFresh(g)
    ensures HandlesFresh(Handle(t, nm, lResult, g, n, blend).2)
  {
    OnlySubitemPrepaintDraws(nm.drawStage);
    var p := t.columns[nm.iSubItem];
    var c := CellOf(t, nm, p);
    var (hr, rs) := QueryRects(t.view, c, ZeroRects);
    if hr == S_OK {
      ResolveColorsKeepsFresh(t, c, ZeroColors, g, n, blend);
    }
    var (s1, g1, hr1) := Fill(t, nm, p, g, n, blend);
    if hr1 == S_OK {
      DrawFilledKeepsCreated(s1, t.model, lResult, g1, n);
    }
  }

  /** A brush handle is never deleted twice while one cell is drawn, given a
      device context whose handles are distinct to begin with. */
  lemma NoBrushDeletedTwice(t: Table, nm: Notification, lResult: int, g: GdiState, n: Native, blend: Blend, i: int, j: int)
    requires nm.drawStage == CDDS_SUBITEM | CDDS_ITEMPREPAINT && 0 <= nm.iSubItem < |t.columns|
    requires HandlesFresh(g)
    requires |g.deleteCalls| <= i < j < |Handle(t, nm, lResult, g, n, blend).2.deleteCalls|
    ensures Handle(t, nm, lResult, g, n, blend).2.deleteCalls[i] != Handle(t, nm, lResult, g, n, blend).2.deleteCalls[j]
  {
    OnlySubitemPrepaintDraws(nm.drawStage);
    HandleKeepsFresh(t, nm, lResult, g, n, blend);
    DrawCellBalanced(t, nm, lResult, g, n, blend);
    BalancedDeletesOnce(DrawCell(t, nm, lResult, g, n, blend).2, g, i, j);
  }

  /** An element at two positions is counted at least twice. */
  lemma {:induction false} TwiceCounted<T>(s: seq<T>, i: nat, j: nat)
    requires i < j < |s| && s[i] == s[j]
    ensures multiset(s)[s[i]] >= 2
    decreases |s|
  {
    if i == 0 {
      assert s == [s[0]] + s[1..];
      assert s[1..][j - 1] == s[j];
      assert s[j] in multiset(s[1..]);
    } else {
      assert s == [s[0]] + s[1..];
      TwiceCounted(s[1..], i - 1, j - 1);
    }
  }

  /** In a sequence without repeats every element is counted at most once. */
  lemma {:induction false} DistinctCounted<T>(s: seq<T>, x: T)
    requires forall a, b :: 0 <= a < b < |s| ==> s[a] != s[b]
    ensures multiset(s)[x] <= 1
    decreases |s|
  {
    if s != [] {
      assert s == [s[0]] + s[1..];
      assert forall a, b :: 0 <= a < b < |s[1..]| ==> s[1..][a] != s[1..][b] by {
        forall a, b | 0 <= a < b < |s[1..]|
          ensures s[1..][a] != s[1..][b]
        {
          assert s[1..][a] == s[a + 1] && s[1..][b] == s[b + 1];
        }
      }
      DistinctCounted(s[1..], x);
      if x == s[0] {
        assert x !in s[1..] by {
          forall k | 0 <= k < |s[1..]|
            ensures s[1..][k] != x
          {
            assert s[1..][k] == s[k + 1];
          }
        }
      }
    }
  }
}
