# Table cell custom drawing on Windows, in Dafny

This project models how libui's Windows table draws one cell
(windows/tabledraw.cpp). The list view sends an NM_CUSTOMDRAW notification for
each draw stage, and `uiprivTableHandleNM_CUSTOMDRAW` replies to it. At the
sub-item pre-paint stage it draws the cell itself, in four steps:

1. `fillDrawState` fills a `struct drawState`. It reads the column flags and the
   selection. It then chains five rectangle queries through `itemRect` and derives
   the sub-item label rectangle. Last, it picks the background and text colours,
   creating a solid brush for each tinted one.
2. `computeAndDrawTextRect` paints the background, grows the focus rectangle and
   places the text rectangle.
3. `drawTextPart` sets the text colour and transparent mode, draws the string,
   then restores both settings and checks what the restores return.
4. `freeDrawState` deletes the brushes the draw state owns.

The files:

- `geometry.dfy` (module `Geometry`) holds `RECT` and `UnionRect`, with Win32's
  rules for empty rectangles.
- `win32.dfy` (module `Win32`) holds the Win32 constants and the list view's
  answers. Its class `Gdi` is the device context together with the GDI object
  table. Every native call is an oracle: the list view answers a rectangle query
  through `ListView.rect` (None when SendMessageW reports failure). A GDI call fails
  exactly when its call site is in `Native.failing`. `HResult` is `S_OK` or
  `E_FAIL(at)`. Here `at` is the call whose failure the code logs before it
  returns, which makes the error's origin observable.
- `tabledraw.dfy` (module `TableDraw`) holds the draw steps. `DrawState` is
  `struct drawState`, with its fields kept in the struct's own groups (cell, rectangles,
  colours, margins, text rectangles). Each step is a method of it.
  `HandleCustomDraw` is the dispatcher, and it writes `*lResult` through an
  `LResult` object. Each method is proved equal to a function on values:
  `Fill`, `ComputeTextRect`, `TextPart`, `Release` and `Handle`.
- `tabledraw_props.dfy` (module `TableDrawProperties`) proves what the pipeline
  promises about those functions. The topics are stage replies, error precedence,
  the query chain's short-circuit, the rectangle geometry, the colour choice, the
  text protocol, the release rules, and brush ownership. Brush ownership means no
  leak, no double delete and no stock brush deleted, on every exit path.

Two behaviours of the code as written are stated as lemmas:

- When a call of `drawTextPart` fails, it returns at once without undoing what
  it already set (`TextPartFailureState`). After a failed SetBkMode the cell's
  text colour stays set. After a failed DrawTextW or a failed mode restore, both
  the text colour and the transparent mode stay set. After a failed colour
  restore the mode is back, but the cell's text colour stays.
- If the final `freeDrawState` fails after a successful drawing, the dispatcher
  returns that error and leaves `*lResult` unwritten (`DrawnCellOutcome`). The
  source's own comment questions this.

Notes on the code:

- `freeDrawState` deletes the text brush before the background brush.
- When both deletes fail, the result is a single E_FAIL. In the model it carries
  the background brush's delete, the last one to overwrite the result.
- The sub-item label's left edge equals the icon's right edge.

## Model

| member | source | states |
|---|---|---|
| `Geometry.UnionRect` | windows/tabledraw.cpp:52 | the union covers every point of both operands; it is empty exactly when both are; two empty operands give the empty rectangle |
| `Geometry.UnionRectIsLeast` | windows/tabledraw.cpp:52 | any rectangle covering both operands covers their union |
| `Geometry.EnclosesEdges` | windows/tabledraw.cpp:52 | a rectangle covering every point of a non-empty one lies outside its edges |
| `Win32.Gdi.FillRect` | windows/tabledraw.cpp:48-51 | FillRect paints the rectangle with the brush and reports success, unless its call fails |
| `Win32.Gdi.SetTextColor` | windows/tabledraw.cpp:78-82 | SetTextColor returns the previous colour and sets the new one, or returns CLR_INVALID and changes nothing |
| `Win32.Gdi.SetBkMode` | windows/tabledraw.cpp:83-87 | SetBkMode returns the previous mode and sets the new one, or returns 0 and changes nothing |
| `Win32.Gdi.DrawText` | windows/tabledraw.cpp:99-104 | DrawTextW draws the string with the context's current colour and mode, unless its call fails |
| `Win32.Gdi.CreateSolidBrush` | windows/tabledraw.cpp:238-243 | CreateSolidBrush returns a new handle of the colour, or NULL |
| `Win32.Gdi.DeleteObject` | windows/tabledraw.cpp:124-128 | each DeleteObject call is logged; it reports success unless its call fails |
| `TableDraw.DrawState.FillDrawState` | windows/tabledraw.cpp:172-275 | the new draw state, device context and result are those of `Fill` |
| `TableDraw.DrawState.Start` | windows/tabledraw.cpp:178-192 | after ZeroMemory the draw state is all zero, except that its cell fields come from the column, the notification and LVM_GETITEMSTATE |
| `TableDraw.DrawState.IssueQueries` | windows/tabledraw.cpp:195-204 | the five chained itemRect calls give the result and rectangles of `QueryRects` |
| `TableDraw.DrawState.DeriveSubitemRects` | windows/tabledraw.cpp:212-219 | the rectangles become `DeriveSubitemLabel` of the queried ones |
| `TableDraw.DrawState.FillColors` | windows/tabledraw.cpp:221-264 | colours, brushes, flags and device context become those of `ResolveColors` |
| `TableDraw.DrawState.ComputeAndDrawTextRect` | windows/tabledraw.cpp:40-68 | the draw state, device context and result are those of `ComputeTextRect` |
| `TableDraw.DrawState.DrawTextPart` | windows/tabledraw.cpp:70-116 | the device context and result are those of `TextPart` |
| `TableDraw.DrawState.FreeDrawState` | windows/tabledraw.cpp:118-140 | the draw state, device context and result are those of `Release` |
| `TableDraw.HandleCustomDraw` | windows/tabledraw.cpp:277-316 | the result, `*lResult` afterwards and the device context are those of `Handle` |
| `TableDraw.LResult.constructor` | windows/tabledraw.cpp:277 | the caller's LRESULT holds its initial value |
| `TableDrawProperties.OnlySubitemPrepaintDraws` | windows/tabledraw.cpp:283-295 | a cell is drawn at the sub-item pre-paint stage (CDDS_SUBITEM combined with CDDS_ITEMPREPAINT) and at no other |
| `TableDrawProperties.OtherStagesReply` | windows/tabledraw.cpp:284-294 | pre-paint replies CDRF_NOTIFYITEMDRAW, item pre-paint CDRF_NOTIFYSUBITEMDRAW, every other non-drawing stage CDRF_DODEFAULT; all return S_OK and leave the device context alone |
| `TableDrawProperties.DrawnCellOutcome` | windows/tabledraw.cpp:298-315 | the cell succeeds exactly when the fill, the text rectangle, the text part and the final free all succeed; after three successful steps the result is the final free's; `*lResult` is CDRF_SKIPDEFAULT on success and unwritten on failure |
| `TableDrawProperties.DrawingErrorIsReported` | windows/tabledraw.cpp:298-315 | the error of the first failing step (fill, text rectangle, text) is the one returned, whatever the cleanup reports |
| `TableDrawProperties.FillReportsItsOwnError` | windows/tabledraw.cpp:205-206 | fillDrawState fails only with a query or brush-creation error, never with its cleanup's |
| `TableDrawProperties.FillBrushOutcome` | windows/tabledraw.cpp:221-264 | with every query answered, a selected cell's fill succeeds; an unselected one fails with the background brush's creation when that tint is present and its CreateSolidBrush fails, else with the text brush's likewise, and succeeds otherwise |
| `TableDrawProperties.CleanupErrorOnlyAfterDrawing` | windows/tabledraw.cpp:298-315 | a failed DeleteObject is reported only when every drawing step succeeded |
| `TableDrawProperties.QueryRectsShortCircuit` | windows/tabledraw.cpp:142-154 | the chain's result is the first unanswered query's error; a query is sent and writes its rectangle exactly when all earlier ones were answered; later rectangles keep their values |
| `TableDrawProperties.FirstUnansweredOk` | windows/tabledraw.cpp:195-206 | a chain without error had every query answered |
| `TableDrawProperties.FillStopsAtFirstUnanswered` | windows/tabledraw.cpp:195-206 | a failed query makes fillDrawState return that error with the device context untouched and no brush owned |
| `TableDrawProperties.FillGeometry` | windows/tabledraw.cpp:212-219 | after a successful fill, the item rectangles are the list view's answers; the sub-item label is the sub-item bounds starting at the icon's right edge, with the same top and bottom; on column 0 both sub-item rectangles end at the item label's right edge |
| `TableDrawProperties.FillCellFlags` | windows/tabledraw.cpp:184-192 | hasText iff a text model column is set; hasImage iff an image or checkbox column is set; selected and focused as the list view and notification say |
| `TableDrawProperties.SelectedCellColors` | windows/tabledraw.cpp:221-225 | a selected cell uses the highlight colours and stock brushes, owns no brush and creates none |
| `TableDrawProperties.UnselectedCellColors` | windows/tabledraw.cpp:230-263 | without tint, an unselected cell uses the window colours and stock brushes and owns nothing; a background tint is blended over the window colour, a text tint over the resolved background colour, each into a created brush of that colour that the cell owns |
| `TableDrawProperties.TextRectPlacement` | windows/tabledraw.cpp:44-66 | the fill is the label, or the bounds when there is neither text nor image; a failed FillRect changes nothing; otherwise the fill is painted, the focus rectangle covers its old self and the fill, and the text rectangle is the fill with its left edge moved by 2, by the bitmap margin or by nothing |
| `TableDrawProperties.FocusRectIsLeast` | windows/tabledraw.cpp:52 | the new focus rectangle is the least one covering the old one and the fill |
| `TableDrawProperties.NoTextNoDrawing` | windows/tabledraw.cpp:78-79 | without text, drawTextPart returns S_OK and leaves the device context alone |
| `TableDrawProperties.TextPartErrorSites` | windows/tabledraw.cpp:70-116 | drawTextPart fails only at one of its own calls |
| `TableDrawProperties.TextPartReportsFirstFailure` | windows/tabledraw.cpp:81-114 | drawTextPart fails with the first of its five calls that fails; each restore check passes exactly when its call succeeds |
| `TableDrawProperties.TextPartSuccess` | windows/tabledraw.cpp:81-115 | on success the string is drawn once, in the cell's colour, transparently, in the text rectangle, and the text colour and mode are back as they were |
| `TableDrawProperties.TextPartFailureState` | windows/tabledraw.cpp:81-114 | for each failing call, the device context it leaves: unchanged after SetTextColor, the cell colour after SetBkMode, also transparent after DrawTextW, also the drawn string after the mode restore, and the mode restored but the cell colour kept after the colour restore |
| `TableDrawProperties.ReleaseEffect` | windows/tabledraw.cpp:118-140 | freeDrawState deletes exactly the owned brushes, the text brush first; it clears both flags even on failure; it fails iff a delete failed |
| `TableDrawProperties.ReleaseTwice` | windows/tabledraw.cpp:118-140 | a second freeDrawState deletes nothing and returns S_OK |
| `TableDrawProperties.ReleaseBalanced` | windows/tabledraw.cpp:118-140 | after freeDrawState nothing is owned, and every brush created since a point has been deleted |
| `TableDrawProperties.CreateKeepsBalance` | windows/tabledraw.cpp:238-261 | a created brush joins what must be owned |
| `TableDrawProperties.ResolveColorsBalanced` | windows/tabledraw.cpp:221-264 | choosing colours deletes nothing, and every brush it creates is owned |
| `TableDrawProperties.FillBalanced` | windows/tabledraw.cpp:172-275 | fillDrawState owns every brush it created, and on failure has deleted them all |
| `TableDrawProperties.ComputeTextRectKeepsBrushes` | windows/tabledraw.cpp:40-68 | computeAndDrawTextRect creates and deletes no brush and keeps the colours |
| `TableDrawProperties.TextPartKeepsBrushes` | windows/tabledraw.cpp:70-116 | drawTextPart creates and deletes no brush |
| `TableDrawProperties.BalancedDeletesOnlyCreated` | windows/tabledraw.cpp:238-255 | when nothing is owned, every deleted brush was created, so none is a stock brush |
| `TableDrawProperties.BalancedDeletesOnce` | windows/tabledraw.cpp:118-140 | when nothing is owned and handles are distinct, no brush was deleted twice |
| `TableDrawProperties.DrawFilledBalanced` | windows/tabledraw.cpp:301-315 | after a successful fill, every exit of the drawing steps leaves nothing owned |
| `TableDrawProperties.DrawCellBalanced` | windows/tabledraw.cpp:297-315 | every exit of the cell drawing leaves nothing owned |
| `TableDrawProperties.HandleReleasesEveryBrush` | windows/tabledraw.cpp:297-315 | on every exit of the drawing stage, the brushes deleted are exactly the brushes created during the call, as a multiset; none is a stock brush |
| `TableDrawProperties.CreateKeepsFresh` | windows/tabledraw.cpp:238-261 | a successful CreateSolidBrush keeps the handles distinct |
| `TableDrawProperties.ResolveColorsKeepsFresh` | windows/tabledraw.cpp:221-264 | choosing colours keeps the handles distinct |
| `TableDrawProperties.DrawFilledKeepsCreated` | windows/tabledraw.cpp:301-315 | the drawing steps and the final free create no brush |
| `TableDrawProperties.HandleKeepsFresh` | windows/tabledraw.cpp:297-315 | drawing a cell keeps the handles distinct |
| `TableDrawProperties.NoBrushDeletedTwice` | windows/tabledraw.cpp:297-315 | starting from distinct handles, no brush is deleted twice while one cell is drawn |

## Left out

- blend: its double-precision arithmetic and 8-bit truncation (windows/tabledraw.cpp:156-170) are not modelled. `Blend` is a function parameter; the model keeps only which base colour it is given.
- Cell values: uiTableDataColor, uiTableDataString, toUTF16, uiFreeTableData and the model handler's CellValue are library calls. `TableModel` returns an optional tint or a string instead.
- Win32 internals: how the list view computes rectangles, the meaning of DrawTextW's format flags (ellipsis, centring), and what logLastError prints are not modelled.
- Failed rectangle queries: the rectangle a failed SendMessageW leaves behind is modelled as the seed itemRect wrote, with left = part and top = sub-item.
- The results of LVM_GETHEADER and HDM_GETBITMAPMARGIN are not checked by the source (windows/tabledraw.cpp:266-268). The header's bitmap margin is a fixed value of the list view.
- The `t`, `m`, `p` and `dc` pointers of drawState are passed to each step instead of being stored. `p` is kept inside the cell fields.
- `focused`, `cxIcon` and `cyIcon` are set (or zeroed) and never read, as in the source.
- `dwItemSpec` is a DWORD_PTR stored into an int. Its truncation is not modelled.
- The column index `nm->iSubItem` is not checked by the source. `HandleCustomDraw` requires it to be in range.
- GDI call failures come from a fixed set of call sites. Each site is reached at most once per notification, so a fixed set is enough.
- TableDrawProperties.TextPartReportsFirstFailure: stated only for a device context whose current text colour is not CLR_INVALID. For such a context, the first SetTextColor's return would read as a failure although the call succeeded.
- TableDrawProperties.NoBrushDeletedTwice: assumes the device context's handles are distinct at the start. `HandleKeepsFresh` shows the drawing keeps them distinct, and `Gdi.Valid` states the same of the class.
- RECT coordinates and the bitmap margin are unbounded integers. LONG overflow in `left += 2` and `left += bitmapMargin`, and the narrowing of the LRESULT margin to LONG at windows/tabledraw.cpp:66, are not modelled.
- table.hpp (the uiTable and uiprivTableColumnParams declarations) is not part of this model. Only the fields the drawing code reads are modelled.
- macarea/alt/ui.h: declarations only, with no behaviour.
- redo/unix/spinbox.c: a GTK binding whose value functions are unfinished stubs. It is not part of the drawing code.
