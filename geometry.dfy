/** Win32 rectangles (RECT) and the one rectangle operation the table
    custom-draw code uses, UnionRect. A rectangle covers the points
    (x, y) with left <= x < right and top <= y < bottom. */
module Geometry {

  datatype Rect = Rect(left: int, top: int, right: int, bottom: int)

  /** The rectangle ZeroMemory and SetRectEmpty produce. */
  const EmptyRect := Rect(0, 0, 0, 0)

  /** IsRectEmpty: no width or no height. */
  predicate IsRectEmpty(r: Rect) {
    r.right <= r.left || r.bottom <= r.top
  }

  predicate Contains(r: Rect, x: int, y: int) {
    r.left <= x < r.right && r.top <= y < r.bottom
  }

  function Min(a: int, b: int): int { if a <= b then a else b }

  function Max(a: int, b: int): int { if a <= b then b else a }

  /** UnionRect: an empty operand is ignored; two empty operands give the
      empty rectangle; otherwise the bounding box of both. */
  function UnionRect(a: Rect, b: Rect): (r: Rect)
    ensures forall x, y :: Contains(a, x, y) ==> Contains(r, x, y)
    ensures forall x, y :: Contains(b, x, y) ==> Contains(r, x, y)
    ensures IsRectEmpty(r) <==> IsRectEmpty(a) && IsRectEmpty(b)
    ensures IsRectEmpty(a) && IsRectEmpty(b) ==> r == EmptyRect
  {
    if IsRectEmpty(a) && IsRectEmpty(b) then EmptyRect
    else if IsRectEmpty(a) then b
    else if IsRectEmpty(b) then a
    else Rect(Min(a.left, b.left), Min(a.top, b.top), Max(a.right, b.right), Max(a.bottom, b.bottom))
  }

  /** A rectangle that holds every point of a non-empty rectangle holds its corners,
      so its edges lie outside that rectangle's edges. */
  lemma EnclosesEdges(a: Rect, c: Rect)
    requires !IsRectEmpty(a)
    requires forall x, y :: Contains(a, x, y) ==> Contains(c, x, y)
    ensures c.left <= a.left && c.top <= a.top && a.right <= c.right && a.bottom <= c.bottom
  {
    assert Contains(a, a.left, a.top);
    assert Contains(a, a.right - 1, a.bottom - 1);
  }

  /** UnionRect is the least rectangle holding both operands: any rectangle
      that holds every point of a and of b holds every point of the union. */
  lemma UnionRectIsLeast(a: Rect, b: Rect, c: Rect)
    requires forall x, y :: Contains(a, x, y) ==> Contains(c, x, y)
    requires forall x, y :: Contains(b, x, y) ==> Contains(c, x, y)
    ensures forall x, y :: Contains(UnionRect(a, b), x, y) ==> Contains(c, x, y)
  {
    if !IsRectEmpty(a) {
      EnclosesEdges(a, c);
    }
    if !IsRectEmpty(b) {
      EnclosesEdges(b, c);
    }
  }
}
