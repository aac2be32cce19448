/**
 * The window hit test of the pannable area (hildon_pannable_area_get_topmost
 * in hildon/hildon-pannable-area.c): the GdkWindow tree under the event
 * window is searched for the window at a point, which is where a press is
 * delivered to the child.
 */
module PanWindows {

  import opened Optional

  /** A GdkWindow as the search sees it: its position in its parent, its
      size, its visibility, its event mask and its children in stacking
      order (the order gdk_window_peek_children lists them). */
  datatype Win = Win(x: int, y: int, width: int, height: int, visible: bool,
                     events: bv32, children: seq<Win>)

  /** A hit: the child indices leading from the searched window to the
      selected one, and the point in the selected window's coordinates. */
  datatype Hit = Hit(path: seq<nat>, tx: int, ty: int)

  /** The point (given in w's own coordinates) lies inside w. */
  predicate Inside(w: Win, x: int, y: int)
  {
    0 <= x < w.width && 0 <= y < w.height
  }

  /** The child c (at its position in the parent) covers the parent point. */
  predicate Covers(c: Win, x: int, y: int)
  {
    c.x <= x < c.x + c.width && c.y <= y < c.y + c.height
  }

  /** The window's event mask shares a bit with mask. */
  predicate Listens(w: Win, mask: bv32)
  {
    w.events & mask != 0
  }

  /** A child the loop selects: visible, covering the point, and either a
      window with children of its own or a leaf listening to the mask. */
  predicate Qualifies(c: Win, x: int, y: int, mask: bv32)
  {
    Covers(c, x, y) && c.visible && (|c.children| > 0 || Listens(c, mask))
  }

  /** The window reached from w by following path. */
  function Target(w: Win, path: seq<nat>): Win
    decreases |path|
  {
    if |path| == 0 || path[0] >= |w.children| then w
    else Target(w.children[path[0]], path[1..])
  }

  /** Following path from w, every window on the way is visible (below the
      root) and contains the point, translated into its coordinates, and
      (tx, ty) is the point in the last window's coordinates. */
  predicate Located(w: Win, path: seq<nat>, x: int, y: int, tx: int, ty: int)
    decreases |path|
  {
    Inside(w, x, y)
    && (|path| == 0 ==> tx == x && ty == y)
    && (|path| > 0 ==>
          path[0] < |w.children|
          && w.children[path[0]].visible
          && Located(w.children[path[0]], path[1..],
                     x - w.children[path[0]].x, y - w.children[path[0]].y, tx, ty))
  }

  /** The search, specified as a function: outside w nothing is found; a
      leaf is its own answer; otherwise the children are scanned. */
  function Topmost(w: Win, x: int, y: int, mask: bv32): Option<Hit>
    decreases w, |w.children| + 1, 0
  {
    if !Inside(w, x, y) then None
    else if |w.children| == 0 then Some(Hit([], x, y))
    else Scan(w, x, y, mask, 0, None)
  }

  /** The selection after looking at one more child: a covering visible
      child with children of its own is searched, and is itself the answer
      when nothing inside it is found; a covering visible leaf is taken
      when it listens to the mask; otherwise the selection is kept. */
  function Visit(p: Win, x: int, y: int, mask: bv32, i: nat, sel: Option<Hit>): Option<Hit>
    requires i < |p.children|
    decreases p, |p.children| - i, 1
  {
    var c := p.children[i];
    if Covers(c, x, y) && c.visible then
      if |c.children| > 0 then Some(Descend(p, x, y, mask, i))
      else if Listens(c, mask) then Some(Hit([i], x - c.x, y - c.y))
      else sel
    else sel
  }

  /** The hit through child i when it has children: what the search inside
      it finds, or the child itself. */
  function Descend(p: Win, x: int, y: int, mask: bv32, i: nat): (r: Hit)
    requires i < |p.children|
    ensures |r.path| > 0 && r.path[0] == i
    decreases p, |p.children| - i, 0
  {
    var c := p.children[i];
    match Topmost(c, x - c.x, y - c.y, mask)
    case Some(h) => Hit([i] + h.path, h.tx, h.ty)
    case None => Hit([i], x - c.x, y - c.y)
  }

  /** The children loop from child i on, with the selection so far. */
  function Scan(p: Win, x: int, y: int, mask: bv32, i: nat, sel: Option<Hit>): Option<Hit>
    requires i <= |p.children|
    decreases p, |p.children| - i, 2
  {
    if i == |p.children| then sel
    else Scan(p, x, y, mask, i + 1, Visit(p, x, y, mask, i, sel))
  }

  /** hildon_pannable_area_get_topmost: the recursive search with its loop
      over the children. */
  method GetTopmost(w: Win, x: int, y: int, mask: bv32) returns (r: Option<Hit>)
    ensures r == Topmost(w, x, y, mask)
    decreases w, 1
  {
    if !Inside(w, x, y) {
      return None;
    }
    if |w.children| == 0 {
      return Some(Hit([], x, y));
    }
    r := None;
    var i := 0;
    while i < |w.children|
      invariant 0 <= i <= |w.children|
      invariant Scan(w, x, y, mask, i, r) == Topmost(w, x, y, mask)
    {
      ghost var prev := r;
      var c := w.children[i];
      if Covers(c, x, y) && c.visible {
        if |c.children| > 0 {
          var inner := GetTopmost(c, x - c.x, y - c.y, mask);
          match inner
          case Some(h) => r := Some(Hit([i] + h.path, h.tx, h.ty));
          case None => r := Some(Hit([i], x - c.x, y - c.y));
        } else if Listens(c, mask) {
          r := Some(Hit([i], x - c.x, y - c.y));
        }
      }
      assert r == Visit(w, x, y, mask, i, prev);
      i := i + 1;
    }
  }

  /** Every hit is inside the searched window, reached through visible
      windows containing the point, with the point translated into the
      selected window; a selected leaf below the root listens to the mask. */
  lemma {:induction false} TopmostSound(w: Win, x: int, y: int, mask: bv32)
    ensures Topmost(w, x, y, mask).Some? ==>
              var h := Topmost(w, x, y, mask).value;
              Located(w, h.path, x, y, h.tx, h.ty)
              && (|h.path| > 0 && |Target(w, h.path).children| == 0 ==> Listens(Target(w, h.path), mask))
    decreases w, |w.children| + 1, 0
  {
    if Inside(w, x, y) && |w.children| > 0 {
      ScanSound(w, x, y, mask, 0, None);
    }
  }

  /** The selection invariant of the loop: none yet, or a sound hit. */
  predicate SoundSel(p: Win, x: int, y: int, mask: bv32, sel: Option<Hit>)
  {
    sel.Some? ==>
      Located(p, sel.value.path, x, y, sel.value.tx, sel.value.ty)
      && (|sel.value.path| > 0 && |Target(p, sel.value.path).children| == 0 ==>
            Listens(Target(p, sel.value.path), mask))
  }

  lemma {:induction false} ScanSound(p: Win, x: int, y: int, mask: bv32, i: nat, sel: Option<Hit>)
    requires Inside(p, x, y) && i <= |p.children| && SoundSel(p, x, y, mask, sel)
    ensures SoundSel(p, x, y, mask, Scan(p, x, y, mask, i, sel))
    decreases p, |p.children| - i, 2
  {
    if i < |p.children| {
      VisitSound(p, x, y, mask, i, sel);
      ScanSound(p, x, y, mask, i + 1, Visit(p, x, y, mask, i, sel));
    }
  }

  lemma {:induction false} VisitSound(p: Win, x: int, y: int, mask: bv32, i: nat, sel: Option<Hit>)
    requires Inside(p, x, y) && i < |p.children| && SoundSel(p, x, y, mask, sel)
    ensures SoundSel(p, x, y, mask, Visit(p, x, y, mask, i, sel))
    decreases p, |p.children| - i, 1
  {
    var c := p.children[i];
    if Covers(c, x, y) && c.visible {
      if |c.children| > 0 {
        DescendSound(p, x, y, mask, i);
      } else if Listens(c, mask) {
        Extend(p, i, [], x, y, x - c.x, y - c.y);
        assert [i] + [] == [i];
        assert Visit(p, x, y, mask, i, sel) == Some(Hit([i], x - c.x, y - c.y));
      } else {
        assert Visit(p, x, y, mask, i, sel) == sel;
      }
    } else {
      assert Visit(p, x, y, mask, i, sel) == sel;
    }
  }

  lemma {:induction false} DescendSound(p: Win, x: int, y: int, mask: bv32, i: nat)
    requires Inside(p, x, y) && i < |p.children|
    requires p.children[i].visible && Covers(p.children[i], x, y) && |p.children[i].children| > 0
    ensures SoundSel(p, x, y, mask, Some(Descend(p, x, y, mask, i)))
    decreases p, |p.children| - i, 0
  {
    var c := p.children[i];
    TopmostSound(c, x - c.x, y - c.y, mask);
    var t := Topmost(c, x - c.x, y - c.y, mask);
    var h := if t.Some? then t.value else Hit([], x - c.x, y - c.y);
    assert Located(c, h.path, x - c.x, y - c.y, h.tx, h.ty);
    assert Descend(p, x, y, mask, i) == Hit([i] + h.path, h.tx, h.ty);
    Extend(p, i, h.path, x, y, h.tx, h.ty);
    assert |[i] + h.path| > 0 && |Target(p, [i] + h.path).children| == 0 ==> Listens(Target(p, [i] + h.path), mask);
  }

  /** A located path inside a covering visible child extends to one from
      the parent. */
  lemma Extend(p: Win, i: nat, path: seq<nat>, x: int, y: int, tx: int, ty: int)
    requires Inside(p, x, y) && i < |p.children|
    requires p.children[i].visible && Covers(p.children[i], x, y)
    requires Located(p.children[i], path, x - p.children[i].x, y - p.children[i].y, tx, ty)
    ensures Located(p, [i] + path, x, y, tx, ty)
    ensures Target(p, [i] + path) == Target(p.children[i], path)
  {
    assert ([i] + path)[1..] == path;
  }

  /** Inside a window with children, nothing is found exactly when no
      child qualifies. */
  lemma TopmostNone(w: Win, x: int, y: int, mask: bv32)
    requires Inside(w, x, y) && |w.children| > 0
    ensures Topmost(w, x, y, mask).None? <==>
              forall j :: 0 <= j < |w.children| ==> !Qualifies(w.children[j], x, y, mask)
  {
    ScanNone(w, x, y, mask, 0, None);
  }

  lemma {:induction false} ScanNone(p: Win, x: int, y: int, mask: bv32, i: nat, sel: Option<Hit>)
    requires i <= |p.children|
    ensures Scan(p, x, y, mask, i, sel).None? <==>
              sel.None? && forall j :: i <= j < |p.children| ==> !Qualifies(p.children[j], x, y, mask)
    decreases |p.children| - i
  {
    if i < |p.children| {
      ScanNone(p, x, y, mask, i + 1, Visit(p, x, y, mask, i, sel));
      assert Visit(p, x, y, mask, i, sel).None? <==>
               sel.None? && !Qualifies(p.children[i], x, y, mask);
    }
  }

  /** The last qualifying child wins: a hit below the root goes through a
      qualifying child after which no child qualifies. */
  lemma TopmostLast(w: Win, x: int, y: int, mask: bv32)
    requires Inside(w, x, y) && |w.children| > 0
    requires Topmost(w, x, y, mask).Some?
    ensures var h := Topmost(w, x, y, mask).value;
            |h.path| > 0 && h.path[0] < |w.children| && Qualifies(w.children[h.path[0]], x, y, mask)
            && forall j :: h.path[0] < j < |w.children| ==> !Qualifies(w.children[j], x, y, mask)
  {
    ScanLast(w, x, y, mask, 0, None);
  }

  /** The loop's selection invariant for TopmostLast. */
  predicate LastSel(p: Win, x: int, y: int, mask: bv32, i: nat, sel: Option<Hit>)
    requires i <= |p.children|
  {
    sel.Some? ==>
      |sel.value.path| > 0 && sel.value.path[0] < i
      && Qualifies(p.children[sel.value.path[0]], x, y, mask)
      && forall j :: sel.value.path[0] < j < i ==> !Qualifies(p.children[j], x, y, mask)
  }

  lemma {:induction false} ScanLast(p: Win, x: int, y: int, mask: bv32, i: nat, sel: Option<Hit>)
    requires i <= |p.children| && LastSel(p, x, y, mask, i, sel)
    ensures LastSel(p, x, y, mask, |p.children|, Scan(p, x, y, mask, i, sel))
    decreases |p.children| - i
  {
    if i < |p.children| {
      var v := Visit(p, x, y, mask, i, sel);
      if Qualifies(p.children[i], x, y, mask) {
        assert v.Some? && v.value.path[0] == i;
      } else {
        assert v == sel;
      }
      ScanLast(p, x, y, mask, i + 1, v);
    }
  }
}
