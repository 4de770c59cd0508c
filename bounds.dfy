/**
  The bounding box of a shell list at a value threshold: the componentwise
  hull of the shells' own boxes, started from the first shell's box, or the
  degenerate box at the origin when there are no shells.
 */
module Bounds {
  import opened Shells

  /** std::min(a, b): b when it is smaller, else a. */
  function Min(a: real, b: real): real {
    if b < a then b else a
  }

  /** std::max(a, b): b when a is smaller, else a. */
  function Max(a: real, b: real): real {
    if a < b then b else a
  }

  /** Box b widened to take in box t, axis by axis. */
  function Widen(b: Box, t: Box): Box {
    Box(Vec3(Min(t.lo.x, b.lo.x), Min(t.lo.y, b.lo.y), Min(t.lo.z, b.lo.z)),
        Vec3(Max(t.hi.x, b.hi.x), Max(t.hi.y, b.hi.y), Max(t.hi.z, b.hi.z)))
  }

  /** The box of every shell at the threshold, in list order. */
  function ShellBoxes(shells: seq<Shell>, shellBox: BoxQuery, thresh: real): seq<Box> {
    seq(|shells|, k requires 0 <= k < |shells| => shellBox(shells[k], thresh))
  }

  /** b widened by each box of the list in turn. */
  function WidenAll(b: Box, boxes: seq<Box>): Box {
    if boxes == [] then b else Widen(WidenAll(b, boxes[..|boxes| - 1]), boxes[|boxes| - 1])
  }

  const Origin := Vec3(0.0, 0.0, 0.0)

  /** What ShellList::boundingBox leaves in min and max. */
  function BoundingBoxOf(shells: seq<Shell>, shellBox: BoxQuery, thresh: real): Box {
    if shells == [] then Box(Origin, Origin)
    else WidenAll(shellBox(shells[0], thresh), ShellBoxes(shells, shellBox, thresh))
  }

  /** Coordinate number axis (0, 1, 2 for x, y, z) of v. */
  function Coord(v: Vec3, axis: nat): real
    requires axis < 3
  {
    if axis == 0 then v.x else if axis == 1 then v.y else v.z
  }

  /** outer reaches at least as far as inner on every side. */
  predicate Contains(outer: Box, inner: Box) {
    forall axis :: 0 <= axis < 3 ==>
      Coord(outer.lo, axis) <= Coord(inner.lo, axis) && Coord(inner.hi, axis) <= Coord(outer.hi, axis)
  }

  /** Every side of outer is a side of b or of one of the boxes. */
  predicate Attained(outer: Box, b: Box, boxes: seq<Box>) {
    forall axis :: 0 <= axis < 3 ==>
      && (Coord(outer.lo, axis) == Coord(b.lo, axis) || exists k :: 0 <= k < |boxes| && Coord(outer.lo, axis) == Coord(boxes[k].lo, axis))
      && (Coord(outer.hi, axis) == Coord(b.hi, axis) || exists k :: 0 <= k < |boxes| && Coord(outer.hi, axis) == Coord(boxes[k].hi, axis))
  }

  /** Widening keeps what was covered and covers the new box. */
  lemma WidenContains(b: Box, t: Box)
    ensures Contains(Widen(b, t), b) && Contains(Widen(b, t), t)
  {
  }

  lemma ContainsTransitive(a: Box, b: Box, c: Box)
    requires Contains(a, b) && Contains(b, c)
    ensures Contains(a, c)
  {
  }

  /** The widened box covers the start box and every box of the list. */
  lemma {:induction false} WidenAllContains(b: Box, boxes: seq<Box>)
    ensures Contains(WidenAll(b, boxes), b)
    ensures forall k :: 0 <= k < |boxes| ==> Contains(WidenAll(b, boxes), boxes[k])
  {
    if boxes != [] {
      var prefix, last := boxes[..|boxes| - 1], boxes[|boxes| - 1];
      var w0 := WidenAll(b, prefix);
      WidenAllContains(b, prefix);
      WidenContains(w0, last);
      ContainsTransitive(WidenAll(b, boxes), w0, b);
      forall k | 0 <= k < |boxes| ensures Contains(WidenAll(b, boxes), boxes[k]) {
        if k < |prefix| {
          assert boxes[k] == prefix[k];
          ContainsTransitive(WidenAll(b, boxes), w0, prefix[k]);
        }
      }
    }
  }

  /** The widened box is no larger than it must be: each side comes from the start box or a listed box. */
  lemma {:induction false} WidenAllAttained(b: Box, boxes: seq<Box>)
    ensures Attained(WidenAll(b, boxes), b, boxes)
  {
    if boxes != [] {
      var prefix, last := boxes[..|boxes| - 1], boxes[|boxes| - 1];
      WidenAllAttained(b, prefix);
      var w0, w := WidenAll(b, prefix), WidenAll(b, boxes);
      forall axis | 0 <= axis < 3
        ensures Coord(w.lo, axis) == Coord(b.lo, axis) || exists k :: 0 <= k < |boxes| && Coord(w.lo, axis) == Coord(boxes[k].lo, axis)
        ensures Coord(w.hi, axis) == Coord(b.hi, axis) || exists k :: 0 <= k < |boxes| && Coord(w.hi, axis) == Coord(boxes[k].hi, axis)
      {
        assert last == boxes[|boxes| - 1];
        forall k | 0 <= k < |prefix| ensures prefix[k] == boxes[k] {
        }
      }
    }
  }

  /**
    With at least one shell, the bounding box is the tightest box around the
    shells' boxes: it contains each of them and each of its six sides is a
    side of one of them.
   */
  lemma BoundingBoxTight(shells: seq<Shell>, shellBox: BoxQuery, thresh: real)
    requires shells != []
    ensures forall k :: 0 <= k < |shells| ==> Contains(BoundingBoxOf(shells, shellBox, thresh), shellBox(shells[k], thresh))
    ensures forall axis :: 0 <= axis < 3 ==>
      && (exists k :: 0 <= k < |shells| && Coord(BoundingBoxOf(shells, shellBox, thresh).lo, axis) == Coord(shellBox(shells[k], thresh).lo, axis))
      && (exists k :: 0 <= k < |shells| && Coord(BoundingBoxOf(shells, shellBox, thresh).hi, axis) == Coord(shellBox(shells[k], thresh).hi, axis))
  {
    var boxes, b0 := ShellBoxes(shells, shellBox, thresh), shellBox(shells[0], thresh);
    var bb := BoundingBoxOf(shells, shellBox, thresh);
    WidenAllContains(b0, boxes);
    WidenAllAttained(b0, boxes);
    forall k | 0 <= k < |shells| ensures Contains(bb, shellBox(shells[k], thresh)) {
      assert boxes[k] == shellBox(shells[k], thresh);
    }
    forall axis | 0 <= axis < 3
      ensures exists k :: 0 <= k < |shells| && Coord(bb.lo, axis) == Coord(shellBox(shells[k], thresh).lo, axis)
      ensures exists k :: 0 <= k < |shells| && Coord(bb.hi, axis) == Coord(shellBox(shells[k], thresh).hi, axis)
    {
      assert boxes[0] == b0;
      if Coord(bb.lo, axis) != Coord(b0.lo, axis) {
        var k :| 0 <= k < |boxes| && Coord(bb.lo, axis) == Coord(boxes[k].lo, axis);
        assert boxes[k] == shellBox(shells[k], thresh);
      }
      if Coord(bb.hi, axis) != Coord(b0.hi, axis) {
        var k :| 0 <= k < |boxes| && Coord(bb.hi, axis) == Coord(boxes[k].hi, axis);
        assert boxes[k] == shellBox(shells[k], thresh);
      }
    }
  }

  /** A single shell's list is bounded by exactly that shell's box. */
  lemma SingleShellBox(sh: Shell, shellBox: BoxQuery, thresh: real)
    ensures BoundingBoxOf([sh], shellBox, thresh) == shellBox(sh, thresh)
  {
    var b := shellBox(sh, thresh);
    var boxes := ShellBoxes([sh], shellBox, thresh);
    assert boxes[..0] == [];
    assert WidenAll(b, boxes) == Widen(b, b);
  }
}
