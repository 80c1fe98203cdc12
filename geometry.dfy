/** Axis-aligned boxes of the platformer (src/BoundingBox.java).
    A box is four mutable corner coordinates; Java `float` is modelled as `real`. */
module Geometry {

  /** The fresh pair that `overlapSize` returns. */
  datatype Vec2 = Vec2(x: real, y: real)

  function Min(a: real, b: real): (m: real) { if a <= b then a else b }
  function Max(a: real, b: real): (m: real) { if a <= b then b else a }

  class BoundingBox {
    var minX: real
    var minY: real
    var maxX: real
    var maxY: real

    /** Stores the four corners verbatim; no validation is done. */
    constructor (minX: real, minY: real, maxX: real, maxY: real)
      ensures this.minX == minX && this.minY == minY
      ensures this.maxX == maxX && this.maxY == maxY
    {
      this.minX := minX;
      this.minY := minY;
      this.maxX := maxX;
      this.maxY := maxY;
    }

    /** The invariant callers are expected to keep (the box never checks it). */
    predicate WellFormed()
      reads this
    {
      minX <= maxX && minY <= maxY
    }

    /** The closed box as a point set: edges belong to the box. */
    predicate Contains(px: real, py: real)
      reads this
    {
      minX <= px <= maxX && minY <= py <= maxY
    }

    /** Closed-interval overlap on both axes. For well-formed boxes this is
        "the intersection rectangle is not empty". */
    function Intersect(b: BoundingBox): (r: bool)
      reads this, b
      ensures WellFormed() && b.WellFormed() ==>
        (r <==> Max(minX, b.minX) <= Min(maxX, b.maxX) && Max(minY, b.minY) <= Min(maxY, b.maxY))
    {
      (minX <= b.maxX) && (maxX >= b.minX) &&
      (minY <= b.maxY) && (maxY >= b.minY)
    }

    /** One-sided penetration depth per axis: the far edge of the box that
        starts lower (this box on a tie goes to `b`) minus the near edge of the
        other one. For well-formed boxes it is never smaller than the length of
        the common interval; for any two boxes it is non-negative whenever they
        intersect. */
    function OverlapSize(b: BoundingBox): (r: Vec2)
      reads this, b
      ensures r.x == maxX - b.minX || r.x == b.maxX - minX
      ensures r.y == maxY - b.minY || r.y == b.maxY - minY
      ensures WellFormed() && b.WellFormed() ==>
        r.x >= Min(maxX, b.maxX) - Max(minX, b.minX) &&
        r.y >= Min(maxY, b.maxY) - Max(minY, b.minY)
      ensures Intersect(b) ==> 0.0 <= r.x && 0.0 <= r.y
    {
      var dx := if minX < b.minX then maxX - b.minX else b.maxX - minX;
      var dy := if minY < b.minY then maxY - b.minY else b.maxY - minY;
      Vec2(dx, dy)
    }

    /** Overwrites the four corners in place; the new corners depend only on
        the arguments, so repeating a call with the same arguments changes nothing. */
    method Update(minX: real, minY: real, maxX: real, maxY: real)
      modifies this
      ensures this.minX == minX && this.minY == minY
      ensures this.maxX == maxX && this.maxY == maxY
    {
      this.minX := minX;
      this.minY := minY;
      this.maxX := maxX;
      this.maxY := maxY;
    }
  }

  /** A client of `Update`: two identical calls leave the same box as one. */
  method UpdateTwice(box: BoundingBox, minX: real, minY: real, maxX: real, maxY: real)
    modifies box
    ensures box.minX == minX && box.minY == minY && box.maxX == maxX && box.maxY == maxY
  {
    box.Update(minX, minY, maxX, maxY);
    ghost var once := (box.minX, box.minY, box.maxX, box.maxY);
    box.Update(minX, minY, maxX, maxY);
    assert (box.minX, box.minY, box.maxX, box.maxY) == once;
  }

  lemma IntersectSymmetric(a: BoundingBox, b: BoundingBox)
    ensures a.Intersect(b) == b.Intersect(a)
  {
  }

  /** Boxes that share only a vertical edge still intersect (closed intervals). */
  lemma TouchingEdgesIntersect(a: BoundingBox, b: BoundingBox)
    requires a.WellFormed() && b.WellFormed()
    requires a.maxX == b.minX
    requires a.minY <= b.maxY && b.minY <= a.maxY
    ensures a.Intersect(b) && b.Intersect(a)
  {
  }

  /** A box intersects itself exactly when it is well-formed. */
  lemma SelfIntersectIffWellFormed(a: BoundingBox)
    ensures a.Intersect(a) <==> a.WellFormed()
  {
  }

  /** For well-formed boxes, `Intersect` means that some point lies in both. */
  lemma {:induction false} IntersectIffCommonPoint(a: BoundingBox, b: BoundingBox)
    requires a.WellFormed() && b.WellFormed()
    ensures a.Intersect(b) <==> exists px: real, py: real :: a.Contains(px, py) && b.Contains(px, py)
  {
    if a.Intersect(b) {
      var px, py := Max(a.minX, b.minX), Max(a.minY, b.minY);
      assert a.Contains(px, py) && b.Contains(px, py);
    } else {
      forall px: real, py: real | a.Contains(px, py)
        ensures !b.Contains(px, py)
      {
      }
    }
  }

  /** On an axis where the lower-starting box also ends first (the boxes are
      staggered, not nested), the one-sided depth is exactly the common
      interval's length. */
  lemma OverlapSizeExactWhenStaggered(a: BoundingBox, b: BoundingBox)
    requires a.WellFormed() && b.WellFormed()
    ensures (a.minX < b.minX ==> a.maxX <= b.maxX) && (b.minX <= a.minX ==> b.maxX <= a.maxX) ==>
      a.OverlapSize(b).x == Min(a.maxX, b.maxX) - Max(a.minX, b.minX)
    ensures (a.minY < b.minY ==> a.maxY <= b.maxY) && (b.minY <= a.minY ==> b.maxY <= a.maxY) ==>
      a.OverlapSize(b).y == Min(a.maxY, b.maxY) - Max(a.minY, b.minY)
  {
  }

  /** On an axis where one interval lies strictly inside the other, the depth
      runs from the outer interval's far edge to the inner one's near edge, and
      so exceeds the common interval's length (the inner interval's length). */
  lemma OverlapSizeWhenNested(a: BoundingBox, b: BoundingBox)
    ensures a.minX < b.minX && b.maxX < a.maxX ==>
      a.OverlapSize(b).x == a.maxX - b.minX && a.OverlapSize(b).x > Min(a.maxX, b.maxX) - Max(a.minX, b.minX)
    ensures b.minX < a.minX && a.maxX < b.maxX ==>
      a.OverlapSize(b).x == b.maxX - a.minX && a.OverlapSize(b).x > Min(a.maxX, b.maxX) - Max(a.minX, b.minX)
    ensures a.minY < b.minY && b.maxY < a.maxY ==>
      a.OverlapSize(b).y == a.maxY - b.minY && a.OverlapSize(b).y > Min(a.maxY, b.maxY) - Max(a.minY, b.minY)
    ensures b.minY < a.minY && a.maxY < b.maxY ==>
      a.OverlapSize(b).y == b.maxY - a.minY && a.OverlapSize(b).y > Min(a.maxY, b.maxY) - Max(a.minY, b.minY)
  {
  }

  /** The depth is the same from either side unless the two minima tie; on a tie
      each box measures from its own minimum and the results differ by the
      difference of the maxima. */
  lemma OverlapSizeSymmetryUpToTies(a: BoundingBox, b: BoundingBox)
    ensures a.minX != b.minX ==> a.OverlapSize(b).x == b.OverlapSize(a).x
    ensures a.minY != b.minY ==> a.OverlapSize(b).y == b.OverlapSize(a).y
    ensures a.minX == b.minX ==> a.OverlapSize(b).x - b.OverlapSize(a).x == b.maxX - a.maxX
    ensures a.minY == b.minY ==> a.OverlapSize(b).y - b.OverlapSize(a).y == b.maxY - a.maxY
  {
  }
}
