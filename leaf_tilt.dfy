/** The single-leaf tilt animator: every frame, each decorative leaf eases
    its translation and rotation towards a target derived from the vector
    between its cached centre and the pointer. */
module LeafTilt {
  import opened Numeric

  const Ease: real := 0.05

  datatype Target = Target(rot: real, x: real, y: real)

  /** The part of `getBoundingClientRect()` the anchors use. */
  datatype Rect = Rect(left: real, top: real, width: real, height: real)

  /** The frame's target for a leaf whose centre is `(dx, dy)` away from
      the pointer (lines 77-83). */
  function TiltTarget(base: real, dx: real, dy: real): (t: Target)
    ensures base - 15.0 <= t.rot <= base + 15.0
    ensures -10.0 <= t.x <= 10.0 && -10.0 <= t.y <= 10.0
    ensures dx == 0.0 && dy == 0.0 ==> t == Target(base, 0.0, 0.0)
  {
    Target(base + Clamp(dx * 0.028, -10.0, 10.0) + Clamp(dy * 0.012, -5.0, 5.0),
           Clamp(dx * 0.02, -10.0, 10.0),
           Clamp(dy * 0.02, -10.0, 10.0))
  }

  /** One entry of `states`. */
  class Leaf {
    /** `data-base-rotation`, 0 when absent. */
    const base: real
    var x: real
    var y: real
    var r: real
    var anchorX: real
    var anchorY: real

    /** The eased values never leave the range of the targets. */
    ghost predicate Valid()
      reads this
    {
      -10.0 <= x <= 10.0 && -10.0 <= y <= 10.0 && base - 15.0 <= r <= base + 15.0
    }

    constructor (base: real)
      ensures Valid()
      ensures this.base == base && x == 0.0 && y == 0.0 && r == base
      ensures anchorX == 0.0 && anchorY == 0.0
    {
      this.base := base;
      x, y, r := 0.0, 0.0, base;
      anchorX, anchorY := 0.0, 0.0;
    }

    /** `recalcAnchors` for this leaf: the centre of its bounding box. */
    method RecalcAnchor(left: real, top: real, width: real, height: real)
      requires Valid()
      modifies this
      ensures Valid()
      ensures anchorX == left + width / 2.0 && anchorY == top + height / 2.0
      ensures x == old(x) && y == old(y) && r == old(r)
    {
      anchorX := left + width / 2.0;
      anchorY := top + height / 2.0;
    }

    /** The body of the `animate` loop for this leaf. */
    method Step(px: real, py: real)
      requires Valid()
      modifies this
      ensures Valid()
      ensures var t := TiltTarget(base, px - old(anchorX), py - old(anchorY));
        r == Lerp(old(r), t.rot, Ease) && x == Lerp(old(x), t.x, Ease) && y == Lerp(old(y), t.y, Ease)
      ensures anchorX == old(anchorX) && anchorY == old(anchorY)
    {
      var dx := px - anchorX;
      var dy := py - anchorY;
      var t := TiltTarget(base, dx, dy);
      LerpStaysWithin(r, t.rot, Ease, base - 15.0, base + 15.0);
      LerpStaysWithin(x, t.x, Ease, -10.0, 10.0);
      LerpStaysWithin(y, t.y, Ease, -10.0, 10.0);
      r := r + (t.rot - r) * Ease;
      x := x + (t.x - x) * Ease;
      y := y + (t.y - y) * Ease;
    }
  }

  /** The leaves the animator drives. It exists only when there is at
      least one leaf and reduced motion is not requested. */
  class Animator {
    const leaves: seq<Leaf>

    ghost predicate Valid()
      reads this, leaves
    {
      && |leaves| > 0
      && (forall i, j :: 0 <= i < j < |leaves| ==> leaves[i] != leaves[j])
      && (forall k :: 0 <= k < |leaves| ==> leaves[k].Valid())
    }

    /** `leaves.map(...)` over the base rotations of the `.leaf` elements;
        `null` stands for the script skipping the effect. */
    static method Create(bases: seq<real>, reducedMotion: bool) returns (a: Animator?)
      ensures (a != null) == (|bases| > 0 && !reducedMotion)
      ensures a != null ==> a.Valid() && fresh(a) && |a.leaves| == |bases|
      ensures a != null ==> forall k :: 0 <= k < |bases| ==>
        fresh(a.leaves[k]) && a.leaves[k].base == bases[k] && a.leaves[k].r == bases[k] &&
        a.leaves[k].x == 0.0 && a.leaves[k].y == 0.0
    {
      if |bases| == 0 || reducedMotion {
        return null;
      }
      var made: seq<Leaf> := [];
      var k := 0;
      while k < |bases|
        invariant 0 <= k <= |bases| && |made| == k
        invariant forall i, j :: 0 <= i < j < k ==> made[i] != made[j]
        invariant forall i :: 0 <= i < k ==>
          fresh(made[i]) && made[i].Valid() && made[i].base == bases[i] && made[i].r == bases[i] &&
          made[i].x == 0.0 && made[i].y == 0.0
      {
        var leaf := new Leaf(bases[k]);
        made := made + [leaf];
        k := k + 1;
      }
      a := new Animator(made);
    }

    constructor (leaves: seq<Leaf>)
      requires |leaves| > 0
      requires forall i, j :: 0 <= i < j < |leaves| ==> leaves[i] != leaves[j]
      requires forall k :: 0 <= k < |leaves| ==> leaves[k].Valid()
      ensures Valid() && this.leaves == leaves
    {
      this.leaves := leaves;
    }

    /** `recalcAnchors`, given each leaf's bounding box. */
    method RecalcAnchors(rects: seq<Rect>)
      requires Valid() && |rects| == |leaves|
      modifies set l | l in leaves
      ensures Valid()
      ensures forall k :: 0 <= k < |leaves| ==>
        var l := leaves[k];
        l.anchorX == rects[k].left + rects[k].width / 2.0 && l.anchorY == rects[k].top + rects[k].height / 2.0 &&
        l.r == old(l.r) && l.x == old(l.x) && l.y == old(l.y)
    {
      var k := 0;
      while k < |leaves|
        invariant 0 <= k <= |leaves|
        invariant Valid()
        invariant forall j :: 0 <= j < k ==>
          var l := leaves[j];
          l.anchorX == rects[j].left + rects[j].width / 2.0 && l.anchorY == rects[j].top + rects[j].height / 2.0 &&
          l.r == old(l.r) && l.x == old(l.x) && l.y == old(l.y)
        invariant forall j :: k <= j < |leaves| ==>
          var l := leaves[j];
          l.r == old(l.r) && l.x == old(l.x) && l.y == old(l.y)
      {
        var rect := rects[k];
        leaves[k].RecalcAnchor(rect.left, rect.top, rect.width, rect.height);
        k := k + 1;
      }
    }

    /** One frame of `animate`, with the pointer at `(px, py)`. */
    method Animate(px: real, py: real)
      requires Valid()
      modifies set l | l in leaves
      ensures Valid()
      ensures forall k :: 0 <= k < |leaves| ==>
        var l := leaves[k];
        var t := TiltTarget(l.base, px - old(l.anchorX), py - old(l.anchorY));
        l.r == Lerp(old(l.r), t.rot, Ease) && l.x == Lerp(old(l.x), t.x, Ease) &&
        l.y == Lerp(old(l.y), t.y, Ease) && l.anchorX == old(l.anchorX) && l.anchorY == old(l.anchorY)
    {
      var k := 0;
      while k < |leaves|
        invariant 0 <= k <= |leaves|
        invariant Valid()
        invariant forall j :: 0 <= j < k ==>
          var l := leaves[j];
          var t := TiltTarget(l.base, px - old(l.anchorX), py - old(l.anchorY));
          l.r == Lerp(old(l.r), t.rot, Ease) && l.x == Lerp(old(l.x), t.x, Ease) &&
          l.y == Lerp(old(l.y), t.y, Ease) && l.anchorX == old(l.anchorX) && l.anchorY == old(l.anchorY)
        invariant forall j :: k <= j < |leaves| ==>
          var l := leaves[j];
          l.r == old(l.r) && l.x == old(l.x) && l.y == old(l.y) &&
          l.anchorX == old(l.anchorX) && l.anchorY == old(l.anchorY)
      {
        leaves[k].Step(px, py);
        k := k + 1;
      }
    }
  }
}
