/** The leaf field's state: the `cells` list that `buildGrid` clears and
    refills, and the per-frame easing of every cell's rotation, scale,
    opacity and tone by `update`. */
module LeafField {
  import opened Numeric
  import opened LeafMath

  /** The highest rotation a cell can reach: its base plus the largest
      pointer tilt and idle pulse. */
  function RotCeiling(base: real): real { base + 2.072 }

  /** One entry of `cells`: its position and base rotation are fixed when
      the grid is built, the four `current` values are eased every frame. */
  class Cell {
    const x: real
    const y: real
    const base: real
    var currentRot: real
    var currentScale: real
    var currentOpacity: real
    var currentTone: real

    /** The eased values stay inside the hull of their start values and
        every target they can be eased towards. */
    ghost predicate Valid()
      reads this
    {
      && 17.0 <= base <= 19.0
      && 0.0 <= currentRot <= RotCeiling(base)
      && 0.9546 <= currentScale <= 1.2254
      && 0.2 <= currentOpacity <= 0.44
      && 0.0 <= currentTone <= 0.92
    }

    /** The object literal pushed by `buildGrid`; `baseDraw` and
        `opacityDraw` are its two `Math.random()` values, in that order. */
    constructor (x: real, y: real, baseDraw: real, opacityDraw: real)
      requires 0.0 <= baseDraw < 1.0 && 0.0 <= opacityDraw < 1.0
      ensures Valid()
      ensures this.x == x && this.y == y && base == BaseRotation(baseDraw)
      ensures currentRot == 0.0 && currentScale == 1.0 && currentTone == 0.0
      ensures currentOpacity == InitialOpacity(opacityDraw)
    {
      this.x := x;
      this.y := y;
      base := BaseRotation(baseDraw);
      currentRot := 0.0;
      currentScale := 1.0;
      currentOpacity := InitialOpacity(opacityDraw);
      currentTone := 0.0;
    }

    /** The body of the `cells.forEach` in `update` for this cell. */
    method Ease(p: Pointing, reducedMotion: bool)
      requires Valid() && ValidPointing(p)
      modifies this
      ensures Valid()
      ensures var t := CellTargets(base, p, IdleAmp(reducedMotion));
        var f := EasingFactors(reducedMotion);
        && currentRot == Lerp(old(currentRot), t.rot, f.rot)
        && currentScale == Lerp(old(currentScale), t.scale, f.scale)
        && currentOpacity == Lerp(old(currentOpacity), t.opacity, f.opacity)
        && currentTone == Lerp(old(currentTone), t.tone, f.tone)
    {
      var t := CellTargets(base, p, IdleAmp(reducedMotion));
      var f := EasingFactors(reducedMotion);
      LerpStaysWithin(currentRot, t.rot, f.rot, 0.0, RotCeiling(base));
      LerpStaysWithin(currentScale, t.scale, f.scale, 0.9546, 1.2254);
      LerpStaysWithin(currentOpacity, t.opacity, f.opacity, 0.2, 0.44);
      LerpStaysWithin(currentTone, t.tone, f.tone, 0.0, 0.92);
      currentRot := Lerp(currentRot, t.rot, f.rot);
      currentScale := Lerp(currentScale, t.scale, f.scale);
      currentOpacity := Lerp(currentOpacity, t.opacity, f.opacity);
      currentTone := Lerp(currentTone, t.tone, f.tone);
    }
  }

  /** Where the `k`-th pushed cell sits and how it starts, when the grid
      has `n` columns of spacing `s` and `rand(j)` is the `j`-th draw. */
  ghost predicate FreshCellAt(c: Cell, k: nat, s: real, n: nat, rand: nat -> real)
    requires n > 0
    reads c
  {
    && c.x == CellX(s, k / n, k % n)
    && c.y == CellY(s, k / n)
    && c.base == BaseRotation(rand(2 * k))
    && c.currentOpacity == InitialOpacity(rand(2 * k + 1))
    && c.currentRot == 0.0 && c.currentScale == 1.0 && c.currentTone == 0.0
  }

  /** The `.leaf-field` and the `cells` array it owns. */
  class Field {
    const reducedMotion: bool
    var cells: seq<Cell>

    ghost predicate Valid()
      reads this, cells
    {
      && (forall i, j :: 0 <= i < j < |cells| ==> cells[i] != cells[j])
      && (forall k :: 0 <= k < |cells| ==> cells[k].Valid())
    }

    constructor (reducedMotion: bool)
      ensures Valid() && this.reducedMotion == reducedMotion && cells == []
    {
      this.reducedMotion := reducedMotion;
      cells := [];
    }

    /** `buildGrid` for a `w` by `h` viewport. The list is emptied first,
        so the result depends on the viewport and the draws alone. */
    method BuildGrid(w: real, h: real, rand: nat -> real)
      requires w >= 0.0 && h >= 0.0
      requires forall j: nat :: 0.0 <= rand(j) < 1.0
      modifies this
      ensures Valid()
      ensures |cells| == CellCount(w, h) == Cols(w) * Rows(w, h)
      ensures forall k :: 0 <= k < |cells| ==>
        fresh(cells[k]) && FreshCellAt(cells[k], k, Spacing(w), Cols(w), rand)
    {
      CellCountOfViewport(w, h);
      cells := [];
      var s := Spacing(w);
      var cols := Cols(w);
      var rows := Rows(w, h);
      var row := 0;
      while row < rows
        invariant 0 <= row <= rows
        invariant |cells| == row * cols
        invariant forall i, j :: 0 <= i < j < |cells| ==> cells[i] != cells[j]
        invariant forall k :: 0 <= k < |cells| ==>
          fresh(cells[k]) && cells[k].Valid() && FreshCellAt(cells[k], k, s, cols, rand)
      {
        var col := 0;
        while col < cols
          invariant 0 <= col <= cols
          invariant |cells| == row * cols + col
          invariant forall i, j :: 0 <= i < j < |cells| ==> cells[i] != cells[j]
          invariant forall k :: 0 <= k < |cells| ==>
            fresh(cells[k]) && cells[k].Valid() && FreshCellAt(cells[k], k, s, cols, rand)
        {
          var k := |cells|;
          RowMajor(row, col, cols);
          var cell := new Cell(CellX(s, row, col), CellY(s, row), rand(2 * k), rand(2 * k + 1));
          cells := cells + [cell];
          col := col + 1;
        }
        assert row * cols + cols == (row + 1) * cols;
        row := row + 1;
      }
    }

    /** One frame of `update`: `p[k]` is what the frame measures for the
        `k`-th cell. Rotation and scale share one easing factor. */
    method Update(p: seq<Pointing>)
      requires Valid() && |p| == |cells|
      requires forall k :: 0 <= k < |p| ==> ValidPointing(p[k])
      modifies set c | c in cells
      ensures Valid()
      ensures forall k :: 0 <= k < |cells| ==>
        var c := cells[k];
        var t := CellTargets(c.base, p[k], IdleAmp(reducedMotion));
        var f := EasingFactors(reducedMotion);
        && c.currentRot == Lerp(old(c.currentRot), t.rot, f.rot)
        && c.currentScale == Lerp(old(c.currentScale), t.scale, f.scale)
        && c.currentOpacity == Lerp(old(c.currentOpacity), t.opacity, f.opacity)
        && c.currentTone == Lerp(old(c.currentTone), t.tone, f.tone)
    {
      var k := 0;
      while k < |cells|
        invariant 0 <= k <= |cells|
        invariant Valid()
        invariant forall j :: 0 <= j < k ==>
          var c := cells[j];
          var t := CellTargets(c.base, p[j], IdleAmp(reducedMotion));
          var f := EasingFactors(reducedMotion);
          && c.currentRot == Lerp(old(c.currentRot), t.rot, f.rot)
          && c.currentScale == Lerp(old(c.currentScale), t.scale, f.scale)
          && c.currentOpacity == Lerp(old(c.currentOpacity), t.opacity, f.opacity)
          && c.currentTone == Lerp(old(c.currentTone), t.tone, f.tone)
        invariant forall j :: k <= j < |cells| ==>
          var c := cells[j];
          && c.currentRot == old(c.currentRot) && c.currentScale == old(c.currentScale)
          && c.currentOpacity == old(c.currentOpacity) && c.currentTone == old(c.currentTone)
      {
        cells[k].Ease(p[k], reducedMotion);
        k := k + 1;
      }
    }
  }
}
