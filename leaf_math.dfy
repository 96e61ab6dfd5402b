/** The arithmetic of the pointer-reactive leaf field: the tone
    interpolator, the grid's spacing, size and cell positions, and the
    per-cell targets and easing factors of a frame. */
module LeafMath {
  import opened Numeric

  // ---- tone interpolator --------------------------------------------------

  datatype Rgb = Rgb(r: int, g: int, b: int)

  const LightTone: Rgb := Rgb(184, 198, 174)
  const DarkTone: Rgb := Rgb(132, 155, 116)

  /** One channel of `mixTone`: `Math.round(lerp(light, dark, t))`. */
  function Channel(light: int, dark: int, t: real): (c: int)
    ensures t == 0.0 ==> c == light
    ensures t == 1.0 ==> c == dark
    ensures 0.0 <= t <= 1.0 && dark <= light ==> dark <= c <= light
  {
    Round(Lerp(light as real, dark as real, t))
  }

  /** `mixTone(t)`: from the light tone at 0 to the dark tone at 1. */
  function MixTone(t: real): (c: Rgb)
    ensures t == 0.0 ==> c == LightTone
    ensures t == 1.0 ==> c == DarkTone
    ensures 0.0 <= t <= 1.0 ==>
      && DarkTone.r <= c.r <= LightTone.r
      && DarkTone.g <= c.g <= LightTone.g
      && DarkTone.b <= c.b <= LightTone.b
  {
    Rgb(Channel(LightTone.r, DarkTone.r, t),
        Channel(LightTone.g, DarkTone.g, t),
        Channel(LightTone.b, DarkTone.b, t))
  }

  /** A larger mix never gives a lighter channel. */
  lemma ChannelDarkens(light: int, dark: int, t1: real, t2: real)
    requires dark <= light && t1 <= t2
    ensures Channel(light, dark, t2) <= Channel(light, dark, t1)
  {
    var span := (light - dark) as real;
    NonNegProduct(span, t2 - t1);
    assert Lerp(light as real, dark as real, t2) == light as real - span * t2;
    assert Lerp(light as real, dark as real, t1) == light as real - span * t1;
    assert span * t2 - span * t1 == span * (t2 - t1);
  }

  /** The closer the pointer (the larger the tone), the darker every
      channel of the leaf's colour. */
  lemma MixToneDarkens(t1: real, t2: real)
    requires t1 <= t2
    ensures MixTone(t2).r <= MixTone(t1).r
    ensures MixTone(t2).g <= MixTone(t1).g
    ensures MixTone(t2).b <= MixTone(t1).b
  {
    ChannelDarkens(LightTone.r, DarkTone.r, t1, t2);
    ChannelDarkens(LightTone.g, DarkTone.g, t1, t2);
    ChannelDarkens(LightTone.b, DarkTone.b, t1, t2);
  }

  // ---- grid ---------------------------------------------------------------

  const NarrowViewport: real := 760.0

  /** The spacing of the grid: tighter on narrow viewports. */
  function Spacing(w: real): (s: real)
    ensures s == 42.0 || s == 48.0
    ensures s == 42.0 <==> w < NarrowViewport
  {
    if w < NarrowViewport then 42.0 else 48.0
  }

  /** `Math.ceil(extent / spacing) + 2`: one overscan cell on each side. */
  function Span(extent: real, s: real): (n: int)
    requires s > 0.0
    ensures extent >= 0.0 ==> n >= 2
    ensures (n as real - 2.0) * s >= extent && (n as real - 3.0) * s < extent
  {
    var c := Ceil(extent / s);
    CeilCovers(extent, s, extent / s, c as real);
    CeilIsTight(extent, s, extent / s, c as real);
    c + 2
  }

  /** Scaling the defining bounds of a ceiling back by the divisor. */
  lemma CeilCovers(extent: real, s: real, q: real, c: real)
    requires s > 0.0 && q * s == extent && q <= c
    ensures c * s >= extent
  {
    MulMono(q, c, s);
  }

  lemma CeilIsTight(extent: real, s: real, q: real, c: real)
    requires s > 0.0 && q * s == extent && c - 1.0 < q
    ensures (c - 1.0) * s < extent
  {
    MulStrict(c - 1.0, q, s);
  }

  lemma MulMono(a: real, b: real, s: real)
    requires a <= b && s > 0.0
    ensures a * s <= b * s
  {
    NonNegProduct(b - a, s);
    assert b * s - a * s == (b - a) * s;
  }

  lemma MulStrict(a: real, b: real, s: real)
    requires a < b && s > 0.0
    ensures a * s < b * s
  {
    assert b * s - a * s == (b - a) * s;
  }

  function Cols(w: real): int { Span(w, Spacing(w)) }

  function Rows(w: real, h: real): int { Span(h, Spacing(w)) }

  /** The number of iterations of `for (i = 0; i < n; i += 1)`. */
  function Iterations(n: int): nat { if n < 0 then 0 else n }

  /** The number of cells the nested loops of `buildGrid` push. */
  function CellCount(w: real, h: real): nat {
    Iterations(Rows(w, h)) * Iterations(Cols(w))
  }

  /** For a real viewport the count is exactly `cols * rows`, and it
      covers the viewport with at least one spare cell on every side. */
  lemma CellCountOfViewport(w: real, h: real)
    requires w >= 0.0 && h >= 0.0
    ensures Cols(w) >= 2 && Rows(w, h) >= 2
    ensures CellCount(w, h) == Cols(w) * Rows(w, h)
    ensures (Cols(w) - 2) as real * Spacing(w) >= w && (Rows(w, h) - 2) as real * Spacing(w) >= h
  {
  }

  /** The 1024 x 768 example: 24 columns of 18 rows, 432 cells. */
  lemma Viewport1024x768()
    ensures Spacing(1024.0) == 48.0 && Cols(1024.0) == 24 && Rows(1024.0, 768.0) == 18
    ensures CellCount(1024.0, 768.0) == 432
  {
    assert Ceil(1024.0 / 48.0) == 22 by {
      assert (-(1024.0 / 48.0)).Floor == -22;
    }
    assert Ceil(768.0 / 48.0) == 16 by {
      assert 768.0 / 48.0 == 16.0;
    }
  }

  /** Where cell `(row, col)` sits: rows `s` apart, columns `s` apart,
      odd rows pushed right by a quarter of the spacing. */
  function CellX(s: real, row: nat, col: nat): real {
    -(s * 0.5) + col as real * s + (row % 2) as real * s * 0.25
  }

  function CellY(s: real, row: nat): real {
    -(s * 0.5) + row as real * s
  }

  /** The brick pattern: neighbours in a row are one spacing apart, the
      rows are one spacing apart, and an odd row sits a quarter spacing to
      the right of the even row above it. */
  lemma BrickLayout(s: real, row: nat, col: nat)
    ensures CellX(s, row, col + 1) - CellX(s, row, col) == s
    ensures CellY(s, row + 1) - CellY(s, row) == s
    ensures row % 2 == 0 ==> CellX(s, row + 1, col) - CellX(s, row, col) == s / 4.0
    ensures row % 2 == 1 ==> CellX(s, row, col) - CellX(s, row + 1, col) == s / 4.0
    ensures CellX(s, 0, 0) == -(s / 2.0) && CellY(s, 0) == -(s / 2.0)
  {
    assert (col + 1) as real * s == col as real * s + s;
    assert (row + 1) as real * s == row as real * s + s;
  }

  /** Row-major order: the `k`-th pushed cell is at row `k / cols`,
      column `k % cols`. */
  lemma RowMajor(row: nat, col: nat, n: nat)
    requires col < n
    ensures (row * n + col) / n == row && (row * n + col) % n == col
  {
    DivModUnique(row * n + col, n, row, col);
  }

  /** Euclidean division has one quotient and one remainder. */
  lemma DivModUnique(a: int, n: int, q: int, r: int)
    requires n > 0 && 0 <= r < n && a == q * n + r
    ensures a / n == q && a % n == r
  {
    var q', r' := a / n, a % n;
    assert (q - q') * n == r' - r;
    if q - q' >= 1 {
      AtLeastOnce(q - q', n);
    } else if q' - q >= 1 {
      AtLeastOnce(q' - q, n);
    }
  }

  lemma AtLeastOnce(d: int, n: int)
    requires d >= 1 && n > 0
    ensures d * n >= n
  {
    assert d * n - n == (d - 1) * n;
  }

  /** A fresh cell's random rotation, `18 + (random * 2 - 1)`. */
  function BaseRotation(draw: real): (b: real)
    ensures 0.0 <= draw < 1.0 ==> 17.0 <= b < 19.0
  {
    18.0 + ((draw * 2.0) - 1.0)
  }

  /** A fresh cell's random opacity, `0.22 + random * 0.04`. */
  function InitialOpacity(draw: real): (o: real)
    ensures 0.0 <= draw < 1.0 ==> 0.22 <= o < 0.26
  {
    0.22 + draw * 0.04
  }

  // ---- the per-cell targets of a frame ------------------------------------

  const Radius: real := 240.0

  /** `clamp(1 - dist / radius, 0, 1)`. */
  function Influence(dist: real): (i: real)
    ensures 0.0 <= i <= 1.0
    ensures dist == 0.0 ==> i == 1.0
    ensures dist >= Radius ==> i == 0.0
    ensures 0.0 <= dist <= Radius ==> i == 1.0 - dist / Radius
  {
    Clamp(1.0 - dist / Radius, 0.0, 1.0)
  }

  /** `influence * influence`: quadratic easing, never above the
      influence itself. */
  function Falloff(dist: real): (f: real)
    ensures 0.0 <= f <= Influence(dist) <= 1.0
    ensures dist == 0.0 ==> f == 1.0
    ensures dist >= Radius ==> f == 0.0
  {
    var i := Influence(dist);
    ScaleDown(i, i);
    i * i
  }

  /** Pointer-driven tilt of a cell, at most two degrees either way. */
  function PointerTilt(angle: real, base: real, falloff: real): (t: real)
    ensures -2.0 <= t <= 2.0
    ensures falloff == 0.0 ==> t == 0.0
  {
    Clamp((angle - base) * 0.02 * falloff, -2.0, 2.0)
  }

  /** The inputs of one cell in one frame: the distance and the angle (in
      degrees) from the cell to the pointer, and the two sine values of
      the idle pulse and drift. */
  datatype Pointing = Pointing(dist: real, angle: real, pulse: real, drift: real)

  predicate ValidPointing(p: Pointing) {
    p.dist >= 0.0 && -1.0 <= p.pulse <= 1.0 && -1.0 <= p.drift <= 1.0
  }

  /** `reducedMotion ? 0 : 0.9`. */
  function IdleAmp(reducedMotion: bool): (a: real)
    ensures 0.0 <= a <= 0.9
    ensures reducedMotion <==> a == 0.0
  {
    if reducedMotion then 0.0 else 0.9
  }

  datatype Targets = Targets(rot: real, scale: real, opacity: real, tone: real)

  /** The idle oscillation `wave * idleAmp`, where `wave` is a sine value;
      the script scales it by a per-channel constant (`wave * 0.08 *
      idleAmp`, `wave * 0.006 * idleAmp`), which reals let us apply last. */
  function IdleWave(wave: real, amp: real): (r: real)
    requires 0.0 <= amp <= 0.9
    ensures -1.0 <= wave <= 1.0 ==> -0.9 <= r <= 0.9
    ensures amp == 0.0 ==> r == 0.0
  {
    SignedFraction(wave, amp, 0.9);
    wave * amp
  }

  /** A sine value times a bounded non-negative amount stays within the
      bound either way. */
  lemma SignedFraction(w: real, x: real, bound: real)
    requires 0.0 <= x <= bound
    ensures -1.0 <= w <= 1.0 ==> -bound <= w * x <= bound
  {
    if 0.0 <= w <= 1.0 {
      ScaleDown(x, w);
      assert w * x == x * w;
    } else if -1.0 <= w < 0.0 {
      var m := -w;
      ScaleDown(x, m);
      assert w * x == -(x * m);
    }
  }

  /** The targets of lines 86-90. */
  function CellTargets(base: real, p: Pointing, idleAmp: real): (t: Targets)
    requires 0.0 <= idleAmp <= 0.9
    ensures 0.2 <= t.opacity <= 0.44
    ensures 0.0 <= t.tone <= 0.92
    ensures -1.0 <= p.pulse <= 1.0 ==> base - 2.072 <= t.rot <= base + 2.072
    ensures -1.0 <= p.drift <= 1.0 ==> 0.9546 <= t.scale <= 1.2254
    ensures idleAmp == 0.0 ==> base - 2.0 <= t.rot <= base + 2.0 && 0.96 <= t.scale <= 1.22
  {
    var falloff := Falloff(p.dist);
    var pointerTilt := PointerTilt(p.angle, base, falloff);
    Targets(base + pointerTilt + IdleWave(p.pulse, idleAmp) * 0.08,
            0.96 + (falloff * 0.26) + IdleWave(p.drift, idleAmp) * 0.006,
            0.2 + (falloff * 0.24),
            falloff * 0.92)
  }

  /** With the pointer on the cell and no idle motion the targets are at
      their maximum: scale 1.22, opacity 0.44, tone 0.92. */
  lemma PointerOnCell(base: real, angle: real, pulse: real, drift: real)
    ensures var t := CellTargets(base, Pointing(0.0, angle, pulse, drift), 0.0);
      t.scale == 1.22 && t.opacity == 0.44 && t.tone == 0.92 &&
      t.rot == base + Clamp((angle - base) * 0.02, -2.0, 2.0)
  {
    assert Falloff(0.0) == 1.0;
    assert PointerTilt(angle, base, 1.0) == Clamp((angle - base) * 0.02, -2.0, 2.0) by {
      assert (angle - base) * 0.02 * 1.0 == (angle - base) * 0.02;
    }
  }

  /** Beyond the radius the pointer has no effect: the targets are the
      resting ones. */
  lemma PointerOutOfReach(base: real, p: Pointing)
    requires p.dist >= Radius
    ensures var t := CellTargets(base, p, 0.0);
      t.rot == base && t.scale == 0.96 && t.opacity == 0.2 && t.tone == 0.0
  {
  }

  /** The easing factors per channel, snappier under reduced motion. */
  datatype Factors = Factors(rot: real, scale: real, opacity: real, tone: real)

  function EasingFactors(reducedMotion: bool): (f: Factors)
    ensures 0.0 < f.rot <= 1.0 && 0.0 < f.scale <= 1.0 && 0.0 < f.opacity <= 1.0 && 0.0 < f.tone <= 1.0
    ensures f.rot == f.scale
  {
    if reducedMotion then Factors(0.16, 0.16, 0.18, 0.2) else Factors(0.11, 0.11, 0.12, 0.14)
  }

  /** Reduced motion removes the idle oscillation and compensates with a
      snappier easing on every channel. */
  lemma ReducedMotionIsSnappier()
    ensures EasingFactors(false).rot < EasingFactors(true).rot
    ensures EasingFactors(false).scale < EasingFactors(true).scale
    ensures EasingFactors(false).opacity < EasingFactors(true).opacity
    ensures EasingFactors(false).tone < EasingFactors(true).tone
  {
  }
}
