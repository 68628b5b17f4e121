/** The image fitter: scales the image uniformly so that it fills the window on its
    limiting axis and centres it on the other axis. */
module ImageFit {
  import opened Geometry

  /** The transform the sprite applies to the texture: where its top-left corner
      goes and how much each axis is scaled. */
  datatype Placement = Placement(position: Vec2, scale: Vec2)

  /** A whole-pixel offset from the window's top-left corner. */
  datatype PixelOffset = PixelOffset(x: U32, y: U32)

  /** The ratio of a window extent to a texture extent, as a float: the factor
      that stretches the texture extent to the window extent. */
  function Ratio(win: U32, tex: U32): (r: real)
    requires tex > 0
    ensures r >= 0.0
  {
    win as real / tex as real
  }

  /** Scaling the texture extent by its own ratio gives the window extent. */
  lemma RatioScalesExactly(win: U32, tex: U32)
    requires tex > 0
    ensures Ratio(win, tex) * tex as real == win as real
  {
  }

  const U32_MAX: U32 := 0xFFFF_FFFF

  /** The saturating cast of a float to an unsigned 32-bit integer: negative values
      become 0, values beyond the range become the largest value, and values in
      range lose their fraction. */
  function AsU32(x: real): (n: U32)
    ensures x < 0.0 ==> n == 0
    ensures 0.0 <= x ==> n as real <= x
    ensures 0.0 <= x < (U32_MAX + 1) as real ==> x < n as real + 1.0
  {
    if x < 0.0 then 0
    else if x >= (U32_MAX + 1) as real then U32_MAX
    else x.Floor
  }

  /** A scale no larger than an axis's own ratio stretches the texture extent to at
      most the window extent. */
  lemma ScaledBelowOwnRatio(k: real, win: U32, tex: U32)
    requires tex > 0 && k <= Ratio(win, tex)
    ensures k * tex as real <= win as real
  {
    RatioScalesExactly(win, tex);
    assert (Ratio(win, tex) - k) * tex as real >= 0.0;
  }

  /** A float no larger than a `U32` casts to no more than it. */
  lemma CastBelow(x: real, bound: U32)
    requires x <= bound as real
    ensures AsU32(x) <= bound
  {
  }

  /** The offset that centres an extent of `scaled` pixels, truncated, within `win`
      pixels: the margins left before and after it differ by at most one pixel. The
      subtraction cannot underflow because the scaled extent fits. */
  function CentredOffset(win: U32, scaled: real): (off: U32)
    requires scaled <= win as real
    ensures 0 <= win - AsU32(scaled) - 2 * off <= 1
  {
    CastBelow(scaled, win);
    (win - AsU32(scaled)) / 2
  }

  /** The uniform scale of the image: the smaller of the two per-axis ratios, so
      that the tighter axis decides. */
  function Scale(win: Size, tex: Size): (s: real)
    requires tex.width > 0 && tex.height > 0
    ensures 0.0 <= s
    ensures s <= Ratio(win.height, tex.height) && s <= Ratio(win.width, tex.width)
    ensures s == Ratio(win.height, tex.height) || s == Ratio(win.width, tex.width)
  {
    var yRatio := Ratio(win.height, tex.height);
    var xRatio := Ratio(win.width, tex.width);
    if yRatio < xRatio then yRatio else xRatio
  }

  /** Where the image's top-left corner goes, in whole pixels: centred across when
      the height limits the scale, centred down otherwise, and pinned to the edge on
      the limiting axis. */
  function Offset(win: Size, tex: Size): (o: PixelOffset)
    requires tex.width > 0 && tex.height > 0
    ensures o.x == 0 || o.y == 0
  {
    var yRatio := Ratio(win.height, tex.height);
    var xRatio := Ratio(win.width, tex.width);
    if yRatio < xRatio then
      ScaledBelowOwnRatio(yRatio, win.width, tex.width);
      PixelOffset(CentredOffset(win.width, yRatio * tex.width as real), 0)
    else
      ScaledBelowOwnRatio(xRatio, win.height, tex.height);
      PixelOffset(0, CentredOffset(win.height, xRatio * tex.height as real))
  }

  /** The placement that maximises and centres a `tex`-sized image in a `win`-sized
      window: one scale for both axes, and a top-left corner at a whole, non-negative
      pixel that lies on the window's edge on at least one axis. */
  function Fit(win: Size, tex: Size): (p: Placement)
    requires tex.width > 0 && tex.height > 0
    ensures p.scale.x == p.scale.y
    ensures 0.0 <= p.position.x && 0.0 <= p.position.y
    ensures p.position.x.Floor as real == p.position.x && p.position.y.Floor as real == p.position.y
    ensures p.position.x == 0.0 || p.position.y == 0.0
  {
    var scale, offset := Scale(win, tex), Offset(win, tex);
    Placement(Vec2(offset.x as real, offset.y as real), Vec2(scale, scale))
  }

  /** On a tie between the two ratios the horizontal ratio is chosen, and the image
      then sits at the origin: it fills the window exactly. */
  lemma {:induction false} TieFillsExactly(win: Size, tex: Size)
    requires tex.width > 0 && tex.height > 0
    requires Ratio(win.height, tex.height) == Ratio(win.width, tex.width)
    ensures Offset(win, tex) == PixelOffset(0, 0)
  {
    var xRatio := Ratio(win.width, tex.width);
    RatioScalesExactly(win.height, tex.height);
    CastOfWhole(xRatio * tex.height as real, win.height);
  }

  /** A float holding a whole number casts to that number. */
  lemma CastOfWhole(x: real, n: U32)
    requires x == n as real
    ensures AsU32(x) == n
  {
  }

  /** When the height limits the scale, the image starts at the top edge and at a
      whole pixel across, such that the margins left and right of the truncated
      scaled width differ by at most one pixel. */
  lemma {:induction false} CentredAcross(win: Size, tex: Size)
    requires tex.width > 0 && tex.height > 0
    requires Ratio(win.height, tex.height) < Ratio(win.width, tex.width)
    ensures var o, sw := Offset(win, tex), AsU32(Ratio(win.height, tex.height) * tex.width as real);
      o.y == 0 && 0 <= win.width - sw - 2 * o.x <= 1
  {
    var yRatio := Ratio(win.height, tex.height);
    ScaledBelowOwnRatio(yRatio, win.width, tex.width);
  }

  /** When the width limits the scale (or neither does), the image starts at the
      left edge and at a whole pixel down, such that the margins above and below the
      truncated scaled height differ by at most one pixel. */
  lemma {:induction false} CentredDown(win: Size, tex: Size)
    requires tex.width > 0 && tex.height > 0
    requires Ratio(win.width, tex.width) <= Ratio(win.height, tex.height)
    ensures var o, sh := Offset(win, tex), AsU32(Ratio(win.width, tex.width) * tex.height as real);
      o.x == 0 && 0 <= win.height - sh - 2 * o.y <= 1
  {
    var xRatio := Ratio(win.width, tex.width);
    ScaledBelowOwnRatio(xRatio, win.height, tex.height);
  }

  /** Under `scale` a `tex`-sized image fits inside a `win`-sized window on both
      axes and fills it on at least one. */
  predicate MaximalIn(scale: real, win: Size, tex: Size) {
    scale * tex.width as real <= win.width as real &&
    scale * tex.height as real <= win.height as real &&
    (scale * tex.width as real == win.width as real || scale * tex.height as real == win.height as real)
  }

  /** The fitted placement maximises the image: it uses one scale on both axes, and
      under that scale the image fits inside the window on both axes and fills it
      on at least one. */
  lemma {:induction false} FitMaximizes(win: Size, tex: Size)
    requires tex.width > 0 && tex.height > 0
    ensures Fit(win, tex).scale.y == Fit(win, tex).scale.x
    ensures MaximalIn(Fit(win, tex).scale.x, win, tex)
  {
    FitParts(win, tex);
    ScaleIsMaximal(win, tex);
    MaximalCongruent(Scale(win, tex), Fit(win, tex).scale.x, win, tex);
  }

  /** The uniform scale maximises the image. */
  lemma {:induction false} ScaleIsMaximal(win: Size, tex: Size)
    requires tex.width > 0 && tex.height > 0
    ensures MaximalIn(Scale(win, tex), win, tex)
  {
    RatioScalesExactly(win.width, tex.width);
    RatioScalesExactly(win.height, tex.height);
    SmallerRatioFills(Scale(win, tex), Ratio(win.width, tex.width), Ratio(win.height, tex.height), win, tex);
  }

  /** Maximality depends on the scale's value only. */
  lemma MaximalCongruent(s: real, k: real, win: Size, tex: Size)
    requires s == k && MaximalIn(s, win, tex)
    ensures MaximalIn(k, win, tex)
  {
  }

  /** The smaller of the two per-axis ratios maximises the image. */
  lemma SmallerRatioFills(k: real, rw: real, rh: real, win: Size, tex: Size)
    requires tex.width > 0 && tex.height > 0
    requires rw * tex.width as real == win.width as real && rh * tex.height as real == win.height as real
    requires k <= rw && k <= rh && (k == rw || k == rh)
    ensures MaximalIn(k, win, tex)
  {
    assert (rw - k) * tex.width as real >= 0.0;
    assert (rh - k) * tex.height as real >= 0.0;
  }

  /** An image extent of `extent` pixels, truncated to whole pixels and starting at
      `start` within a window extent of `win` pixels, leaves margins before and after
      it that differ by at most one pixel. */
  predicate Balanced(win: U32, extent: real, start: real) {
    0.0 <= win as real - AsU32(extent) as real - 2.0 * start <= 1.0
  }

  /** The fitted placement centres the image on both axes: the margins before and
      after the truncated scaled extent differ by at most one pixel across and down.
      On the limiting axis the image fills the window, so both margins are zero. */
  lemma {:induction false} FitCentres(win: Size, tex: Size)
    requires tex.width > 0 && tex.height > 0
    ensures var p := Fit(win, tex);
      Balanced(win.width, p.scale.x * tex.width as real, p.position.x) &&
      Balanced(win.height, p.scale.x * tex.height as real, p.position.y)
  {
    if Ratio(win.height, tex.height) < Ratio(win.width, tex.width) {
      FitCentresAcross(win, tex);
    } else {
      FitCentresDown(win, tex);
    }
  }

  /** The branch of `FitCentres` where the height limits the scale: the image fills
      the window's height from the top and is centred across. */
  lemma {:induction false} FitCentresAcross(win: Size, tex: Size)
    requires tex.width > 0 && tex.height > 0
    requires Ratio(win.height, tex.height) < Ratio(win.width, tex.width)
    ensures var p := Fit(win, tex);
      p.position.y == 0.0 &&
      Balanced(win.width, p.scale.x * tex.width as real, p.position.x) &&
      Balanced(win.height, p.scale.x * tex.height as real, p.position.y)
  {
    FitParts(win, tex);
    var extent := Fit(win, tex).scale.x * tex.width as real;
    CastCongruent(extent, Ratio(win.height, tex.height) * tex.width as real);
    CentredAcross(win, tex);
    BalancedFromPixels(win.width, extent, Offset(win, tex).x, Fit(win, tex).position.x);
    var filled := Fit(win, tex).scale.x * tex.height as real;
    RatioScalesExactly(win.height, tex.height);
    CastOfWhole(filled, win.height);
    BalancedFromPixels(win.height, filled, 0, Fit(win, tex).position.y);
  }

  /** The branch of `FitCentres` where the width limits the scale, or neither does:
      the image fills the window's width from the left and is centred down. */
  lemma {:induction false} FitCentresDown(win: Size, tex: Size)
    requires tex.width > 0 && tex.height > 0
    requires Ratio(win.width, tex.width) <= Ratio(win.height, tex.height)
    ensures var p := Fit(win, tex);
      p.position.x == 0.0 &&
      Balanced(win.height, p.scale.x * tex.height as real, p.position.y) &&
      Balanced(win.width, p.scale.x * tex.width as real, p.position.x)
  {
    FitParts(win, tex);
    var extent := Fit(win, tex).scale.x * tex.height as real;
    CastCongruent(extent, Ratio(win.width, tex.width) * tex.height as real);
    CentredDown(win, tex);
    BalancedFromPixels(win.height, extent, Offset(win, tex).y, Fit(win, tex).position.y);
    var filled := Fit(win, tex).scale.x * tex.width as real;
    RatioScalesExactly(win.width, tex.width);
    CastOfWhole(filled, win.width);
    BalancedFromPixels(win.width, filled, 0, Fit(win, tex).position.x);
  }

  /** Equal floats cast to equal integers. */
  lemma CastCongruent(a: real, b: real)
    requires a == b
    ensures AsU32(a) == AsU32(b)
  {
  }

  /** A whole-pixel margin condition read in floats. */
  lemma BalancedFromPixels(win: U32, extent: real, off: U32, start: real)
    requires start == off as real && 0 <= win - AsU32(extent) - 2 * off <= 1
    ensures Balanced(win, extent, start)
  {
  }

  /** The fitted placement is made of the uniform scale and the pixel offset. */
  lemma FitParts(win: Size, tex: Size)
    requires tex.width > 0 && tex.height > 0
    ensures Fit(win, tex).scale == Vec2(Scale(win, tex), Scale(win, tex))
    ensures Fit(win, tex).position == Vec2(Offset(win, tex).x as real, Offset(win, tex).y as real)
  {
  }

  /** A 1920x1080 image on a 2560x1440 window: both ratios are 4/3, the image
      fills the whole window and sits at the origin. */
  lemma FitScenarioQhd()
    ensures Fit(Size(2560, 1440), Size(1920, 1080)) == Placement(Vec2(0.0, 0.0), Vec2(4.0 / 3.0, 4.0 / 3.0))
  {
    assert Ratio(1440, 1080) == 4.0 / 3.0;
    assert Ratio(2560, 1920) == 4.0 / 3.0;
    TieFillsExactly(Size(2560, 1440), Size(1920, 1080));
  }

  /** A 100x100 image on a 300x100 window: the height limits the scale to 1, and
      the image is centred across at x = 100. */
  lemma FitScenarioPillarbox()
    ensures Fit(Size(300, 100), Size(100, 100)) == Placement(Vec2(100.0, 0.0), Vec2(1.0, 1.0))
  {
    assert Ratio(100, 100) == 1.0;
    assert Ratio(300, 100) == 3.0;
    assert AsU32(1.0 * 100 as real) == 100;
  }

  /** The drawable image: its position and scale are the two things the viewer
      changes. */
  class Sprite {
    var position: Vec2
    var scale: Vec2

    /** A sprite over a texture starts at the origin, unscaled. */
    constructor WithTexture()
      ensures position == Vec2(0.0, 0.0) && scale == Vec2(1.0, 1.0)
    {
      position := Vec2(0.0, 0.0);
      scale := Vec2(1.0, 1.0);
    }
  }

  /** Scales and centres `sprite` for a window of `win` pixels showing a texture of
      `tex` pixels; both texture extents are positive since the texture was loaded. */
  method CenterAndMaximize(win: Size, tex: Size, sprite: Sprite)
    requires tex.width > 0 && tex.height > 0
    modifies sprite
    ensures sprite.position == Fit(win, tex).position
    ensures sprite.scale == Fit(win, tex).scale
  {
    var placement := Fit(win, tex);
    sprite.position := placement.position;
    sprite.scale := placement.scale;
  }
}
