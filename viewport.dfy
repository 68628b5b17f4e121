/** The viewport fitter: the normalised sub-rectangle of a resized window onto which
    the fixed-resolution logical canvas is projected without distortion. */
module Viewport {
  import opened Geometry

  /** The rectangle returned for a window with a zero dimension. */
  const Empty := Rect(0.0, 0.0, 0.0, 0.0)

  /** The whole window: no bars. */
  const Full := Rect(0.0, 0.0, 1.0, 1.0)

  /** A non-empty rectangle lying inside the unit square. */
  predicate WithinUnitSquare(r: Rect) {
    0.0 <= r.left && 0.0 <= r.top && 0.0 < r.width && 0.0 < r.height &&
    r.left + r.width <= 1.0 && r.top + r.height <= 1.0
  }

  /** Whether a resize of the window to this size is fitted at all. */
  predicate Degenerate(newWidth: U32, newHeight: U32) {
    newWidth == 0 || newHeight == 0
  }

  /** The fitted viewport for a window of `newWidth` x `newHeight` pixels showing a
      canvas of `target` pixels: a pillarbox (bars left and right) when the window is
      relatively wider than the canvas, a letterbox (bars above and below) when it is
      relatively taller, and the whole window when the two ratios agree. A window
      with a zero dimension gets the empty rectangle; otherwise the target must have
      no zero dimension (the source asserts it). */
  function ResizeKeepRatio(newWidth: U32, newHeight: U32, target: Size): (r: Rect)
    requires Degenerate(newWidth, newHeight) || (target.width != 0 && target.height != 0)
    ensures Degenerate(newWidth, newHeight) ==> r == Empty
    ensures !Degenerate(newWidth, newHeight) ==> WithinUnitSquare(r)
    ensures !Degenerate(newWidth, newHeight) ==> r.width == 1.0 || r.height == 1.0
  {
    if Degenerate(newWidth, newHeight) then Empty
    else
      var screenWidth := newWidth as real / target.width as real;
      var screenHeight := newHeight as real / target.height as real;
      if screenWidth > screenHeight then
        var width := screenHeight / screenWidth;
        QuotientInUnitInterval(screenHeight, screenWidth);
        Rect(0.5 * (1.0 - width), 0.0, width, 1.0)
      else if screenWidth < screenHeight then
        var height := screenWidth / screenHeight;
        QuotientInUnitInterval(screenWidth, screenHeight);
        Rect(0.0, 0.5 * (1.0 - height), 1.0, height)
      else
        Full
  }

  /** A positive quotient of a smaller by a larger number lies strictly inside (0, 1). */
  lemma QuotientInUnitInterval(a: real, b: real)
    requires 0.0 < a < b
    ensures 0.0 < a / b < 1.0
  {
    var q := a / b;
    assert q * b == a;
    PositiveScalingKeepsOrder(q, 1.0, b);
    assert q * b < 1.0 * b;
    assert q < 1.0;
    PositiveScalingKeepsOrder(q, 0.0, b);
    assert q * b > 0.0 * b;
    assert q > 0.0;
  }

  /** Comparing the per-axis scale ratios is comparing cross products of integers. */
  lemma CompareRatios(w: U32, h: U32, tw: U32, th: U32)
    requires tw > 0 && th > 0
    ensures (w as real / tw as real > h as real / th as real) <==> w * th > h * tw
    ensures (w as real / tw as real < h as real / th as real) <==> w * th < h * tw
  {
    var sw, sh := w as real / tw as real, h as real / th as real;
    assert sw * tw as real == w as real;
    assert sh * th as real == h as real;
    var k := tw as real * th as real;
    assert k > 0.0;
    assert sw * k == (w * th) as real;
    assert sh * k == (h * tw) as real;
    PositiveScalingKeepsOrder(sw, sh, k);
  }

  lemma PositiveScalingKeepsOrder(a: real, b: real, k: real)
    requires k > 0.0
    ensures a > b <==> a * k > b * k
    ensures a < b <==> a * k < b * k
  {
    if a > b { assert (a - b) * k > 0.0; }
    if a < b { assert (b - a) * k > 0.0; }
    if a * k > b * k { assert (a - b) * k > 0.0; }
    if a * k < b * k { assert (b - a) * k > 0.0; }
  }

  /** The window is relatively wider than the canvas exactly when the result is a
      pillarbox: full height, a width below 1 equal to the ratio of the two scale
      factors, and equal bars on both sides. */
  lemma {:induction false} PillarboxWhenWider(w: U32, h: U32, target: Size)
    requires w > 0 && h > 0 && target.width > 0 && target.height > 0
    ensures var r := ResizeKeepRatio(w, h, target);
      w * target.height > h * target.width <==>
        (r.top == 0.0 && r.height == 1.0 && r.width < 1.0)
    ensures var r := ResizeKeepRatio(w, h, target);
      w * target.height > h * target.width ==>
        r.width == (h * target.width) as real / (w * target.height) as real &&
        r.left == (1.0 - r.width) / 2.0 && r.left + r.width + r.left == 1.0
  {
    var tw, th := target.width, target.height;
    CompareRatios(w, h, tw, th);
    var r := ResizeKeepRatio(w, h, target);
    var sw, sh := w as real / tw as real, h as real / th as real;
    if w * th > h * tw {
      CrossQuotient(w, h, tw, th);
      assert r.width == sh / sw;
    }
  }

  /** The window is relatively taller than the canvas exactly when the result is a
      letterbox: full width, a height below 1 equal to the ratio of the two scale
      factors, and equal bars above and below. */
  lemma {:induction false} LetterboxWhenTaller(w: U32, h: U32, target: Size)
    requires w > 0 && h > 0 && target.width > 0 && target.height > 0
    ensures var r := ResizeKeepRatio(w, h, target);
      w * target.height < h * target.width <==>
        (r.left == 0.0 && r.width == 1.0 && r.height < 1.0)
    ensures var r := ResizeKeepRatio(w, h, target);
      w * target.height < h * target.width ==>
        r.height == (w * target.height) as real / (h * target.width) as real &&
        r.top == (1.0 - r.height) / 2.0 && r.top + r.height + r.top == 1.0
  {
    var tw, th := target.width, target.height;
    CompareRatios(w, h, tw, th);
    var r := ResizeKeepRatio(w, h, target);
    var sw, sh := w as real / tw as real, h as real / th as real;
    if w * th < h * tw {
      CrossQuotient(h, w, th, tw);
      assert r.height == sw / sh;
    }
  }

  /** `(h/th) / (w/tw)` as a single quotient of integers. */
  lemma CrossQuotient(w: U32, h: U32, tw: U32, th: U32)
    requires w > 0 && h > 0 && tw > 0 && th > 0
    ensures (h as real / th as real) / (w as real / tw as real)
         == (h * tw) as real / (w * th) as real
  {
    var sw, sh := w as real / tw as real, h as real / th as real;
    var q := (h * tw) as real / (w * th) as real;
    assert q * (w * th) as real == (h * tw) as real;
    assert sw * tw as real == w as real;
    assert sh * th as real == h as real;
    assert q * sw * (tw as real * th as real) == sh * (tw as real * th as real);
    CancelPositive(q * sw, sh, tw as real * th as real);
  }

  lemma CancelPositive(a: real, b: real, k: real)
    requires k > 0.0 && a * k == b * k
    ensures a == b
  {
    PositiveScalingKeepsOrder(a, b, k);
  }

  /** Equal ratios, and only they, give the whole window. */
  lemma {:induction false} FullWhenRatiosAgree(w: U32, h: U32, target: Size)
    requires w > 0 && h > 0 && target.width > 0 && target.height > 0
    ensures w * target.height == h * target.width <==> ResizeKeepRatio(w, h, target) == Full
  {
    PillarboxWhenWider(w, h, target);
    LetterboxWhenTaller(w, h, target);
    CompareRatios(w, h, target.width, target.height);
  }

  /** The fitted viewport, measured in window pixels, has exactly the canvas's aspect
      ratio: the canvas is never stretched. */
  lemma {:induction false} KeepsAspectRatio(w: U32, h: U32, target: Size)
    requires w > 0 && h > 0 && target.width > 0 && target.height > 0
    ensures var r := ResizeKeepRatio(w, h, target);
      r.width * w as real * target.height as real == r.height * h as real * target.width as real
  {
    var tw, th := target.width, target.height;
    var r := ResizeKeepRatio(w, h, target);
    PillarboxWhenWider(w, h, target);
    LetterboxWhenTaller(w, h, target);
    FullWhenRatiosAgree(w, h, target);
    if w * th > h * tw {
      var q := (h * tw) as real / (w * th) as real;
      assert q * (w * th) as real == (h * tw) as real;
    } else if w * th < h * tw {
      var q := (w * th) as real / (h * tw) as real;
      assert q * (h * tw) as real == (w * th) as real;
    }
  }

  /** Scaling the window by a whole factor leaves the fitted viewport unchanged. */
  lemma {:induction false} ScaleInvariant(w: U32, h: U32, k: nat, target: Size)
    requires w > 0 && h > 0 && k > 0 && target.width > 0 && target.height > 0
    requires k * w < 0x1_0000_0000 && k * h < 0x1_0000_0000
    ensures ResizeKeepRatio(k * w, k * h, target) == ResizeKeepRatio(w, h, target)
  {
    var tw, th := target.width, target.height;
    var bigW, bigH: U32 := k * w, k * h;
    var wide, tall := w * th, h * tw;
    MulAssoc(k, w, th);
    MulAssoc(k, h, tw);
    assert bigW * th == k * wide && bigH * tw == k * tall;
    MulKeepsOrder(k, wide, tall);
    if wide > tall {
      PillarboxWhenWider(w, h, target);
      PillarboxWhenWider(bigW, bigH, target);
      QuotientCancels(tall, wide, k);
    } else if wide < tall {
      LetterboxWhenTaller(w, h, target);
      LetterboxWhenTaller(bigW, bigH, target);
      QuotientCancels(wide, tall, k);
    } else {
      FullWhenRatiosAgree(w, h, target);
      FullWhenRatiosAgree(bigW, bigH, target);
    }
  }

  lemma MulAssoc(a: int, b: int, c: int)
    ensures a * b * c == a * (b * c)
  {
  }

  lemma MulKeepsOrder(k: int, x: int, y: int)
    requires k > 0
    ensures x > y <==> k * x > k * y
    ensures x < y <==> k * x < k * y
  {
    if x > y { assert k * x - k * y == k * (x - y); }
    if x < y { assert k * y - k * x == k * (y - x); }
    if x == y { assert k * x == k * y; }
  }

  lemma QuotientCancels(a: nat, b: nat, k: nat)
    requires b > 0 && k > 0
    ensures (k * a) as real / (k * b) as real == a as real / b as real
  {
    var q := a as real / b as real;
    assert q * b as real == a as real;
    assert q * (k * b) as real == (k * a) as real;
  }

  /** A window whose size is a whole multiple of the canvas size shows the canvas
      over the whole window. */
  lemma {:induction false} MultipleOfTargetIsFull(k: nat, target: Size)
    requires k > 0 && target.width > 0 && target.height > 0
    requires k * target.width < 0x1_0000_0000 && k * target.height < 0x1_0000_0000
    ensures ResizeKeepRatio(k * target.width, k * target.height, target) == Full
  {
    var tw, th := target.width, target.height;
    assert k * tw * th == k * th * tw;
    FullWhenRatiosAgree(k * tw, k * th, target);
  }
}
