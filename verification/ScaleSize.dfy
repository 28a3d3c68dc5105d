// Scaling a picture size to the configured one: a missing side follows from the aspect ratio,
// and both sides are cut to even numbers.

module ScaleSize {
  import opened CLib

  // RS_CONFIG_AUTO
  const AUTO := -1

  // (x >> 1) << 1
  function EvenFloor(x: int): (e: int)
    ensures e % 2 == 0 && e <= x <= e + 1
  {
    x / 2 * 2
  }

  // What the configuration and the caller guarantee: sides within int, and a positive side to
  // divide by when the other one has to follow.
  predicate Scalable(configWidth: int, configHeight: int, width: int, height: int) {
    && AUTO <= configWidth <= INT_MAX && AUTO <= configHeight <= INT_MAX
    && (configWidth != AUTO && configHeight == AUTO ==> width > 0 && height >= 0)
    && (configWidth == AUTO && configHeight != AUTO ==> width >= 0 && height > 0)
  }

  function Scaled(configWidth: int, configHeight: int, width: int, height: int): (int, int)
    requires Scalable(configWidth, configHeight, width, height)
  {
    if configWidth == AUTO && configHeight == AUTO then (EvenFloor(width), EvenFloor(height))
    else if configHeight == AUTO then
      (EvenFloor(configWidth), EvenFloor(ToInt32(Rescale(configWidth, height, width))))
    else if configWidth == AUTO then
      (EvenFloor(ToInt32(Rescale(configHeight, width, height))), EvenFloor(configHeight))
    else (EvenFloor(configWidth), EvenFloor(configHeight))
  }

  /** The two integers behind the pointers of rsScaleSize. */
  class Size {
    var width: int
    var height: int

    constructor (width: int, height: int)
      ensures this.width == width && this.height == height
    {
      this.width := width;
      this.height := height;
    }

    method Scale(configWidth: int, configHeight: int)
      requires Scalable(configWidth, configHeight, width, height)
      modifies this
      ensures (width, height) == Scaled(configWidth, configHeight, old(width), old(height))
      ensures width % 2 == 0 && height % 2 == 0
      ensures configWidth != AUTO ==> configWidth - 1 <= width <= configWidth
      ensures configHeight != AUTO ==> configHeight - 1 <= height <= configHeight
      ensures configWidth == configHeight == AUTO ==>
                old(width) - 1 <= width <= old(width) && old(height) - 1 <= height <= old(height)
    {
      var scaleWidth, scaleHeight := width, height;
      if configWidth != AUTO {
        scaleWidth := configWidth;
        if configHeight == AUTO {
          scaleHeight := ToInt32(Rescale(scaleWidth, height, width));
        }
      }
      if configHeight != AUTO {
        scaleHeight := configHeight;
        if configWidth == AUTO {
          scaleWidth := ToInt32(Rescale(scaleHeight, width, height));
        }
      }
      width := EvenFloor(scaleWidth);
      height := EvenFloor(scaleHeight);
    }
  }

  lemma FittingSide(c: int, b: int, a: int)
    requires c >= 0 && b >= 0 && a > 0 && FitsInt32(Rescale(c, b, a))
    ensures -3 * a < 2 * (EvenFloor(ToInt32(Rescale(c, b, a))) * a - c * b) <= a
  {
    var r := Rescale(c, b, a);
    RescaleNearest(c, b, a);
    assert (r - 1) * a == r * a - a;
  }

  lemma OverflowingSide(c: int, b: int, a: int)
    requires c >= 0 && b >= 0 && a > 0 && !FitsInt32(Rescale(c, b, a))
    ensures 2 * (EvenFloor(ToInt32(Rescale(c, b, a))) * a - c * b) <= -3 * a
  {
    var r := Rescale(c, b, a);
    var e := EvenFloor(ToInt32(r));
    RescaleNearest(c, b, a);
    RescaleNotNegative(c, b, a);
    ToInt32Low(r);
    MulLe(e, r - 0x1_0000_0000, a);
    assert (r - 0x1_0000_0000) * a == r * a - 0x1_0000_0000 * a;
  }

  /** With one configured side `c`, a source side `a` it replaces and the other side `b`, the
      result for the other side is off the exact ratio by less than one and a half below and at
      most a half above, exactly when the rescaled side fits an int. */
  lemma FollowingSide(c: int, b: int, a: int)
    requires c >= 0 && b >= 0 && a > 0
    ensures -3 * a < 2 * (EvenFloor(ToInt32(Rescale(c, b, a))) * a - c * b) <= a
            <==> FitsInt32(Rescale(c, b, a))
  {
    if FitsInt32(Rescale(c, b, a)) {
      FittingSide(c, b, a);
    } else {
      OverflowingSide(c, b, a);
    }
  }

  lemma RescaleNotNegative(c: int, b: int, a: int)
    requires c >= 0 && b >= 0 && a > 0
    ensures Rescale(c, b, a) >= 0
  {
    assert c * b >= 0;
  }

  lemma ToInt32Low(x: int)
    requires x > INT_MAX
    ensures ToInt32(x) <= x - 0x1_0000_0000
  {
  }

  /** With only a width, or only a height, configured the picture keeps its shape to the bound
      above, for every source size whose following side fits an int. */
  lemma ScalingKeepsShape(config: int, width: int, height: int)
    requires 0 <= config <= INT_MAX && width > 0 && height > 0
    ensures FitsInt32(Rescale(config, height, width)) <==>
            -3 * width < 2 * (Scaled(config, AUTO, width, height).1 * width - config * height) <= width
    ensures FitsInt32(Rescale(config, width, height)) <==>
            -3 * height < 2 * (Scaled(AUTO, config, width, height).0 * height - config * width) <= height
  {
    FollowingSide(config, height, width);
    FollowingSide(config, width, height);
  }

  // ---------- scaling twice ----------

  /** Rounding `(n + 1) * h / n` to the nearest adds to `h` the nearest integer to `h / n`. */
  lemma RescaleByNext(n: int, h: int)
    requires n >= 2 && n % 2 == 0 && h >= 0
    ensures Rescale(n + 1, h, n) == h + (h + n / 2) / n
  {
    var q, r := (h + n / 2) / n, (h + n / 2) % n;
    assert (n + 1) * h == n * h + h;
    assert n * (h + q) == n * h + n * q;
    QuotientUnique((n + 1) * h + n / 2, n, h + q, r);
  }

  lemma QuotientBelow(x: int, n: int, k: int)
    requires n > 0 && k >= 0
    ensures x / n < k <==> x < n * k
  {
    var q, r := x / n, x % n;
    if q < k {
      MulLe(q + 1, k, n);
    } else {
      MulLe(k, q, n);
    }
  }

  /** The nearest integer to `h / n`: at most one just below one and a half, never above `h / 2 + 1`. */
  lemma NearestShare(h: int, n: int)
    requires h >= 0 && n >= 2 && n % 2 == 0
    ensures (h + n / 2) / n <= 1 <==> 2 * h < 3 * n
    ensures 0 <= (h + n / 2) / n <= h / 2 + 1
  {
    QuotientBelow(h + n / 2, n, 2);
    QuotientBelow(h + n / 2, n, 0);
    QuotientBelow(h + n / 2, n, h / 2 + 2);
    MulLe(2, n, h / 2 + 2);
    MulLe(2, n, h / 2);
    assert n * (h / 2 + 2) == n * (h / 2) + 2 * n;
  }

  /** Adding `k` to an even side is cut off again exactly when it is 0 or 1. */
  lemma AddedIsCut(h: int, k: int)
    requires 0 <= h <= INT_MAX && h % 2 == 0 && 0 <= k <= h / 2 + 1
    ensures EvenFloor(ToInt32(h + k)) == h <==> k <= 1
  {
    if h + k > INT_MAX {
      ToInt32Low(h + k);
    } else {
      assert ToInt32(h + k) == h + k;
    }
  }

  /** With one odd configured side `c` the size `(c - 1, h)` a scaling produced is kept by the next
      one exactly when it is wide enough: `h` less than one and a half times `c - 1`. */
  lemma OddSideKeeps(c: int, h: int)
    requires 3 <= c <= INT_MAX && c % 2 == 1 && 0 <= h <= INT_MAX && h % 2 == 0
    ensures EvenFloor(ToInt32(Rescale(c, h, c - 1))) == h <==> 2 * h < 3 * (c - 1)
  {
    var n := c - 1;
    var k := (h + n / 2) / n;
    assert Rescale(c, h, n) == h + k by { RescaleByNext(n, h); }
    assert (k <= 1 <==> 2 * h < 3 * n) && 0 <= k <= h / 2 + 1 by { NearestShare(h, n); }
    AddedIsCut(h, k);
  }

  /** Whether a size with this derived side can be scaled once more: it must not have come out
      negative, and the configured side, cut to an even number, must not be the zero that the next
      scaling would divide by. */
  predicate Again(c: int, derived: int) {
    derived >= 0 && c >= 2
  }

  /** Whether it then stays: the configured side is even, or the derived one is less than one and a
      half times as long as the configured one less one. */
  predicate Keeps(c: int, derived: int) {
    c % 2 == 0 || 2 * derived < 3 * (c - 1)
  }

  lemma KeepsExactly(c: int, derived: int)
    requires 2 <= c <= INT_MAX && 0 <= derived <= INT_MAX && derived % 2 == 0
    ensures Scaled(c, AUTO, EvenFloor(c), derived) == (EvenFloor(c), derived) <==> Keeps(c, derived)
    ensures Scaled(AUTO, c, derived, EvenFloor(c)) == (derived, EvenFloor(c)) <==> Keeps(c, derived)
  {
    if c % 2 == 0 {
      RescaleExact(c, derived);
    } else {
      OddSideKeeps(c, derived);
    }
  }

  /** Scaling a scaled size, for every configuration and every source size: when it is defined, and
      when it then changes nothing. */
  lemma ScalingTwice(configWidth: int, configHeight: int, width: int, height: int)
    requires Scalable(configWidth, configHeight, width, height)
    ensures var (w, h) := Scaled(configWidth, configHeight, width, height);
            && (Scalable(configWidth, configHeight, w, h) <==>
                  && (configHeight == AUTO && configWidth != AUTO ==> Again(configWidth, h))
                  && (configWidth == AUTO && configHeight != AUTO ==> Again(configHeight, w)))
            && (Scalable(configWidth, configHeight, w, h) ==>
                  (Scaled(configWidth, configHeight, w, h) == (w, h) <==>
                   && (configHeight == AUTO && configWidth != AUTO ==> Keeps(configWidth, h))
                   && (configWidth == AUTO && configHeight != AUTO ==> Keeps(configHeight, w))))
  {
    var (w, h) := Scaled(configWidth, configHeight, width, height);
    if configHeight == AUTO && configWidth != AUTO && Again(configWidth, h) {
      KeepsExactly(configWidth, h);
    } else if configWidth == AUTO && configHeight != AUTO && Again(configHeight, w) {
      KeepsExactly(configHeight, w);
    }
  }

  /** With even positive sides and a following side that fits an int, always. */
  lemma EvenSidesAreStable(configWidth: int, configHeight: int, width: int, height: int)
    requires Scalable(configWidth, configHeight, width, height)
    requires configWidth == AUTO || (configWidth > 0 && configWidth % 2 == 0)
    requires configHeight == AUTO || (configHeight > 0 && configHeight % 2 == 0)
    requires configWidth != AUTO && configHeight == AUTO ==> FitsInt32(Rescale(configWidth, height, width))
    requires configWidth == AUTO && configHeight != AUTO ==> FitsInt32(Rescale(configHeight, width, height))
    ensures var (w, h) := Scaled(configWidth, configHeight, width, height);
            Scalable(configWidth, configHeight, w, h) && Scaled(configWidth, configHeight, w, h) == (w, h)
  {
    ScalingTwice(configWidth, configHeight, width, height);
    if configWidth != AUTO && configHeight == AUTO {
      RescaleNotNegative(configWidth, height, width);
    } else if configWidth == AUTO && configHeight != AUTO {
      RescaleNotNegative(configHeight, width, height);
    }
  }

  /** A drifting size, and a stable one, for the same odd side. */
  lemma OddSideExamples()
    ensures Scaled(3, AUTO, 2, 200) == (2, 300) && Scaled(3, AUTO, 2, 300) == (2, 450)
    ensures Scaled(3, AUTO, 3, 3) == (2, 2) && Scaled(3, AUTO, 2, 2) == (2, 2)
  {
  }
}
