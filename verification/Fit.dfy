/** Fitting a source frame into a box of a transcode rung. Aspect ratios are exact quotients of integers. */
module Fit {
  import opened Arith

  function Min(a: int, b: int): int {
    if a <= b then a else b
  }

  predicate Even(n: int) {
    n % 2 == 0
  }

  function EvenAtMost(value: int): int {
    if value <= 2 then 2 else if value % 2 != 0 then value - 1 else value
  }

  /** Twice the rounding, half up, of half of num / den. */
  function EvenNearest(num: int, den: int): int
    requires num >= 0 && den > 0
  {
    (num + den) / (2 * den) * 2
  }

  /** evenNearestAtMost of the value num / den. */
  function EvenNearestAtMost(num: int, den: int, limit: int): int
    requires num >= 0 && den > 0
  {
    var most := EvenAtMost(limit);
    if most <= 2 then 2
    else
      var n := EvenNearest(num, den);
      if n <= 2 then 2 else if n > most then most else n
  }

  /** The side that is chosen first. */
  function Primary(max: int, source: int): int {
    EvenAtMost(Min(max, source))
  }

  /** The side that follows from the first one by the aspect ratio other / source. */
  function Derived(primary: int, other: int, source: int, otherMax: int): int
    requires primary >= 0 && other >= 0 && source > 0
  {
    EvenNearestAtMost(primary * other, source, Min(otherMax, other))
  }

  /** The source is at least as wide, for its height, as the box. A box without height has an infinite aspect, or
      none at all when it has no width either. */
  predicate WiderThanBox(sw: int, sh: int, mw: int, mh: int) {
    if mh > 0 then sw * mh >= mw * sh
    else if mh < 0 then sw * mh <= mw * sh
    else mw < 0
  }

  /** fitVariantDimensions */
  function FitVariantDimensions(sw: int, sh: int, mw: int, mh: int): (r: (int, int))
    ensures sw <= 0 || sh <= 0 ==> r == (mw, mh)
  {
    if sw <= 0 || sh <= 0 then (mw, mh)
    else
      var limitWidth, limitHeight := Min(mw, sw), Min(mh, sh);
      if WiderThanBox(sw, sh, mw, mh) then
        var width := Primary(mw, sw);
        var height := Derived(width, sh, sw, mh);
        if height > limitHeight then (Derived(Primary(mh, sh), sw, sh, mw), Primary(mh, sh)) else (width, height)
      else
        var height := Primary(mh, sh);
        var width := Derived(height, sw, sh, mw);
        if width > limitWidth then (Primary(mw, sw), Derived(Primary(mw, sw), sh, sw, mh)) else (width, height)
  }

  // ---- Rounding ----

  lemma EvenNearestBounds(num: int, den: int)
    requires num >= 0 && den > 0
    ensures var n := EvenNearest(num, den);
            Even(n) && n >= 0 && num - den < n * den <= num + den
  {
    var q := (num + den) / (2 * den);
    assert 2 * den * q + (num + den) % (2 * den) == num + den;
    assert EvenNearest(num, den) * den == 2 * den * q;
  }

  /** Even numbers less than two steps apart are in order. */
  lemma EvenOrder(a: int, b: int, den: int)
    requires den > 0 && Even(a) && Even(b) && a * den < b * den + 2 * den
    ensures a <= b
  {
    assert b * den + 2 * den == (b + 2) * den;
    FactorLess(a, b + 2, den);
  }

  /** Nothing even lies between a value and its nearest even number. */
  lemma EvenNearestSqueeze(num: int, den: int, e: int)
    requires num >= 0 && den > 0 && Even(e)
    ensures num <= e * den ==> EvenNearest(num, den) <= e
    ensures num >= e * den ==> EvenNearest(num, den) >= e
  {
    EvenNearestBounds(num, den);
    var n := EvenNearest(num, den);
    if num <= e * den {
      EvenOrder(n, e, den);
    }
    if num >= e * den {
      EvenOrder(e, n, den);
    }
  }

  lemma EvenNearestMonotone(num: int, num': int, den: int)
    requires 0 <= num <= num' && den > 0
    ensures EvenNearest(num, den) <= EvenNearest(num', den)
  {
    EvenNearestBounds(num, den);
    EvenNearestBounds(num', den);
    EvenOrder(EvenNearest(num, den), EvenNearest(num', den), den);
  }

  lemma NearestAtMostShape(num: int, den: int, limit: int)
    requires num >= 0 && den > 0
    ensures var n := EvenNearestAtMost(num, den, limit);
            Even(n) && 2 <= n <= EvenAtMost(limit)
  {
    EvenNearestBounds(num, den);
  }

  /** Growing the value and the limit never shrinks the result. */
  lemma NearestAtMostMonotone(num: int, num': int, den: int, limit: int, limit': int)
    requires 0 <= num <= num' && den > 0 && limit <= limit'
    ensures EvenNearestAtMost(num, den, limit) <= EvenNearestAtMost(num', den, limit')
  {
    EvenNearestMonotone(num, num', den);
    NearestAtMostShape(num', den, limit');
  }

  /** An even size that both the value and the limit reach is reached by the result. */
  lemma NearestAtMostReaches(num: int, den: int, size: int, limit: int)
    requires num >= 0 && den > 0 && Even(size) && 2 <= size <= limit && num >= size * den
    ensures EvenNearestAtMost(num, den, limit) >= size
  {
    EvenNearestSqueeze(num, den, size);
  }

  /** The nearest even number of a value below the limit is at most the limit, or the limit is odd and it is one more. */
  lemma NearestWithin(num: int, den: int, limit: int)
    requires num >= 0 && den > 0 && num <= limit * den
    ensures EvenNearest(num, den) <= if Even(limit) then limit else limit + 1
  {
    hide EvenNearest;
    if Even(limit) {
      EvenNearestSqueeze(num, den, limit);
    } else {
      Multiples(limit, limit + 1, den);
      EvenNearestSqueeze(num, den, limit + 1);
    }
  }

  /** A value of at least one that the limit allows is met within one. */
  lemma NearestAtMostClose(num: int, den: int, limit: int)
    requires den > 0 && limit >= 2 && den <= num <= limit * den
    ensures var n := EvenNearestAtMost(num, den, limit);
            num - den <= n * den <= num + den
  {
    hide EvenNearest;
    EvenNearestBounds(num, den);
    NearestWithin(num, den, limit);
    var n := EvenNearest(num, den);
    FactorLess(0, n, den);
    if EvenNearestAtMost(num, den, limit) != n {
      assert EvenNearestAtMost(num, den, limit) == limit - 1 == n - 2;
      assert (limit - 1) * den == limit * den - den;
      assert n * den == (limit - 1) * den + 2 * den;
    }
  }

  // ---- One box ----

  lemma PrimaryShape(max: int, source: int)
    ensures Even(Primary(max, source)) && Primary(max, source) >= 2
    ensures max >= 2 && source >= 2 ==> Primary(max, source) <= Min(max, source)
  {
  }

  lemma DerivedShape(primary: int, other: int, source: int, otherMax: int)
    requires primary >= 0 && other >= 0 && source > 0
    ensures var d := Derived(primary, other, source, otherMax);
            Even(d) && d >= 2 && (otherMax >= 2 && other >= 2 ==> d <= Min(otherMax, other))
  {
    NearestAtMostShape(primary * other, source, Min(otherMax, other));
  }

  /** The derived side is within one pixel of primary * other / source. */
  predicate Close(derived: int, primary: int, other: int, source: int) {
    primary * other - source <= derived * source <= primary * other + source
  }

  lemma DerivedClose(primary: int, other: int, source: int, max: int, otherMax: int)
    requires 0 <= primary <= Min(max, source) && other >= 2 && source > 0 && otherMax >= 2 && max > 0
    requires source * otherMax >= max * other
    requires primary * other >= source
    ensures Close(Derived(primary, other, source, otherMax), primary, other, source)
  {
    Multiples(primary, source, other);
    Multiples(primary, max, other);
    assert primary * other <= Min(otherMax, other) * source;
    NearestAtMostClose(primary * other, source, Min(otherMax, other));
  }

  /** The branches that handle a derived side beyond its limit are never taken. */
  lemma FallbackUnreachable(sw: int, sh: int, mw: int, mh: int)
    requires sw >= 2 && sh >= 2 && mw >= 2 && mh >= 2
    ensures Derived(Primary(mw, sw), sh, sw, mh) <= Min(mh, sh)
    ensures Derived(Primary(mh, sh), sw, sh, mw) <= Min(mw, sw)
    ensures FitVariantDimensions(sw, sh, mw, mh) ==
            if WiderThanBox(sw, sh, mw, mh)
            then (Primary(mw, sw), Derived(Primary(mw, sw), sh, sw, mh))
            else (Derived(Primary(mh, sh), sw, sh, mw), Primary(mh, sh))
  {
    DerivedShape(Primary(mw, sw), sh, sw, mh);
    DerivedShape(Primary(mh, sh), sw, sh, mw);
  }

  /** For sides of at least two pixels the fitted frame is even and stays inside box and source, and the side derived
      from the other one is within one pixel of the exact aspect whenever that is at least one pixel. */
  lemma FitIsTight(sw: int, sh: int, mw: int, mh: int, w: int, h: int)
    requires sw >= 2 && sh >= 2 && mw >= 2 && mh >= 2
    requires FitVariantDimensions(sw, sh, mw, mh) == (w, h)
    ensures Even(w) && Even(h) && 2 <= w <= Min(mw, sw) && 2 <= h <= Min(mh, sh)
    ensures if WiderThanBox(sw, sh, mw, mh) then w >= Min(mw, sw) - 1 else h >= Min(mh, sh) - 1
    ensures if WiderThanBox(sw, sh, mw, mh)
            then w == EvenAtMost(Min(mw, sw)) && (w * sh >= sw ==> Close(h, w, sh, sw))
            else h == EvenAtMost(Min(mh, sh)) && (h * sw >= sh ==> Close(w, h, sw, sh))
  {
    FallbackUnreachable(sw, sh, mw, mh);
    PrimaryShape(mw, sw);
    PrimaryShape(mh, sh);
    DerivedShape(Primary(mw, sw), sh, sw, mh);
    DerivedShape(Primary(mh, sh), sw, sh, mw);
    if WiderThanBox(sw, sh, mw, mh) {
      if w * sh >= sw {
        DerivedClose(w, sh, sw, mw, mh);
      }
    } else if h * sw >= sh {
      DerivedClose(h, sw, sh, mh, mw);
    }
  }

  /** Box and source contain the fitted frame exactly when no side of them is a single pixel. */
  lemma FitStaysInsideIff(sw: int, sh: int, mw: int, mh: int, w: int, h: int)
    requires sw >= 1 && sh >= 1 && mw >= 1 && mh >= 1
    requires FitVariantDimensions(sw, sh, mw, mh) == (w, h)
    ensures (w <= Min(mw, sw) && h <= Min(mh, sh)) <==> sw >= 2 && sh >= 2 && mw >= 2 && mh >= 2
  {
    if sw >= 2 && sh >= 2 && mw >= 2 && mh >= 2 {
      FitIsTight(sw, sh, mw, mh, w, h);
    } else {
      PrimaryShape(mw, sw);
      PrimaryShape(mh, sh);
      DerivedShape(Primary(mw, sw), sh, sw, mh);
      DerivedShape(Primary(mh, sh), sw, sh, mw);
    }
  }

  // ---- Nested boxes ----

  predicate Box(mw: int, mh: int) {
    Even(mw) && Even(mh) && mw >= 2 && mh >= 2
  }

  /** The rung is offered for this source. */
  predicate Offered(sw: int, sh: int, mw: int, mh: int) {
    Min(mw, mh) <= Min(sw, sh)
  }

  /** An offered box does not reach beyond the source on its primary side. */
  lemma PrimaryIsFilled(max: int, otherMax: int, source: int, other: int)
    requires source >= 2 && other >= 2 && max >= 2 && otherMax >= 2
    requires Min(max, otherMax) <= Min(source, other)
    requires source * otherMax >= max * other
    ensures max <= source
  {
    if otherMax <= other {
      Multiples(otherMax, other, source);
      FactorAtMost(max, source, other);
    }
  }

  /** An offered even box is filled exactly on one side. */
  lemma OneSideIsExact(sw: int, sh: int, mw: int, mh: int, w: int, h: int)
    requires sw >= 2 && sh >= 2 && Box(mw, mh) && Offered(sw, sh, mw, mh)
    requires FitVariantDimensions(sw, sh, mw, mh) == (w, h)
    ensures if WiderThanBox(sw, sh, mw, mh) then w == mw <= sw else h == mh <= sh
  {
    hide Derived, FitVariantDimensions;
    FallbackUnreachable(sw, sh, mw, mh);
    if WiderThanBox(sw, sh, mw, mh) {
      PrimaryIsFilled(mw, mh, sw, sh);
    } else {
      PrimaryIsFilled(mh, mw, sh, sw);
    }
  }

  /** The derived sides of two boxes that fill the same side. */
  lemma DerivedMonotone(primary: int, primary': int, other: int, source: int, otherMax: int, otherMax': int)
    requires 0 <= primary <= primary' && other >= 0 && source > 0 && otherMax <= otherMax'
    ensures Derived(primary, other, source, otherMax) <= Derived(primary', other, source, otherMax')
  {
    Multiples(primary, primary', other);
    NearestAtMostMonotone(primary * other, primary' * other, source, Min(otherMax, other), Min(otherMax', other));
  }

  /** The derived side of the outer box reaches the side that the inner box fills. */
  lemma DerivedReaches(primary: int, primary': int, filled: int, other: int, source: int, otherMax': int)
    requires 0 <= primary <= primary' && Even(filled) && 2 <= filled <= Min(otherMax', other) && source > 0
    requires primary * other >= filled * source
    ensures Derived(primary', other, source, otherMax') >= filled
  {
    Multiples(primary, primary', other);
    NearestAtMostReaches(primary' * other, source, filled, Min(otherMax', other));
  }

  /** The side that an offered box fills, and the other side. */
  lemma OfferedShape(sw: int, sh: int, mw: int, mh: int)
    requires sw >= 2 && sh >= 2 && Box(mw, mh) && Offered(sw, sh, mw, mh)
    ensures WiderThanBox(sw, sh, mw, mh) ==>
              FitVariantDimensions(sw, sh, mw, mh) == (mw, Derived(mw, sh, sw, mh)) && mw <= sw && Derived(mw, sh, sw, mh) <= mh
    ensures !WiderThanBox(sw, sh, mw, mh) ==>
              FitVariantDimensions(sw, sh, mw, mh) == (Derived(mh, sw, sh, mw), mh) && mh <= sh && Derived(mh, sw, sh, mw) <= mw
  {
    hide Derived, FitVariantDimensions, WiderThanBox;
    var (w, h) := FitVariantDimensions(sw, sh, mw, mh);
    FallbackUnreachable(sw, sh, mw, mh);
    OneSideIsExact(sw, sh, mw, mh, w, h);
    DerivedShape(mw, sh, sw, mh);
    DerivedShape(mh, sw, sh, mw);
  }

  /** Both boxes fill their primary side. */
  lemma SameSideFilled(source: int, other: int, max: int, otherMax: int, max': int, otherMax': int)
    requires source >= 2 && other >= 2 && 0 <= max <= max' && otherMax <= otherMax'
    ensures Derived(max, other, source, otherMax) <= Derived(max', other, source, otherMax')
  {
    hide Derived;
    DerivedMonotone(max, max', other, source, otherMax, otherMax');
  }

  /** The inner box fills the one side and the outer box the other. */
  lemma OtherSideFilled(source: int, other: int, max: int, otherMax: int, max': int, otherMax': int)
    requires source >= 2 && other >= 2 && Box(max, otherMax) && max <= max' && otherMax <= otherMax'
    requires max <= source && otherMax * source >= max * other
    ensures max <= Derived(otherMax', source, other, max')
  {
    hide Derived;
    DerivedReaches(otherMax, otherMax', max, source, other, max');
  }

  lemma WiderMeans(sw: int, sh: int, mw: int, mh: int)
    requires mh > 0
    ensures WiderThanBox(sw, sh, mw, mh) ==> mh * sw >= mw * sh
    ensures !WiderThanBox(sw, sh, mw, mh) ==> mw * sh >= mh * sw
  {
  }

  /** A smaller box never gets a wider or a higher frame than a box around it, whichever side each of them fills. */
  lemma FitIsMonotone(sw: int, sh: int, mw: int, mh: int, w: int, h: int, mw': int, mh': int, w': int, h': int)
    requires sw >= 2 && sh >= 2 && Box(mw, mh) && Box(mw', mh') && mw <= mw' && mh <= mh'
    requires Offered(sw, sh, mw, mh) && Offered(sw, sh, mw', mh')
    requires FitVariantDimensions(sw, sh, mw, mh) == (w, h) && FitVariantDimensions(sw, sh, mw', mh') == (w', h')
    ensures w <= w' && h <= h'
  {
    hide FitVariantDimensions, Derived, WiderThanBox, Offered;
    OfferedShape(sw, sh, mw, mh);
    OfferedShape(sw, sh, mw', mh');
    WiderMeans(sw, sh, mw, mh);
    if WiderThanBox(sw, sh, mw, mh) {
      if WiderThanBox(sw, sh, mw', mh') {
        SameSideFilled(sw, sh, mw, mh, mw', mh');
      } else {
        OtherSideFilled(sw, sh, mw, mh, mw', mh');
      }
    } else {
      if WiderThanBox(sw, sh, mw', mh') {
        OtherSideFilled(sh, sw, mh, mw, mh', mw');
      } else {
        SameSideFilled(sh, sw, mh, mw, mh', mw');
      }
    }
  }

  /** A source of a single pixel is scaled up to two by two. */
  lemma OnePixelGrows()
    ensures FitVariantDimensions(1, 1, 426, 240) == (2, 2)
  {
  }
}
