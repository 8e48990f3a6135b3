/**
 Fitting a monitor layout to the server's limits (MS-RDPEDISP section 2.2.2.2.1). The two sides
 that the floating-point ratio step yields are parameters: what is proved holds for any of them.
 */
module Layout {
  import opened Arithmetic
  import opened Prelude

  const MIN_MONITOR_DIMENSION: u32 := 200
  const MAX_MONITOR_DIMENSION: u32 := 8192

  function Clamp(v: u32): u32 {
    if v < MIN_MONITOR_DIMENSION then MIN_MONITOR_DIMENSION
    else if v > MAX_MONITOR_DIMENSION then MAX_MONITOR_DIMENSION
    else v
  }

  function Even(v: u32): u32 {
    v - v % 2
  }

  /** A size the protocol allows. */
  predicate Allowed(w: int, h: int) {
    200 <= w <= 8192 && w % 2 == 0 && 200 <= h <= 8192
  }

  /** Clamping gives the nearest side the protocol allows, and evening the largest even number not above. */
  lemma ClampIsNearest(v: u32, side: int)
    requires 200 <= side <= 8192
    ensures 200 <= Clamp(v) <= 8192 && Distance(Clamp(v), v) <= Max(side - v, v - side)
    ensures Even(v) % 2 == 0 && v - 1 <= Even(v) <= v
  {
  }

  const SMALLEST_AREA: nat := 40_000

  function Area(w: int, h: int): int {
    w * h
  }

  /** Nothing was shaved off needlessly: one step less and the area would not fit. */
  predicate Tight(w: int, h: int, startWidth: int, startHeight: int, maxArea: nat) {
    (w == startWidth && h == startHeight) || Area(w + 2, h) > maxArea || Area(w, h + 1) > maxArea
  }

  /** Only the larger side was shrunk: a side that lost anything ended up no shorter than the other, but for one step. */
  predicate LargerSideShrank(w: int, h: int, startWidth: int, startHeight: int) {
    (w < startWidth ==> w + 2 >= h) && (h < startHeight ==> h + 1 > w)
  }

  lemma SmallestArea(w: int, h: int)
    requires Allowed(w, h)
    ensures SMALLEST_AREA <= Area(w, h)
  {
    MulOrder(MIN_MONITOR_DIMENSION, w, h);
    MulOrder(MIN_MONITOR_DIMENSION, h, MIN_MONITOR_DIMENSION);
  }

  /** Fitting, or else as small as allowed: then it fits exactly when the smallest monitor does. */
  lemma FitsWhenPossible(w: int, h: int, maxArea: nat)
    requires Allowed(w, h)
    requires Area(w, h) <= maxArea || (w == MIN_MONITOR_DIMENSION && h == MIN_MONITOR_DIMENSION)
    ensures Area(w, h) <= maxArea <==> SMALLEST_AREA <= maxArea
  {
    SmallestArea(w, h);
  }

  lemma EvenAllowed(v: u32)
    ensures MIN_MONITOR_DIMENSION <= Even(Clamp(v)) <= MAX_MONITOR_DIMENSION && Even(Clamp(v)) % 2 == 0
  {
  }

  /** One correction step: the larger side shrinks, as far as it may. */
  method Shave(startWidth: u32, startHeight: u32) returns (w: u32, h: u32)
    requires Allowed(startWidth, startHeight)
    requires startWidth > MIN_MONITOR_DIMENSION || startHeight > MIN_MONITOR_DIMENSION
    ensures Allowed(w, h)
    ensures if (startWidth >= startHeight && startWidth > MIN_MONITOR_DIMENSION) || startHeight == MIN_MONITOR_DIMENSION
            then w + 2 == startWidth && h == startHeight else w == startWidth && h + 1 == startHeight
  {
    w, h := startWidth, startHeight;
    if (w >= h && w > MIN_MONITOR_DIMENSION) || h <= MIN_MONITOR_DIMENSION {
      w := w - 2;
    } else {
      h := h - 1;
    }
  }

  /** The correction loop: shrink the larger side until the area fits. */
  method ShrinkToArea(startWidth: u32, startHeight: u32, maxArea: nat) returns (w: u32, h: u32)
    requires Allowed(startWidth, startHeight)
    ensures Allowed(w, h) && w <= startWidth && h <= startHeight
    ensures Tight(w, h, startWidth, startHeight, maxArea) && LargerSideShrank(w, h, startWidth, startHeight)
    ensures Area(w, h) <= maxArea || (w == MIN_MONITOR_DIMENSION && h == MIN_MONITOR_DIMENSION)
  {
    w, h := startWidth, startHeight;
    while Area(w, h) > maxArea && (w > MIN_MONITOR_DIMENSION || h > MIN_MONITOR_DIMENSION)
      invariant Allowed(w, h) && w <= startWidth && h <= startHeight
      invariant Tight(w, h, startWidth, startHeight, maxArea) && LargerSideShrank(w, h, startWidth, startHeight)
      decreases w + h
    {
      w, h := Shave(w, h);
    }
  }

  /**
   Any ratio step: the result is an allowed size, unchanged when the clamped size fits already, and
   within the server's area whenever the smallest monitor is (else it is that monitor). The
   correction never grows a side of the scaled size, shrinks the larger side, and stops as soon as the
   area fits.
   */
  method FitToCaps(width: u32, height: u32, maxArea: nat, scaledWidth: u32, scaledHeight: u32)
    returns (w: u32, h: u32)
    ensures Allowed(w, h)
    ensures Area(Even(Clamp(width)), Clamp(height)) <= maxArea ==> w == Even(Clamp(width)) && h == Clamp(height)
    ensures Area(w, h) <= maxArea <==> SMALLEST_AREA <= maxArea
    ensures maxArea < SMALLEST_AREA ==>
              w == MIN_MONITOR_DIMENSION && h == MIN_MONITOR_DIMENSION
    ensures Area(Even(Clamp(width)), Clamp(height)) > maxArea ==>
              && w <= Even(Clamp(scaledWidth)) && h <= Clamp(scaledHeight)
              && Tight(w, h, Even(Clamp(scaledWidth)), Clamp(scaledHeight), maxArea)
              && LargerSideShrank(w, h, Even(Clamp(scaledWidth)), Clamp(scaledHeight))
  {
    EvenAllowed(width);
    EvenAllowed(scaledWidth);
    w, h := Even(Clamp(width)), Clamp(height);
    if Area(w, h) <= maxArea {
      FitsWhenPossible(w, h, maxArea);
      return;
    }
    w := Even(Clamp(scaledWidth));
    h := Clamp(scaledHeight);
    w, h := ShrinkToArea(w, h, maxArea);
    FitsWhenPossible(w, h, maxArea);
  }

  const DEVICE_SCALE_FACTORS: seq<u32> := [100, 140, 180]

  function Distance(a: u32, b: u32): nat {
    Max(a - b, b - a)
  }

  /** The nearest valid factor, the lower of two equally near ones. */
  method DeviceScaleFor(desktopScale: u32) returns (best: u32)
    ensures best in DEVICE_SCALE_FACTORS && best in {100, 140, 180}
    ensures forall f <- DEVICE_SCALE_FACTORS :: Distance(best, desktopScale) <= Distance(f, desktopScale)
    ensures forall f <- DEVICE_SCALE_FACTORS :: Distance(f, desktopScale) == Distance(best, desktopScale) ==> best <= f
  {
    best := DEVICE_SCALE_FACTORS[0];
    for i := 0 to |DEVICE_SCALE_FACTORS|
      invariant best in DEVICE_SCALE_FACTORS
      invariant i > 0 ==> exists j :: 0 <= j < i && DEVICE_SCALE_FACTORS[j] == best
      invariant i == 0 ==> best == DEVICE_SCALE_FACTORS[0]
      invariant forall j :: 0 <= j < i ==>
                  Distance(best, desktopScale) <= Distance(DEVICE_SCALE_FACTORS[j], desktopScale)
      invariant forall j :: 0 <= j < i ==>
                  Distance(DEVICE_SCALE_FACTORS[j], desktopScale) == Distance(best, desktopScale) ==>
                  best <= DEVICE_SCALE_FACTORS[j]
    {
      var candidate := DEVICE_SCALE_FACTORS[i];
      if Distance(candidate, desktopScale) < Distance(best, desktopScale) {
        best := candidate;
      }
    }
  }
}
