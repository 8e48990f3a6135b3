/**
 Gallery thumbnails: the size a frame is scaled to, and the box filter that averages the frame's
 BGRA pixels down to it. The size is stated over real numbers; the filter works for any size that
 keeps at least one pixel each way and does not scale up.
 */
module Thumbnail {
  import opened Arithmetic
  import opened Geometry
  import opened Prelude

  // ----- the size ---------------------------------------------------------------------------

  const EMPTY: Size := Size(0, 0)

  function RealMin(a: real, b: real): real {
    if a <= b then a else b
  }

  /** The scale from `size` to `limit`, at most 1. */
  function Scale(size: Size, limit: Size): real
    requires size.width > 0 && size.height > 0
  {
    RealMin(RealMin(limit.width as real / size.width as real, limit.height as real / size.height as real), 1.0)
  }

  /** Nearest integer of a non-negative number, halves up. */
  function Round(r: real): int {
    (r + 0.5).Floor
  }

  function Clamp(v: int, low: int, high: int): int {
    if v < low then low else if v > high then high else v
  }

  function Scaled(v: u32, scale: real, limit: u32): u32 {
    Clamp(Round(v as real * scale), 1, Max(limit, 1))
  }

  function Fit(size: Size, limit: Size): Size {
    if size.width == 0 || size.height == 0 then
      EMPTY
    else
      var scale := Scale(size, limit);
      Size(Scaled(size.width, scale, limit.width), Scaled(size.height, scale, limit.height))
  }

  lemma QuotientBack(a: real, b: real)
    requires b > 0.0
    ensures b * (a / b) == a
  {
  }

  lemma ProductOrder(b: real, s: real, t: real)
    requires b >= 0.0 && s <= t
    ensures b * s <= b * t
  {
  }

  lemma RoundBelow(x: real, v: int)
    requires x <= v as real
    ensures Round(x) <= v
    ensures x == v as real ==> Round(x) == v
  {
  }

  lemma AtMostBoth(x: real, whole: real, part: real, v: int, limit: int)
    requires x <= whole && x <= part && whole == v as real && part == limit as real
    ensures x <= v as real && x <= limit as real
  {
  }

  /** One axis: never above its limit or its input, and the limit itself when this axis decides. */
  lemma AxisFits(v: u32, limit: u32, scale: real)
    requires v > 0 && 0.0 <= scale <= 1.0 && scale <= limit as real / v as real
    ensures v as real * scale <= v as real && v as real * scale <= limit as real
    ensures 1 <= Scaled(v, scale, limit) <= v && Scaled(v, scale, limit) <= Max(limit, 1)
    ensures scale == 1.0 ==> Scaled(v, scale, limit) == v
    ensures limit > 0 && scale == limit as real / v as real ==> Scaled(v, scale, limit) == limit
  {
    var x := v as real * scale;
    QuotientBack(limit as real, v as real);
    ProductOrder(v as real, scale, limit as real / v as real);
    ProductOrder(v as real, scale, 1.0);
    ProductOrder(v as real, 0.0, scale);
    AtMostBoth(x, v as real * 1.0, v as real * (limit as real / v as real), v, limit);
    RoundBelow(x, v);
    RoundBelow(x, limit);
  }

  lemma QuotientSign(a: nat, b: nat)
    requires b > 0
    ensures a as real / b as real >= 0.0
    ensures a >= b ==> a as real / b as real >= 1.0
  {
  }

  /**
   A non-empty frame keeps at least one pixel each way, is never scaled up, fits the limit, is left
   alone when it fits already, and otherwise touches the limit on one axis.
   */
  lemma FitMeaning(size: Size, limit: Size)
    requires size.width > 0 && size.height > 0
    ensures var out := Fit(size, limit);
      && 1 <= out.width <= size.width && 1 <= out.height <= size.height
      && out.width <= Max(limit.width, 1) && out.height <= Max(limit.height, 1)
      && (size.width <= limit.width && size.height <= limit.height ==> out == size)
      && (limit.width > 0 && limit.height > 0 && out != size ==>
            out.width == limit.width || out.height == limit.height)
  {
    var scale := Scale(size, limit);
    QuotientSign(limit.width, size.width);
    QuotientSign(limit.height, size.height);
    AxisFits(size.width, limit.width, scale);
    AxisFits(size.height, limit.height, scale);
  }

  lemma RoundIsNear(x: real)
    ensures x - 0.5 <= Round(x) as real <= x + 0.5
  {
  }

  lemma SwapFactors(a: real, b: real, c: real)
    ensures a * (b * c) == b * (a * c)
  {
  }

  lemma SameProduct(a: real, b: real, c: real)
    requires b == c
    ensures a * b == a * c
  {
  }

  lemma CastProduct(a: int, b: int)
    ensures (a * b) as real == a as real * b as real
  {
  }

  lemma CastHalf(p: int, q: int, n: int)
    requires q as real - n as real / 2.0 <= p as real <= q as real + n as real / 2.0
    ensures 2 * q - n <= 2 * p <= 2 * q + n
  {
  }

  /** `r` is a whole number nearest to `v * limit / of`. */
  ghost predicate Nearest(r: int, v: nat, limit: nat, of: nat) {
    2 * (v * limit) - of <= 2 * (of * r) <= 2 * (v * limit) + of
  }

  lemma NotFarBelow(of: real, x: real, low: real, r: real, p: real, q: real)
    requires of > 0.0 && low == x - 0.5 && low <= r && p == of * r && q == of * x
    ensures q - of / 2.0 <= p
  {
    ProductOrder(of, low, r);
    assert of * low == q - of / 2.0;
  }

  lemma NotFarAbove(of: real, x: real, r: real, high: real, p: real, q: real)
    requires of > 0.0 && high == x + 0.5 && r <= high && p == of * r && q == of * x
    ensures p <= q + of / 2.0
  {
    ProductOrder(of, r, high);
    assert of * high == q + of / 2.0;
  }

  lemma NearRatio(v: nat, limit: nat, of: nat, scale: real, r: int)
    requires of > 0 && scale == limit as real / of as real
    requires v as real * scale - 0.5 <= r as real <= v as real * scale + 0.5
    ensures Nearest(r, v, limit, of)
  {
    var x := v as real * scale;
    QuotientBack(limit as real, of as real);
    SwapFactors(of as real, v as real, scale);
    SameProduct(v as real, of as real * scale, limit as real);
    CastProduct(of, r);
    CastProduct(v, limit);
    NotFarBelow(of as real, x, x - 0.5, r as real, (of * r) as real, (v * limit) as real);
    NotFarAbove(of as real, x, r as real, x + 0.5, (of * r) as real, (v * limit) as real);
    CastHalf(of * r, v * limit, of);
  }

  /** One axis when the other one decides the scale. */
  lemma AxisKeepsShape(v: u32, limit: u32, scale: real, otherLimit: u32, other: u32)
    requires v > 0 && other > 0 && 0.0 <= scale && scale <= limit as real / v as real
    requires scale == otherLimit as real / other as real
    ensures Scaled(v, scale, limit) > 1 ==> Nearest(Scaled(v, scale, limit), v, otherLimit, other)
  {
    AxisRounds(v, limit, scale);
    if Scaled(v, scale, limit) > 1 {
      NearRatio(v, otherLimit, other, scale, Scaled(v, scale, limit));
    }
  }

  /**
   The frame keeps its shape: when the width decides, the height is a whole number nearest to what the
   ratio asks for, but for the one pixel a height keeps in any case; and the other way round.
   */
  lemma FitKeepsShape(size: Size, limit: Size)
    requires size.width > 0 && size.height > 0
    ensures var out, scale := Fit(size, limit), Scale(size, limit);
      && (scale == limit.width as real / size.width as real && out.height > 1 ==>
            Nearest(out.height, size.height, limit.width, size.width))
      && (scale == limit.height as real / size.height as real && out.width > 1 ==>
            Nearest(out.width, size.width, limit.height, size.height))
  {
    var scale := Scale(size, limit);
    QuotientSign(limit.width, size.width);
    QuotientSign(limit.height, size.height);
    if scale == limit.width as real / size.width as real {
      AxisKeepsShape(size.height, limit.height, scale, limit.width, size.width);
    }
    if scale == limit.height as real / size.height as real {
      AxisKeepsShape(size.width, limit.width, scale, limit.height, size.height);
    }
  }

  lemma AxisRounds(v: u32, limit: u32, scale: real)
    requires v > 0 && 0.0 <= scale && scale <= limit as real / v as real
    ensures Scaled(v, scale, limit) > 1 ==>
      v as real * scale - 0.5 <= Scaled(v, scale, limit) as real <= v as real * scale + 0.5
  {
    var x := v as real * scale;
    QuotientBack(limit as real, v as real);
    ProductOrder(v as real, scale, limit as real / v as real);
    RoundBelow(x, limit);
    RoundIsNear(x);
  }

  // ----- boxes ------------------------------------------------------------------------------

  /** The first of `n` source lines belonging to line `o` of `m`. */
  function BoxStart(n: nat, m: nat, o: nat): nat
    requires m > 0
  {
    o * n / m
  }

  function BoxEnd(n: nat, m: nat, o: nat): nat
    requires m > 0
  {
    Max((o + 1) * n / m, o * n / m + 1)
  }

  /** With no more boxes than lines, each box ends where the next begins and none is empty. */
  lemma BoxesAdjoin(n: nat, m: nat, o: nat)
    requires 0 < m <= n
    ensures BoxEnd(n, m, o) == BoxStart(n, m, o + 1) > BoxStart(n, m, o)
    ensures o < m ==> BoxEnd(n, m, o) <= n
    ensures BoxStart(n, m, 0) == 0 && BoxStart(n, m, m) == n
  {
    var q := o * n / m;
    assert o * n == q * m + o * n % m;
    assert (q + 1) * m == q * m + m;
    DivMod(o * n + m, m, q + 1, o * n % m);
    assert (o + 1) * n == o * n + n;
    DivOrder(o * n + m, o * n + n, m);
    assert n * m == m * n;
    DivMod(m * n, m, n, 0);
    if o < m {
      BoxesInOrder(n, m, o + 1, m);
    }
  }

  /** The lines are shared out evenly: no two boxes differ by more than one line. */
  lemma BoxesAreEven(n: nat, m: nat, o: nat)
    requires 0 < m <= n
    ensures n / m <= BoxEnd(n, m, o) - BoxStart(n, m, o) <= n / m + 1
  {
    BoxesAdjoin(n, m, o);
    assert (o + 1) * n == o * n + n;
    QuotientOfSum(o * n, n, m);
  }

  /** `a` and `b` as quotients and remainders. */
  lemma SumOfQuotients(m: nat, qa: nat, ra: nat, qb: nat, rb: nat)
    requires ra < m && rb < m
    ensures qa + qb <= (qa * m + ra + (qb * m + rb)) / m <= qa + qb + 1
  {
    var p := qa * m + ra + (qb * m + rb);
    assert (qa + qb) * m == qa * m + qb * m && (qa + qb + 1) * m == (qa + qb) * m + m;
    if ra + rb < m {
      DivMod(p, m, qa + qb, ra + rb);
    } else {
      DivMod(p, m, qa + qb + 1, ra + rb - m);
    }
  }

  lemma QuotientOfSum(a: nat, b: nat, m: nat)
    requires m > 0
    ensures a / m + b / m <= (a + b) / m <= a / m + b / m + 1
  {
    assert a == a / m * m + a % m && b == b / m * m + b % m;
    SumOfQuotients(m, a / m, a % m, b / m, b % m);
  }

  lemma BoxesInOrder(n: nat, m: nat, o: nat, p: nat)
    requires m > 0 && o <= p
    ensures BoxStart(n, m, o) <= BoxStart(n, m, p)
  {
    assert p * n == o * n + (p - o) * n;
    MulNonNegative(p - o, n);
    DivOrder(o * n, p * n, m);
  }

  /** Every source line is in exactly one box. */
  lemma {:induction false} OneBoxEach(n: nat, m: nat, x: nat) returns (o: nat)
    requires 0 < m <= n && x < n
    ensures o < m && BoxStart(n, m, o) <= x < BoxEnd(n, m, o)
    ensures forall p: nat :: p < m && BoxStart(n, m, p) <= x < BoxEnd(n, m, p) ==> p == o
  {
    o := 0;
    BoxesAdjoin(n, m, 0);
    while BoxEnd(n, m, o) <= x
      invariant o < m && BoxStart(n, m, o) <= x
      decreases m - o
    {
      BoxesAdjoin(n, m, o);
      o := o + 1;
      if o == m {
        assert false;
      }
    }
    forall p: nat | p < m && BoxStart(n, m, p) <= x < BoxEnd(n, m, p) ensures p == o {
      BoxesAdjoin(n, m, p);
      BoxesAdjoin(n, m, o);
      if p < o {
        BoxesInOrder(n, m, p + 1, o);
      } else if o < p {
        BoxesInOrder(n, m, o + 1, p);
      }
    }
  }

  // ----- sums -------------------------------------------------------------------------------

  function RowSum(px: (nat, nat) -> nat, y: nat, a: nat, b: nat): nat
    requires a <= b
    decreases b
  {
    if a == b then 0 else RowSum(px, y, a, b - 1) + px(y, b - 1)
  }

  /** The sum over rows [top, bottom) and columns [left, right). */
  function BoxSum(px: (nat, nat) -> nat, top: nat, bottom: nat, left: nat, right: nat): nat
    requires top <= bottom && left <= right
    decreases bottom
  {
    if top == bottom then 0 else BoxSum(px, top, bottom - 1, left, right) + RowSum(px, bottom - 1, left, right)
  }

  lemma {:induction false} RowSplits(px: (nat, nat) -> nat, y: nat, a: nat, b: nat, c: nat)
    requires a <= b <= c
    ensures RowSum(px, y, a, c) == RowSum(px, y, a, b) + RowSum(px, y, b, c)
    decreases c
  {
    if b == c {
    } else {
      RowSplits(px, y, a, b, c - 1);
    }
  }

  lemma {:induction false} ColumnsSplit(px: (nat, nat) -> nat, top: nat, bottom: nat, a: nat, b: nat, c: nat)
    requires top <= bottom && a <= b <= c
    ensures BoxSum(px, top, bottom, a, c) == BoxSum(px, top, bottom, a, b) + BoxSum(px, top, bottom, b, c)
    decreases bottom
  {
    if top == bottom {
    } else {
      ColumnsSplit(px, top, bottom - 1, a, b, c);
      RowSplits(px, bottom - 1, a, b, c);
    }
  }

  lemma {:induction false} RowsSplit(px: (nat, nat) -> nat, a: nat, b: nat, c: nat, left: nat, right: nat)
    requires a <= b <= c && left <= right
    ensures BoxSum(px, a, c, left, right) == BoxSum(px, a, b, left, right) + BoxSum(px, b, c, left, right)
    decreases c
  {
    if b == c {
    } else {
      RowsSplit(px, a, b, c - 1, left, right);
    }
  }

  /** What the boxes of one output row sum to, and the rows of all of them. */
  ghost function BandSum(px: (nat, nat) -> nat, size: Size, out: Size, oy: nat, ox: nat): nat
    requires out.width > 0 && out.height > 0
  {
    if ox == 0 then 0
    else
      BandSum(px, size, out, oy, ox - 1) +
      BoxSum(px, BoxStart(size.height, out.height, oy), BoxEnd(size.height, out.height, oy),
             BoxStart(size.width, out.width, ox - 1), BoxEnd(size.width, out.width, ox - 1))
  }

  ghost function GridSum(px: (nat, nat) -> nat, size: Size, out: Size, oy: nat): nat
    requires out.width > 0 && out.height > 0
  {
    if oy == 0 then 0 else GridSum(px, size, out, oy - 1) + BandSum(px, size, out, oy - 1, out.width)
  }

  ghost predicate Shrinks(size: Size, out: Size) {
    0 < out.width <= size.width && 0 < out.height <= size.height
  }

  lemma {:induction false} BandIsWhole(px: (nat, nat) -> nat, size: Size, out: Size, oy: nat, ox: nat)
    requires Shrinks(size, out)
    ensures BandSum(px, size, out, oy, ox)
         == BoxSum(px, BoxStart(size.height, out.height, oy), BoxEnd(size.height, out.height, oy),
                   0, BoxStart(size.width, out.width, ox))
  {
    var top, bottom := BoxStart(size.height, out.height, oy), BoxEnd(size.height, out.height, oy);
    if ox == 0 {
      BoxesAdjoin(size.width, out.width, 0);
      NoColumns(px, top, bottom, 0);
    } else {
      BandIsWhole(px, size, out, oy, ox - 1);
      BoxesAdjoin(size.width, out.width, ox - 1);
      ColumnsSplit(px, top, bottom, 0, BoxStart(size.width, out.width, ox - 1), BoxStart(size.width, out.width, ox));
    }
  }

  lemma {:induction false} NoColumns(px: (nat, nat) -> nat, top: nat, bottom: nat, x: nat)
    requires top <= bottom
    ensures BoxSum(px, top, bottom, x, x) == 0
    decreases bottom
  {
    if top == bottom {
    } else {
      NoColumns(px, top, bottom - 1, x);
    }
  }

  lemma {:induction false} GridIsWhole(px: (nat, nat) -> nat, size: Size, out: Size, oy: nat)
    requires Shrinks(size, out) && oy <= out.height
    ensures GridSum(px, size, out, oy) == BoxSum(px, 0, BoxStart(size.height, out.height, oy), 0, size.width)
  {
    if oy == 0 {
      BoxesAdjoin(size.height, out.height, 0);
    } else {
      GridIsWhole(px, size, out, oy - 1);
      BandIsWhole(px, size, out, oy - 1, out.width);
      BoxesAdjoin(size.width, out.width, out.width);
      BoxesAdjoin(size.height, out.height, oy - 1);
      RowsSplit(px, 0, BoxStart(size.height, out.height, oy - 1), BoxStart(size.height, out.height, oy), 0, size.width);
    }
  }

  /** The boxes of a thumbnail add up to the whole frame: no pixel is left out or counted twice. */
  lemma BoxesConserve(px: (nat, nat) -> nat, size: Size, out: Size)
    requires Shrinks(size, out)
    ensures GridSum(px, size, out, out.height) == BoxSum(px, 0, size.height, 0, size.width)
  {
    GridIsWhole(px, size, out, out.height);
    BoxesAdjoin(size.height, out.height, out.height);
  }

  // ----- means ------------------------------------------------------------------------------

  function Mean(sum: nat, n: nat): nat
    requires n > 0
  {
    (sum + n / 2) / n
  }

  /** The integer nearest to the average. */
  lemma MeanIsNearest(sum: nat, n: nat)
    requires n > 0
    ensures 2 * Mean(sum, n) * n <= 2 * sum + n && 2 * sum <= 2 * Mean(sum, n) * n + n
  {
    var t := sum + n / 2;
    assert t == Mean(sum, n) * n + t % n;
  }

  lemma {:induction false} SumWithin(px: (nat, nat) -> nat, y: nat, a: nat, b: nat, low: nat, high: nat)
    requires a <= b && forall x: nat :: a <= x < b ==> low <= px(y, x) <= high
    ensures low * (b - a) <= RowSum(px, y, a, b) <= high * (b - a)
    decreases b
  {
    if a == b {
    } else {
      SumWithin(px, y, a, b - 1, low, high);
      assert low * (b - a) == low * (b - 1 - a) + low;
      assert high * (b - a) == high * (b - 1 - a) + high;
    }
  }

  lemma {:induction false} BoxWithin(px: (nat, nat) -> nat, top: nat, bottom: nat, left: nat, right: nat,
                                     low: nat, high: nat)
    requires top <= bottom && left <= right
    requires forall y: nat, x: nat :: top <= y < bottom && left <= x < right ==> low <= px(y, x) <= high
    ensures low * ((bottom - top) * (right - left)) <= BoxSum(px, top, bottom, left, right)
         <= high * ((bottom - top) * (right - left))
    decreases bottom
  {
    if top == bottom {
      assert (bottom - top) * (right - left) == 0;
    } else {
      BoxWithin(px, top, bottom - 1, left, right, low, high);
      SumWithin(px, bottom - 1, left, right, low, high);
      OneMoreRow(bottom - top - 1, right - left, low);
      OneMoreRow(bottom - top - 1, right - left, high);
    }
  }

  lemma OneMoreRow(rows: nat, columns: nat, v: nat)
    ensures v * ((rows + 1) * columns) == v * (rows * columns) + v * columns
  {
    assert (rows + 1) * columns == rows * columns + columns;
  }

  /** A mean lies between the smallest and the largest byte of its box: a byte, and flat areas stay flat. */
  lemma MeanWithin(sum: nat, n: nat, low: nat, high: nat)
    requires n > 0 && low * n <= sum <= high * n
    ensures low <= Mean(sum, n) <= high
  {
    var t := sum + n / 2;
    DivMod(low * n, n, low, 0);
    DivOrder(low * n, t, n);
    DivMod(high * n + n / 2, n, high, n / 2);
    DivOrder(t, high * n + n / 2, n);
  }

  // ----- the filter -------------------------------------------------------------------------

  /** Channel `c` (0 blue, 1 green, 2 red) of a BGRA frame `w` pixels wide. */
  function Channel(bgra: seq<u8>, w: nat, c: nat): (nat, nat) -> nat {
    (y: nat, x: nat) => if (y * w + x) * 4 + c < |bgra| then bgra[(y * w + x) * 4 + c] as int else 0
  }

  function BoxPixels(size: Size, out: Size, oy: nat, ox: nat): nat
    requires out.width > 0 && out.height > 0
  {
    (BoxEnd(size.height, out.height, oy) - BoxStart(size.height, out.height, oy)) *
    (BoxEnd(size.width, out.width, ox) - BoxStart(size.width, out.width, ox))
  }

  lemma BoxHasPixels(size: Size, out: Size, oy: nat, ox: nat)
    requires out.width > 0 && out.height > 0
    ensures BoxPixels(size, out, oy, ox) > 0
  {
    var a := BoxEnd(size.height, out.height, oy) - BoxStart(size.height, out.height, oy);
    var b := BoxEnd(size.width, out.width, ox) - BoxStart(size.width, out.width, ox);
    MulOrder(1, a, b);
  }

  /** The rounded mean of channel `c` over the box of output pixel (ox, oy). */
  ghost function Average(bgra: seq<u8>, size: Size, out: Size, oy: nat, ox: nat, c: nat): nat
    requires out.width > 0 && out.height > 0
  {
    BoxHasPixels(size, out, oy, ox);
    Mean(BoxSum(Channel(bgra, size.width, c),
                BoxStart(size.height, out.height, oy), BoxEnd(size.height, out.height, oy),
                BoxStart(size.width, out.width, ox), BoxEnd(size.width, out.width, ox)),
         BoxPixels(size, out, oy, ox))
  }

  lemma AverageIsByte(bgra: seq<u8>, size: Size, out: Size, oy: nat, ox: nat, c: nat)
    requires out.width > 0 && out.height > 0
    ensures Average(bgra, size, out, oy, ox, c) <= 255
  {
    BoxHasPixels(size, out, oy, ox);
    BoxWithin(Channel(bgra, size.width, c),
              BoxStart(size.height, out.height, oy), BoxEnd(size.height, out.height, oy),
              BoxStart(size.width, out.width, ox), BoxEnd(size.width, out.width, ox), 0, 255);
    MeanWithin(BoxSum(Channel(bgra, size.width, c),
                      BoxStart(size.height, out.height, oy), BoxEnd(size.height, out.height, oy),
                      BoxStart(size.width, out.width, ox), BoxEnd(size.width, out.width, ox)),
               BoxPixels(size, out, oy, ox), 0, 255);
  }

  /** A box whose bytes all agree yields that byte. */
  lemma FlatStaysFlat(bgra: seq<u8>, size: Size, out: Size, oy: nat, ox: nat, c: nat, v: nat)
    requires out.width > 0 && out.height > 0
    requires forall y: nat, x: nat ::
               && BoxStart(size.height, out.height, oy) <= y < BoxEnd(size.height, out.height, oy)
               && BoxStart(size.width, out.width, ox) <= x < BoxEnd(size.width, out.width, ox)
               ==> Channel(bgra, size.width, c)(y, x) == v
    ensures Average(bgra, size, out, oy, ox, c) == v
  {
    BoxHasPixels(size, out, oy, ox);
    BoxWithin(Channel(bgra, size.width, c),
              BoxStart(size.height, out.height, oy), BoxEnd(size.height, out.height, oy),
              BoxStart(size.width, out.width, ox), BoxEnd(size.width, out.width, ox), v, v);
    MeanWithin(BoxSum(Channel(bgra, size.width, c),
                      BoxStart(size.height, out.height, oy), BoxEnd(size.height, out.height, oy),
                      BoxStart(size.width, out.width, ox), BoxEnd(size.width, out.width, ox)),
               BoxPixels(size, out, oy, ox), v, v);
  }

  /** An output pixel: red, green, blue, opaque. */
  ghost predicate IsPixel(bgra: seq<u8>, size: Size, out: Size, oy: nat, ox: nat, p: seq<u8>)
    requires out.width > 0 && out.height > 0
  {
    |p| == 4
    && p[0] as int == Average(bgra, size, out, oy, ox, 2)
    && p[1] as int == Average(bgra, size, out, oy, ox, 1)
    && p[2] as int == Average(bgra, size, out, oy, ox, 0)
    && p[3] == 255
  }

  lemma InFrame(size: Size, y: nat, x: nat, c: nat, length: nat)
    requires y < size.height && x < size.width && c < 4 && size.width * size.height * 4 <= length
    ensures (y * size.width + x) * 4 + c < length
  {
    MulOrder(y + 1, size.height, size.width);
    assert (y + 1) * size.width == y * size.width + size.width;
    assert size.height * size.width == size.width * size.height;
  }

  /** The box of one output pixel, summed and averaged. */
  method AverageBox(bgra: seq<u8>, size: Size, out: Size, oy: nat, ox: nat) returns (pixel: seq<u8>)
    requires Shrinks(size, out) && oy < out.height && ox < out.width
    requires size.width * size.height * 4 <= |bgra|
    ensures IsPixel(bgra, size, out, oy, ox, pixel)
  {
    var y0 := oy * size.height / out.height;
    var y1 := Max((oy + 1) * size.height / out.height, oy * size.height / out.height + 1);
    var x0 := ox * size.width / out.width;
    var x1 := Max((ox + 1) * size.width / out.width, ox * size.width / out.width + 1);
    BoxesAdjoin(size.height, out.height, oy);
    BoxesAdjoin(size.width, out.width, ox);
    var b, g, r := 0, 0, 0;
    for y := y0 to y1
      invariant b == BoxSum(Channel(bgra, size.width, 0), y0, y, x0, x1)
      invariant g == BoxSum(Channel(bgra, size.width, 1), y0, y, x0, x1)
      invariant r == BoxSum(Channel(bgra, size.width, 2), y0, y, x0, x1)
    {
      for x := x0 to x1
        invariant b == BoxSum(Channel(bgra, size.width, 0), y0, y, x0, x1) + RowSum(Channel(bgra, size.width, 0), y, x0, x)
        invariant g == BoxSum(Channel(bgra, size.width, 1), y0, y, x0, x1) + RowSum(Channel(bgra, size.width, 1), y, x0, x)
        invariant r == BoxSum(Channel(bgra, size.width, 2), y0, y, x0, x1) + RowSum(Channel(bgra, size.width, 2), y, x0, x)
      {
        InFrame(size, y, x, 2, |bgra|);
        MulNonNegative(y, size.width);
        var p := (y * size.width + x) * 4;
        b := b + bgra[p] as int;
        g := g + bgra[p + 1] as int;
        r := r + bgra[p + 2] as int;
      }
    }
    var n := (y1 - y0) * (x1 - x0);
    BoxHasPixels(size, out, oy, ox);
    AverageIsByte(bgra, size, out, oy, ox, 0);
    AverageIsByte(bgra, size, out, oy, ox, 1);
    AverageIsByte(bgra, size, out, oy, ox, 2);
    pixel := [Mean(r, n) as u8, Mean(g, n) as u8, Mean(b, n) as u8, 255];
  }

  lemma GridCell(width: nat, oy: nat, ox: nat)
    requires ox < width
    ensures (oy * width + ox) / width == oy && (oy * width + ox) % width == ox
  {
    DivMod(oy * width + ox, width, oy, ox);
  }

  /** Output pixel `k` is the one of column `k % width` and row `k / width`. */
  ghost function PixelTest(bgra: seq<u8>, size: Size, out: Size): (nat, seq<u8>) -> bool
    requires out.width > 0 && out.height > 0
  {
    (k: nat, p: seq<u8>) => IsPixel(bgra, size, out, k / out.width, k % out.width, p)
  }

  /** Every four bytes of `rgba` pass the test of their position. */
  ghost predicate AllPixels(test: (nat, seq<u8>) -> bool, rgba: seq<u8>) {
    forall k: nat :: 4 * k + 4 <= |rgba| ==> test(k, rgba[4 * k..4 * k + 4])
  }

  lemma Extend(test: (nat, seq<u8>) -> bool, rgba: seq<u8>, n: nat, pixel: seq<u8>)
    requires |rgba| == 4 * n && |pixel| == 4 && AllPixels(test, rgba) && test(n, pixel)
    ensures AllPixels(test, rgba + pixel)
  {
    forall k: nat | 4 * k + 4 <= |rgba + pixel| ensures test(k, (rgba + pixel)[4 * k..4 * k + 4]) {
      if k < n {
        assert (rgba + pixel)[4 * k..4 * k + 4] == rgba[4 * k..4 * k + 4];
      } else {
        assert (rgba + pixel)[4 * k..4 * k + 4] == pixel;
      }
    }
  }

  /**
   The whole thumbnail, for any size `fitted` that keeps a pixel each way and does not scale up. A
   frame shorter than its size claims, or empty, yields an empty image; any other one yields that
   many opaque RGBA pixels, each the rounded mean of its box.
   */
  method Downscale(bgra: seq<u8>, size: Size, fitted: Size) returns (rgba: seq<u8>, out: Size)
    requires size.width > 0 && size.height > 0 ==> Shrinks(size, fitted)
    ensures size.width == 0 || size.height == 0 || |bgra| < size.width * size.height * 4
            ==> rgba == [] && out == EMPTY
    ensures size.width > 0 && size.height > 0 && size.width * size.height * 4 <= |bgra|
            ==> && out == fitted && |rgba| == out.height * out.width * 4
                && AllPixels(PixelTest(bgra, size, out), rgba)
  {
    if size.width == 0 || size.height == 0 || |bgra| < size.width * size.height * 4 {
      return [], EMPTY;
    }
    out := fitted;
    rgba := [];
    for oy := 0 to out.height
      invariant |rgba| == oy * out.width * 4
      invariant AllPixels(PixelTest(bgra, size, out), rgba)
    {
      for ox := 0 to out.width
        invariant |rgba| == (oy * out.width + ox) * 4
        invariant AllPixels(PixelTest(bgra, size, out), rgba)
      {
        var pixel := AverageBox(bgra, size, out, oy, ox);
        GridCell(out.width, oy, ox);
        Extend(PixelTest(bgra, size, out), rgba, oy * out.width + ox, pixel);
        rgba := rgba + pixel;
      }
      assert (oy + 1) * out.width == oy * out.width + out.width;
    }
  }
}
