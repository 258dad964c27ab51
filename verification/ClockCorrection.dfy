/**
  * Mapping timestamps of a virtual machine's clock onto the host's clock, by interpolating the offset
  * measured before and after a benchmark run. Floating point is modelled by exact reals.
  */
module ClockCorrection {
  import opened Common

  /** One calibration: the host time, the machine time read at that moment, and the round trip. */
  datatype Anchor = Anchor(hostMid: int, vm: int, offset: int, rtt: int)

  datatype CorrectedTime = CorrectedTime(host: int, offset: real, uncertainty: real)

  /** The host time a calibration stands for in the correction, which never reads hostMid. */
  function HostAt(a: Anchor): int {
    a.vm - a.offset
  }

  /** What the calibration records: the offset is the machine's lead over the host. */
  predicate Faithful(a: Anchor) {
    a.offset == a.vm - a.hostMid
  }

  // ---------------------------------------------------------------- rounding

  /** Rounding to the nearest integer, halves going to the even neighbour. */
  function Round(v: real): (r: int)
    ensures v - 0.5 <= r as real <= v + 0.5
    ensures r as real == v - 0.5 || r as real == v + 0.5 ==> r % 2 == 0
  {
    var f := v.Floor;
    var part := v - f as real;
    if part < 0.5 then f
    else if part > 0.5 then f + 1
    else if f % 2 == 0 then f
    else f + 1
  }

  lemma RoundMonotone(a: real, b: real)
    requires a <= b
    ensures Round(a) <= Round(b)
  {
    assert a.Floor <= b.Floor;
  }

  lemma RoundExact(n: int)
    ensures Round(n as real) == n
  {
    assert (n as real).Floor == n;
  }

  // ---------------------------------------------------------------- correction

  function Alpha(v: int, pre: Anchor, post: Anchor): real
    requires pre.vm < post.vm
  {
    (v - pre.vm) as real / (post.vm - pre.vm) as real
  }

  function Clamp(alpha: real): (r: real)
    ensures 0.0 <= r <= 1.0
  {
    if alpha < 0.0 then 0.0 else if alpha > 1.0 then 1.0 else alpha
  }

  function Interpolate(a: int, b: int, alpha: real): real {
    a as real + alpha * (b - a) as real
  }

  /** Errors on anchors out of order and on timestamps far outside the calibrated window. */
  function Correct(v: int, pre: Anchor, post: Anchor): (r: Option<CorrectedTime>)
  {
    if post.vm <= pre.vm then None
    else
      var alpha := Alpha(v, pre, post);
      if alpha < -0.05 || alpha > 1.05 then None
      else
        var offset := Interpolate(pre.offset, post.offset, Clamp(alpha));
        var rtt := Interpolate(pre.rtt, post.rtt, Clamp(alpha));
        Some(CorrectedTime(Round(v as real - offset), offset, if rtt / 2.0 < 0.0 then 0.0 else rtt / 2.0))
  }

  /** The host time before rounding. */
  function Exact(v: int, pre: Anchor, post: Anchor): real
    requires pre.vm < post.vm
  {
    v as real - Interpolate(pre.offset, post.offset, Clamp(Alpha(v, pre, post)))
  }

  lemma AlphaTimesWidth(v: int, pre: Anchor, post: Anchor)
    requires pre.vm < post.vm
    ensures Alpha(v, pre, post) * (post.vm - pre.vm) as real == (v - pre.vm) as real
  {
  }

  lemma AlphaOrdered(v: int, w: int, pre: Anchor, post: Anchor)
    requires pre.vm < post.vm && v <= w
    ensures Alpha(v, pre, post) <= Alpha(w, pre, post)
  {
    var a, b, width := Alpha(v, pre, post), Alpha(w, pre, post), (post.vm - pre.vm) as real;
    AlphaTimesWidth(v, pre, post);
    AlphaTimesWidth(w, pre, post);
    hide Alpha;
    MulOrdered(b, a, width);
  }

  lemma MulOrdered(a: real, b: real, w: real)
    requires w > 0.0
    ensures a < b <==> a * w < b * w
  {
  }

  /** Inside the window the corrected time runs straight from one calibration to the other. */
  lemma ExactInside(v: int, pre: Anchor, post: Anchor)
    requires pre.vm <= v <= post.vm && pre.vm < post.vm
    ensures 0.0 <= Alpha(v, pre, post) <= 1.0
    ensures Exact(v, pre, post) == Interpolate(HostAt(pre), HostAt(post), Alpha(v, pre, post))
  {
    var alpha := Alpha(v, pre, post);
    AlphaOrdered(pre.vm, v, pre, post);
    AlphaOrdered(v, post.vm, pre, post);
    AlphaEnds(pre, post);
    AlphaTimesWidth(v, pre, post);
    var width, span := (post.vm - pre.vm) as real, (HostAt(post) - HostAt(pre)) as real;
    Spread(alpha, width, span);
    assert (post.offset - pre.offset) as real == width - span;
  }

  lemma Spread(alpha: real, width: real, span: real)
    ensures alpha * (width - span) == alpha * width - alpha * span
  {
  }

  lemma AlphaEnds(pre: Anchor, post: Anchor)
    requires pre.vm < post.vm
    ensures Alpha(pre.vm, pre, post) == 0.0 && Alpha(post.vm, pre, post) == 1.0
  {
  }

  /** Outside the window the nearer calibration's offset is kept. */
  lemma ExactOutside(v: int, pre: Anchor, post: Anchor)
    requires pre.vm < post.vm
    ensures v <= pre.vm ==> Exact(v, pre, post) == (v - pre.offset) as real
    ensures v >= post.vm ==> Exact(v, pre, post) == (v - post.offset) as real
  {
    AlphaEnds(pre, post);
    if v <= pre.vm {
      AlphaOrdered(v, pre.vm, pre, post);
    } else if v >= post.vm {
      AlphaOrdered(post.vm, v, pre, post);
    }
  }

  /** A reading taken at a calibration is corrected to the host time that calibration stands for. */
  lemma AnchorsExact(pre: Anchor, post: Anchor)
    requires pre.vm < post.vm
    ensures var r := Correct(pre.vm, pre, post); r.Some? && r.value.host == HostAt(pre)
    ensures var r := Correct(post.vm, pre, post); r.Some? && r.value.host == HostAt(post)
  {
    AlphaEnds(pre, post);
    ExactOutside(pre.vm, pre, post);
    ExactOutside(post.vm, pre, post);
    RoundExact(HostAt(pre));
    RoundExact(HostAt(post));
  }

  /** The weighted mean of two readings, the weights adding up to the width of the window. */
  function Weighted(a: int, b: int, v: int, pre: Anchor, post: Anchor): int {
    a * (post.vm - v) + b * (v - pre.vm)
  }

  lemma InterpolateTimesWidth(a: int, b: int, v: int, pre: Anchor, post: Anchor)
    requires pre.vm < post.vm
    ensures Interpolate(a, b, Alpha(v, pre, post)) * (post.vm - pre.vm) as real == Weighted(a, b, v, pre, post) as real
  {
    var alpha, width, along := Alpha(v, pre, post), post.vm - pre.vm, v - pre.vm;
    AlphaTimesWidth(v, pre, post);
    hide Alpha;
    MeanTimesWidth(a as real, (b - a) as real, alpha, width as real, along as real);
    assert a * width + (b - a) * along == Weighted(a, b, v, pre, post) by { Regroup(a, b, width, along); }
    assert (a * width) as real == a as real * width as real;
    assert ((b - a) * along) as real == (b - a) as real * along as real;
  }

  lemma MeanTimesWidth(a: real, d: real, alpha: real, width: real, along: real)
    requires alpha * width == along
    ensures (a + alpha * d) * width == a * width + d * along
  {
    assert (alpha * d) * width == d * (alpha * width);
  }

  lemma Regroup(a: int, b: int, width: int, along: int)
    ensures a * width + (b - a) * along == a * (width - along) + b * along
  {
  }

  lemma ClampInside(v: int, pre: Anchor, post: Anchor)
    requires pre.vm <= v <= post.vm && pre.vm < post.vm
    ensures Clamp(Alpha(v, pre, post)) == Alpha(v, pre, post)
  {
    AlphaOrdered(pre.vm, v, pre, post);
    AlphaOrdered(v, post.vm, pre, post);
    AlphaEnds(pre, post);
    hide Alpha;
  }

  /** Rounding a quotient, in whole numbers. */
  lemma RoundsQuotient(x: real, n: int, width: int)
    requires width > 0 && x * width as real == n as real
    ensures var twiceOff := 2 * (Round(x) * width - n);
            && -width <= twiceOff <= width
            && (twiceOff == width || twiceOff == -width ==> Round(x) % 2 == 0)
  {
    hide Round;
    Product(Round(x), width);
    ScaleHalf(Round(x) as real, x, width as real, (Round(x) * width) as real, n as real);
    WholeHalves(Round(x) * width, n, width);
  }

  lemma Product(a: int, b: int)
    ensures (a * b) as real == a as real * b as real
  {
  }

  lemma WholeHalves(k: int, n: int, width: int)
    requires -(width as real) <= 2.0 * (k as real - n as real) <= width as real
    ensures -width <= 2 * (k - n) <= width
    ensures 2 * (k - n) == width <==> 2.0 * (k as real - n as real) == width as real
    ensures 2 * (k - n) == -width <==> 2.0 * (k as real - n as real) == -(width as real)
  {
    assert (2 * (k - n)) as real == 2.0 * (k as real - n as real);
  }

  lemma ScaleHalf(r: real, x: real, w: real, rw: real, xw: real)
    requires w > 0.0 && x - 0.5 <= r <= x + 0.5 && rw == r * w && xw == x * w
    ensures -w <= 2.0 * (rw - xw) <= w
    ensures 2.0 * (rw - xw) == w ==> r == x + 0.5
    ensures 2.0 * (rw - xw) == -w ==> r == x - 0.5
  {
    Spread(w, r, x);
    HalfTimes(r - x, w, rw - xw);
  }

  lemma HalfTimes(d: real, w: real, dw: real)
    requires w > 0.0 && -0.5 <= d <= 0.5 && dw == d * w
    ensures -w <= 2.0 * dw <= w && (2.0 * dw == w ==> d == 0.5) && (2.0 * dw == -w ==> d == -0.5)
  {
    assert 0.5 < d <==> 0.5 * w < dw by { MulOrdered(0.5, d, w); }
    assert d < 0.5 <==> dw < 0.5 * w by { MulOrdered(d, 0.5, w); }
    assert d < -0.5 <==> dw < -0.5 * w by { MulOrdered(d, -0.5, w); }
    assert -0.5 < d <==> -0.5 * w < dw by { MulOrdered(-0.5, d, w); }
  }

  /**
    * A reading between the calibrations: its host time is the mean of the two calibrations' host times,
    * weighted by the distance to the other one and rounded half to even; its offset and, unless
    * negative, its uncertainty are the weighted means of theirs.
    */
  lemma CorrectInside(v: int, pre: Anchor, post: Anchor)
    requires pre.vm <= v <= post.vm && pre.vm < post.vm
    ensures var r := Correct(v, pre, post);
            var width := post.vm - pre.vm;
            && r.Some?
            && var twiceOff := 2 * (r.value.host * width - Weighted(HostAt(pre), HostAt(post), v, pre, post));
               var rtts := Weighted(pre.rtt, post.rtt, v, pre, post);
               && -width <= twiceOff <= width
               && (twiceOff == width || twiceOff == -width ==> r.value.host % 2 == 0)
               && r.value.offset * width as real == Weighted(pre.offset, post.offset, v, pre, post) as real
               && 2.0 * r.value.uncertainty * width as real == (if rtts < 0 then 0 else rtts) as real
  {
    var width := post.vm - pre.vm;
    ClampInside(v, pre, post);
    ExactInside(v, pre, post);
    InterpolateTimesWidth(pre.offset, post.offset, v, pre, post);
    InterpolateTimesWidth(pre.rtt, post.rtt, v, pre, post);
    InterpolateTimesWidth(HostAt(pre), HostAt(post), v, pre, post);
    hide Alpha, Weighted, Interpolate, Clamp, Round, HostAt;
    RoundsQuotient(Exact(v, pre, post), Weighted(HostAt(pre), HostAt(post), v, pre, post), width);
    HalfOrNone(Interpolate(pre.rtt, post.rtt, Alpha(v, pre, post)), width as real, Weighted(pre.rtt, post.rtt, v, pre, post) as real);
  }

  lemma HalfOrNone(rtt: real, width: real, total: real)
    requires width > 0.0 && rtt * width == total
    ensures var u := if rtt / 2.0 < 0.0 then 0.0 else rtt / 2.0;
            2.0 * u * width == if total < 0.0 then 0.0 else total
  {
    MulOrdered(rtt, 0.0, width);
  }

  /** A reading outside the window, as far as accepted, is corrected by the nearer calibration alone. */
  lemma CorrectOutside(v: int, pre: Anchor, post: Anchor)
    requires Correct(v, pre, post).Some? && (v <= pre.vm || post.vm <= v)
    ensures var near := if v <= pre.vm then pre else post;
            var r := Correct(v, pre, post).value;
            && r.host == v - near.offset
            && r.offset == near.offset as real
            && 2.0 * r.uncertainty == (if near.rtt < 0 then 0 else near.rtt) as real
  {
    var near := if v <= pre.vm then pre else post;
    ExactOutside(v, pre, post);
    AlphaEnds(pre, post);
    if v <= pre.vm {
      AlphaOrdered(v, pre.vm, pre, post);
    } else {
      AlphaOrdered(post.vm, v, pre, post);
    }
    hide Alpha;
    RoundExact(v - near.offset);
  }

  /** Which timestamps are accepted: those at most a twentieth of the window outside it. */
  lemma AcceptedIff(v: int, pre: Anchor, post: Anchor)
    ensures Correct(v, pre, post).Some? <==>
            && pre.vm < post.vm
            && -(post.vm - pre.vm) <= 20 * (v - pre.vm) <= 21 * (post.vm - pre.vm)
  {
    if pre.vm < post.vm {
      AlphaTimesWidth(v, pre, post);
      hide Alpha, Round, Interpolate, Clamp;
      WithinWindow(Alpha(v, pre, post), post.vm - pre.vm, v - pre.vm);
    }
  }

  lemma WithinWindow(alpha: real, width: int, along: int)
    requires width > 0 && alpha * width as real == along as real
    ensures alpha < -0.05 <==> 20 * along < -width
    ensures alpha > 1.05 <==> 20 * along > 21 * width
  {
    LimitAt(alpha, -0.05, width as real, along as real);
    LimitAt(alpha, 1.05, width as real, along as real);
    hide *;
    assert 20.0 * along as real == (20 * along) as real;
    assert 20.0 * (-0.05 * width as real) == (-width) as real;
    assert 20.0 * (1.05 * width as real) == (21 * width) as real;
  }

  lemma LimitAt(alpha: real, limit: real, width: real, along: real)
    requires width > 0.0 && alpha * width == along
    ensures alpha < limit <==> along < limit * width
    ensures alpha > limit <==> along > limit * width
  {
    MulOrdered(alpha, limit, width);
    MulOrdered(limit, alpha, width);
  }

  lemma InterpolateOrdered(a: int, b: int, s: real, t: real)
    requires a <= b && s <= t
    ensures Interpolate(a, b, s) <= Interpolate(a, b, t)
  {
    var span := (b - a) as real;
    assert (t - s) * span >= 0.0;
    Spread(span, t, s);
  }

  lemma ExactOrdered(v: int, w: int, pre: Anchor, post: Anchor)
    requires pre.vm < post.vm && HostAt(pre) <= HostAt(post)
    requires v <= w
    ensures Exact(v, pre, post) <= Exact(w, pre, post)
  {
    ExactBounds(v, pre, post);
    ExactBounds(w, pre, post);
    ExactOutside(v, pre, post);
    ExactOutside(w, pre, post);
    if pre.vm <= v && w <= post.vm {
      ExactInside(v, pre, post);
      ExactInside(w, pre, post);
      AlphaOrdered(v, w, pre, post);
      InterpolateOrdered(HostAt(pre), HostAt(post), Alpha(v, pre, post), Alpha(w, pre, post));
    }
  }

  /** Each of the three stretches stays on its side of the two calibrations. */
  lemma ExactBounds(v: int, pre: Anchor, post: Anchor)
    requires pre.vm < post.vm && HostAt(pre) <= HostAt(post)
    ensures v <= pre.vm ==> Exact(v, pre, post) <= HostAt(pre) as real
    ensures pre.vm <= v <= post.vm ==> HostAt(pre) as real <= Exact(v, pre, post) <= HostAt(post) as real
    ensures post.vm <= v ==> Exact(v, pre, post) >= HostAt(post) as real
  {
    ExactOutside(v, pre, post);
    if pre.vm <= v <= post.vm {
      ExactInside(v, pre, post);
      InterpolateOrdered(HostAt(pre), HostAt(post), 0.0, Alpha(v, pre, post));
      InterpolateOrdered(HostAt(pre), HostAt(post), Alpha(v, pre, post), 1.0);
    }
  }

  /** Correction never puts a later reading before an earlier one. */
  ghost predicate KeepsOrder(pre: Anchor, post: Anchor) {
    forall v, w | v <= w && Correct(v, pre, post).Some? && Correct(w, pre, post).Some? ::
      Correct(v, pre, post).value.host <= Correct(w, pre, post).value.host
  }

  /**
    * For all calibrations, in order or not: correction keeps the order of readings exactly when it
    * accepts none, or the host times the two calibrations stand for are in order.
    */
  lemma KeepsOrderIff(pre: Anchor, post: Anchor)
    ensures KeepsOrder(pre, post) <==> (pre.vm < post.vm ==> HostAt(pre) <= HostAt(post))
  {
    if pre.vm < post.vm {
      AnchorsExact(pre, post);
      if HostAt(pre) <= HostAt(post) {
        forall v, w | v <= w && Correct(v, pre, post).Some? && Correct(w, pre, post).Some?
          ensures Correct(v, pre, post).value.host <= Correct(w, pre, post).value.host
        {
          ExactOrdered(v, w, pre, post);
          RoundMonotone(Exact(v, pre, post), Exact(w, pre, post));
        }
      }
    }
  }

  /** With offsets recorded as the calibration does, those host times are the measured ones. */
  lemma FaithfulOrder(pre: Anchor, post: Anchor)
    requires Faithful(pre) && Faithful(post) && pre.vm < post.vm
    ensures var r := Correct(pre.vm, pre, post); r.Some? && r.value.host == pre.hostMid
    ensures var r := Correct(post.vm, pre, post); r.Some? && r.value.host == post.hostMid
    ensures KeepsOrder(pre, post) <==> pre.hostMid <= post.hostMid
  {
    AnchorsExact(pre, post);
    KeepsOrderIff(pre, post);
  }

  /** Measured host times in order are not enough: an offset that disagrees with them reverses readings. */
  lemma UnfaithfulReverses()
    ensures var pre, post := Anchor(0, 0, 0, 0), Anchor(100, 100, 1000, 0);
      pre.hostMid < post.hostMid && pre.vm < post.vm && !KeepsOrder(pre, post)
  {
    KeepsOrderIff(Anchor(0, 0, 0, 0), Anchor(100, 100, 1000, 0));
  }
}
