/** The arithmetic and the per-arrival decision of the BLACK active queue
    management discipline: Floyd and Jacobson's RED with the Adaptive-RED
    AIMD rule for the maximum drop probability, Feng's self-configuring MIMD
    rule, gentle and nonlinear ramps, derandomised ("wait") dropping and
    byte-mode scaling.  `double` is idealised as `real`, simulation time as
    integer nanoseconds.  The class that owns this state is in BlackDisc. */
module BlackAqm {
  import opened Common

  /** State of Feng's adaptive rule: Above when the average exceeds maxTh,
      Between when minTh < average < maxTh, Below when the average is under minTh. */
  datatype FengStatus = Above | Between | Below

  /** Classification of one arrival: no drop, a forced drop/mark, an unforced (random) one. */
  datatype DropType = DtypeNone | DtypeForced | DtypeUnforced

  /** Reasons handed to DropBeforeEnqueue and to Mark. */
  datatype Reason = UnforcedDrop | ForcedDrop | UnforcedMark | ForcedMark

  function ReasonText(r: Reason): string
  {
    match r
    case UnforcedDrop => "Unforced drop"
    case ForcedDrop => "Forced drop"
    case UnforcedMark => "Unforced mark"
    case ForcedMark => "Forced mark"
  }

  /** What the statistics collaborator sees: a drop before enqueue with its reason,
      a successful ECN mark with its reason, or a drop by the internal DropTail queue. */
  datatype Event = Dropped(reason: Reason, size: nat) | Marked(reason: Reason, size: nat) | RefusedByQueue(size: nat)

  /** Coefficients maintained by the disc: vA, vB for the linear ramp between the
      thresholds, vC, vD for the gentle ramp above maxTh. */
  datatype Coeffs = Coeffs(vA: real, vB: real, vC: real, vD: real)

  /** Configuration after InitializeParams; immutable while packets flow. */
  datatype Params = Params(
    meanPktSize: nat,
    isWait: bool,
    isGentle: bool,
    isAdaptMaxP: bool,
    isFengAdaptive: bool,
    isNonlinear: bool,
    isNs1Compat: bool,
    useEcn: bool,
    useHardDrop: bool,
    byteMode: bool,
    minTh: real,
    maxTh: real,
    qW: real,
    interval: int,
    top: real,
    bottom: real,
    alpha: real,
    beta: real,
    fengA: real,
    fengB: real,
    coeffs: Coeffs)

  /** Per-disc state the source updates in place.  `crossed` is m_old (0/1), `idle` is m_idle (0/1). */
  datatype AqmState = AqmState(
    qAvg: real,
    curMaxP: real,
    lastSet: int,
    fengStatus: FengStatus,
    vProb: real,
    count: nat,
    countBytes: nat,
    crossed: bool,
    idle: bool,
    idleTime: int)

  /** What the arithmetic needs of a configuration: a positive mean packet size
      (it is divided by), ordered thresholds with a positive maxTh (the gentle
      coefficient divides by it), a non-zero Feng divisor, and the [0, 1] ranges
      the attribute checkers impose on top, bottom, alpha and beta. */
  predicate WellFormed(p: Params)
  {
    && p.meanPktSize > 0
    && p.minTh <= p.maxTh
    && 0.0 < p.maxTh
    && p.fengA != 0.0
    && 0.0 <= p.top <= 1.0
    && 0.0 <= p.bottom <= 1.0
    && 0.0 <= p.alpha <= 1.0
    && 0.0 <= p.beta <= 1.0
  }

  function Max(x: real, y: real): real { if x >= y then x else y }
  function Min(x: real, y: real): real { if x <= y then x else y }

  // ---------------------------------------------------------------- estimator

  function Pow(x: real, n: nat): real
  {
    if n == 0 then 1.0 else x * Pow(x, n - 1)
  }

  /** Monotonicity of multiplication by a non-negative factor. */
  lemma MulMono(a: real, b: real, c: real)
    requires a <= b && 0.0 <= c
    ensures a * c <= b * c
  {
  }

  lemma MulMonoLeft(c: real, a: real, b: real)
    requires a <= b && 0.0 <= c
    ensures c * a <= c * b
  {
  }

  lemma MulNonneg(a: real, b: real)
    requires 0.0 <= a && 0.0 <= b
    ensures 0.0 <= a * b
  {
  }

  /** A power of a number in [0, 1] stays in [0, 1], and with at least one factor it is at most that number. */
  lemma {:induction false} PowUnit(x: real, n: nat)
    requires 0.0 <= x <= 1.0
    ensures 0.0 <= Pow(x, n) <= 1.0
    ensures n >= 1 ==> Pow(x, n) <= x
  {
    if n > 0 {
      PowUnit(x, n - 1);
      MulMonoLeft(x, Pow(x, n - 1), 1.0);
      MulNonneg(x, Pow(x, n - 1));
    }
  }

  /** The EWMA formula of Estimator: qAvg * (1 - qW)^m + qW * nQueued. */
  function Ewma(qAvg: real, qW: real, m: nat, nQueued: nat): real
  {
    qAvg * Pow(1.0 - qW, m) + qW * nQueued as real
  }

  /** A weighted mix a * f + w * n with f <= 1 - w stays below any bound M of a and n. */
  lemma MixBound(a: real, f: real, w: real, n: real, bound: real)
    requires 0.0 <= w <= 1.0 && 0.0 <= f <= 1.0 - w && 0.0 <= a <= bound && n <= bound
    ensures a * f + w * n <= bound
  {
    MulMono(a, bound, f);
    MulMonoLeft(bound, f, 1.0 - w);
    MulMonoLeft(w, n, bound);
    assert a * f <= bound * (1.0 - w);
    assert bound * (1.0 - w) + w * bound == bound;
  }

  /** With at least one sample (m >= 1) the average never overshoots its inputs:
      it stays within [0, max(qAvg, nQueued)]. */
  lemma EwmaBounded(qAvg: real, qW: real, m: nat, nQueued: nat)
    requires 0.0 <= qW <= 1.0 && 0.0 <= qAvg && 1 <= m
    ensures 0.0 <= Ewma(qAvg, qW, m, nQueued) <= Max(qAvg, nQueued as real)
  {
    PowUnit(1.0 - qW, m);
    MixBound(qAvg, Pow(1.0 - qW, m), qW, nQueued as real, Max(qAvg, nQueued as real));
    MulNonneg(qAvg, Pow(1.0 - qW, m));
    MulNonneg(qW, nQueued as real);
  }

  /** Floyd's AIMD rule of UpdateMaxP moves m_curMaxP toward the band around
      the midpoint of the thresholds: 40% of the span above minTh and below maxTh. */
  function Margin(p: Params): real
  {
    0.4 * (p.maxTh - p.minTh)
  }

  /** Additive increase of curMaxP: alpha, but never more than a quarter of curMaxP. */
  function Increase(curMaxP: real, alpha: real): real
  {
    curMaxP + Min(alpha, 0.25 * curMaxP)
  }

  /** Multiplicative decrease of curMaxP by beta. */
  function Decrease(curMaxP: real, beta: real): real
  {
    curMaxP * beta
  }

  /** UpdateMaxP: the new m_curMaxP and m_lastSet.  m_lastSet moves to now only when
      one of the two AIMD branches fires. */
  function UpdateMaxP(p: Params, curMaxP: real, lastSet: int, newAve: real, now: int): (r: (real, int))
    ensures r.1 == now || r == (curMaxP, lastSet)
  {
    if newAve < p.minTh + Margin(p) && curMaxP > p.bottom then
      (Decrease(curMaxP, p.beta), now)
    else if newAve > p.maxTh - Margin(p) && p.top > curMaxP then
      (Increase(curMaxP, p.alpha), now)
    else
      (curMaxP, lastSet)
  }

  /** Decreasing by a factor in [0, 1] keeps a non-negative curMaxP between 0 and itself. */
  lemma DecreaseShrinks(c: real, beta: real)
    requires 0.0 <= beta <= 1.0 && 0.0 <= c
    ensures 0.0 <= Decrease(c, beta) <= c
  {
    MulMonoLeft(c, beta, 1.0);
    MulNonneg(c, beta);
  }

  /** Decreasing by the same non-negative factor preserves order. */
  lemma DecreaseMonotone(floor: real, c: real, beta: real)
    requires floor <= c && 0.0 <= beta
    ensures Decrease(floor, beta) <= Decrease(c, beta)
  {
    MulMono(floor, c, beta);
  }

  /** The AIMD rule decreases curMaxP only below the target band and above bottom, and
      increases it only above the band and below top, by at most alpha.  Conversely, below
      the band and above bottom it multiplies curMaxP by beta; otherwise, above the band and
      below top, it adds min(alpha, curMaxP / 4); in both cases lastSet becomes now, and in
      every other case nothing changes. */
  lemma UpdateMaxPDirection(p: Params, curMaxP: real, lastSet: int, newAve: real, now: int)
    requires WellFormed(p) && 0.0 <= curMaxP
    ensures newAve < p.minTh + Margin(p) && curMaxP > p.bottom ==>
              UpdateMaxP(p, curMaxP, lastSet, newAve, now) == (curMaxP * p.beta, now)
    ensures !(newAve < p.minTh + Margin(p) && curMaxP > p.bottom) && newAve > p.maxTh - Margin(p) && p.top > curMaxP ==>
              UpdateMaxP(p, curMaxP, lastSet, newAve, now) == (curMaxP + Min(p.alpha, 0.25 * curMaxP), now)
    ensures !(newAve < p.minTh + Margin(p) && curMaxP > p.bottom) && !(newAve > p.maxTh - Margin(p) && p.top > curMaxP) ==>
              UpdateMaxP(p, curMaxP, lastSet, newAve, now) == (curMaxP, lastSet)
    ensures UpdateMaxP(p, curMaxP, lastSet, newAve, now).0 < curMaxP ==>
              newAve < p.minTh + Margin(p) && p.bottom < curMaxP
    ensures UpdateMaxP(p, curMaxP, lastSet, newAve, now).0 > curMaxP ==>
              newAve > p.maxTh - Margin(p) && curMaxP < p.top
    ensures UpdateMaxP(p, curMaxP, lastSet, newAve, now).0 - curMaxP <= p.alpha
  {
    if newAve < p.minTh + Margin(p) && curMaxP > p.bottom {
      DecreaseShrinks(curMaxP, p.beta);
      assert Decrease(curMaxP, p.beta) == curMaxP * p.beta;
    }
  }

  /** One AIMD step never takes a non-negative curMaxP below min(curMaxP, beta * bottom)
      nor above max(curMaxP, 1.25 top): it stays a probability when top is at most 0.8. */
  lemma UpdateMaxPBounds(p: Params, curMaxP: real, lastSet: int, newAve: real, now: int)
    requires WellFormed(p) && 0.0 <= curMaxP
    ensures 0.0 <= UpdateMaxP(p, curMaxP, lastSet, newAve, now).0
    ensures Min(curMaxP, Decrease(p.bottom, p.beta)) <= UpdateMaxP(p, curMaxP, lastSet, newAve, now).0
    ensures UpdateMaxP(p, curMaxP, lastSet, newAve, now).0 <= Max(curMaxP, 1.25 * p.top)
  {
    if newAve < p.minTh + Margin(p) && curMaxP > p.bottom {
      DecreaseShrinks(curMaxP, p.beta);
      DecreaseMonotone(p.bottom, curMaxP, p.beta);
    }
  }

  /** One AIMD step with the average below the target band: a curMaxP above bottom is
      multiplied by beta, any other is kept; either way it does not grow or turn negative. */
  lemma AimdStepBelow(p: Params, curMaxP: real, lastSet: int, newAve: real, now: int)
    requires WellFormed(p) && 0.0 <= curMaxP && newAve < p.minTh + Margin(p)
    ensures var r := UpdateMaxP(p, curMaxP, lastSet, newAve, now).0;
            && 0.0 <= r <= curMaxP
            && (curMaxP > p.bottom ==> r == curMaxP * p.beta)
            && (curMaxP <= p.bottom ==> r == curMaxP)
  {
    UpdateMaxPDirection(p, curMaxP, lastSet, newAve, now);
    DecreaseShrinks(curMaxP, p.beta);
  }

  /** The value of curMaxP after n AIMD steps at the same average. */
  function AimdRepeat(p: Params, curMaxP: real, lastSet: int, newAve: real, now: int, n: nat): real
  {
    if n == 0 then curMaxP else UpdateMaxP(p, AimdRepeat(p, curMaxP, lastSet, newAve, now, n - 1), lastSet, newAve, now).0
  }

  /** Every one of the first n AIMD steps at this average starts above bottom. */
  predicate StaysAboveBottom(p: Params, curMaxP: real, lastSet: int, newAve: real, now: int, n: nat)
  {
    n == 0 || (StaysAboveBottom(p, curMaxP, lastSet, newAve, now, n - 1)
               && AimdRepeat(p, curMaxP, lastSet, newAve, now, n - 1) > p.bottom)
  }

  /** With the average held below the target band, repeated AIMD steps keep curMaxP
      between 0 and where it started. */
  lemma {:induction false} AimdBelowBand(p: Params, curMaxP: real, lastSet: int, newAve: real, now: int, n: nat)
    requires WellFormed(p) && 0.0 <= curMaxP && newAve < p.minTh + Margin(p)
    ensures 0.0 <= AimdRepeat(p, curMaxP, lastSet, newAve, now, n) <= curMaxP
  {
    if n > 0 {
      AimdBelowBand(p, curMaxP, lastSet, newAve, now, n - 1);
      AimdStepBelow(p, AimdRepeat(p, curMaxP, lastSet, newAve, now, n - 1), lastSet, newAve, now);
    }
  }

  /** Below the band, with beta < 1, a step from above bottom strictly lowers curMaxP. */
  lemma {:induction false} AimdStrictStep(p: Params, curMaxP: real, lastSet: int, newAve: real, now: int, n: nat)
    requires WellFormed(p) && 0.0 <= curMaxP && newAve < p.minTh + Margin(p) && p.beta < 1.0
    requires n > 0 && AimdRepeat(p, curMaxP, lastSet, newAve, now, n - 1) > p.bottom
    ensures AimdRepeat(p, curMaxP, lastSet, newAve, now, n) < AimdRepeat(p, curMaxP, lastSet, newAve, now, n - 1)
  {
    var prev := AimdRepeat(p, curMaxP, lastSet, newAve, now, n - 1);
    AimdStepStrict(p, prev, lastSet, newAve, now);
  }

  /** One below-band step from above bottom, with beta < 1, strictly lowers curMaxP. */
  lemma AimdStepStrict(p: Params, c: real, lastSet: int, newAve: real, now: int)
    requires WellFormed(p) && newAve < p.minTh + Margin(p) && p.beta < 1.0 && c > p.bottom
    ensures UpdateMaxP(p, c, lastSet, newAve, now).0 < c
  {
    assert 0.0 < c;
    UpdateMaxPDirection(p, c, lastSet, newAve, now);
    assert UpdateMaxP(p, c, lastSet, newAve, now).0 == c * p.beta;
    MulStrict(c, p.beta);
  }

  /** Below the band, while curMaxP stays above bottom, n steps multiply it by beta^n. */
  lemma {:induction false} AimdGeometric(p: Params, curMaxP: real, lastSet: int, newAve: real, now: int, n: nat)
    requires WellFormed(p) && 0.0 <= curMaxP && newAve < p.minTh + Margin(p)
    requires StaysAboveBottom(p, curMaxP, lastSet, newAve, now, n)
    ensures AimdRepeat(p, curMaxP, lastSet, newAve, now, n) == curMaxP * Pow(p.beta, n)
  {
    if n > 0 {
      AimdGeometric(p, curMaxP, lastSet, newAve, now, n - 1);
      var prev := AimdRepeat(p, curMaxP, lastSet, newAve, now, n - 1);
      AimdBelowBand(p, curMaxP, lastSet, newAve, now, n - 1);
      AimdStepBelow(p, prev, lastSet, newAve, now);
      assert (curMaxP * Pow(p.beta, n - 1)) * p.beta == curMaxP * (p.beta * Pow(p.beta, n - 1));
    }
  }

  /** A positive number times a factor below 1 is smaller. */
  lemma MulStrict(c: real, f: real)
    requires 0.0 < c && f < 1.0
    ensures c * f < c
  {
  }

  /** Feng's multiplicative decrease (on entering Below) and increase (on entering Above). */
  function FengDecrease(curMaxP: real, a: real): real
    requires a != 0.0
  {
    curMaxP / a
  }

  function FengIncrease(curMaxP: real, b: real): real
  {
    curMaxP * b
  }

  /** UpdateMaxPFeng: Feng's MIMD rule.  The status follows the average; curMaxP is
      divided by fengA on entering Below and multiplied by fengB on entering Above. */
  function UpdateMaxPFeng(p: Params, status: FengStatus, curMaxP: real, newAve: real): (r: (FengStatus, real))
    requires WellFormed(p)
    ensures r.1 != curMaxP ==>
              || (r.0 == Below && status != Below && newAve < p.minTh && r.1 == FengDecrease(curMaxP, p.fengA))
              || (r.0 == Above && status != Above && newAve > p.maxTh && r.1 == FengIncrease(curMaxP, p.fengB))
    ensures r.0 != status ==>
              || (r.0 == Between && p.minTh < newAve < p.maxTh && r.1 == curMaxP)
              || (r.0 == Below && newAve < p.minTh && r.1 == FengDecrease(curMaxP, p.fengA))
              || (r.0 == Above && newAve > p.maxTh && r.1 == FengIncrease(curMaxP, p.fengB))
    ensures newAve == p.minTh || newAve == p.maxTh ==> r == (status, curMaxP)
    ensures p.minTh < newAve < p.maxTh ==> r == (Between, curMaxP)
    ensures newAve < p.minTh && status != Below ==> r == (Below, FengDecrease(curMaxP, p.fengA))
    ensures newAve > p.maxTh && status != Above ==> r == (Above, FengIncrease(curMaxP, p.fengB))
    ensures newAve < p.minTh && status == Below ==> r == (Below, curMaxP)
    ensures newAve > p.maxTh && status == Above ==> r == (Above, curMaxP)
  {
    if p.minTh < newAve && newAve < p.maxTh then
      (Between, curMaxP)
    else if newAve < p.minTh && status != Below then
      (Below, FengDecrease(curMaxP, p.fengA))
    else if newAve > p.maxTh && status != Above then
      (Above, FengIncrease(curMaxP, p.fengB))
    else
      (status, curMaxP)
  }

  /** Estimator: the new average, after which the AIMD rule runs when adaptive
      max_p is on and the interval has elapsed, and Feng's rule runs otherwise. */
  function Estimator(p: Params, s: AqmState, nQueued: nat, m: nat, now: int): (t: AqmState)
    requires WellFormed(p)
    ensures t.qAvg == Ewma(s.qAvg, p.qW, m, nQueued)
    ensures t == s.(qAvg := t.qAvg, curMaxP := t.curMaxP, lastSet := t.lastSet, fengStatus := t.fengStatus)
    ensures t.lastSet != s.lastSet ==> p.isAdaptMaxP && now > s.lastSet + p.interval
    ensures t.fengStatus != s.fengStatus ==> p.isFengAdaptive && !(p.isAdaptMaxP && now > s.lastSet + p.interval)
    ensures !p.isAdaptMaxP && !p.isFengAdaptive ==> t.curMaxP == s.curMaxP
    ensures p.isAdaptMaxP && now > s.lastSet + p.interval ==>
              (t.curMaxP, t.lastSet) == UpdateMaxP(p, s.curMaxP, s.lastSet, t.qAvg, now) && t.fengStatus == s.fengStatus
    ensures !(p.isAdaptMaxP && now > s.lastSet + p.interval) && p.isFengAdaptive ==>
              (t.fengStatus, t.curMaxP) == UpdateMaxPFeng(p, s.fengStatus, s.curMaxP, t.qAvg) && t.lastSet == s.lastSet
    ensures !(p.isAdaptMaxP && now > s.lastSet + p.interval) && !p.isFengAdaptive ==> t == s.(qAvg := t.qAvg)
  {
    var newAve := Ewma(s.qAvg, p.qW, m, nQueued);
    if p.isAdaptMaxP && now > s.lastSet + p.interval then
      var r := UpdateMaxP(p, s.curMaxP, s.lastSet, newAve, now);
      s.(qAvg := newAve, curMaxP := r.0, lastSet := r.1)
    else if p.isFengAdaptive then
      var r := UpdateMaxPFeng(p, s.fengStatus, s.curMaxP, newAve);
      s.(qAvg := newAve, fengStatus := r.0, curMaxP := r.1)
    else
      s.(qAvg := newAve)
  }

  // ---------------------------------------------------------------- probability

  /** The threshold span, a zero span being replaced by 1 so that it can be divided by. */
  function Span(minTh: real, maxTh: real): real
  {
    if maxTh - minTh == 0.0 then 1.0 else maxTh - minTh
  }

  /** InitializeParams' coefficients: vA = 1/span, vB = -minTh/span, vC = (1 - maxP)/maxTh,
      vD = 2 maxP - 1, for the max_p in force at initialisation. */
  function InitCoeffs(minTh: real, maxTh: real, maxP: real): (c: Coeffs)
    requires minTh <= maxTh && 0.0 < maxTh
    ensures 0.0 < c.vA
    ensures minTh < maxTh ==> c.vA * minTh + c.vB == 0.0 && c.vA * maxTh + c.vB == 1.0
    ensures minTh == maxTh ==> c.vA == 1.0 && c.vB == -minTh
    ensures c.vC * maxTh + c.vD == maxP
    ensures c.vC * (2.0 * maxTh) + c.vD == 1.0
    ensures maxP <= 1.0 ==> 0.0 <= c.vC
  {
    var d := Span(minTh, maxTh);
    var c := Coeffs(1.0 / d, -minTh / d, (1.0 - maxP) / maxTh, 2.0 * maxP - 1.0);
    assert c.vA * minTh + c.vB == 0.0;
    assert minTh < maxTh ==> c.vA * maxTh + c.vB == (maxTh - minTh) / d;
    assert c.vC * maxTh == 1.0 - maxP;
    c
  }

  /** A linear ramp that is 0 at lo and 1 at hi stays in [0, 1] between them. */
  lemma RampUnit(vA: real, vB: real, lo: real, hi: real, x: real)
    requires 0.0 < vA && vA * lo + vB == 0.0 && vA * hi + vB == 1.0
    requires lo <= x <= hi
    ensures 0.0 <= vA * x + vB <= 1.0
  {
    MulMonoLeft(vA, lo, x);
    MulMonoLeft(vA, x, hi);
  }

  /** Scaling a non-negative value by a factor in [0, 1] keeps it between 0 and itself. */
  lemma ScaleUnit(f: real, c: real)
    requires 0.0 <= f <= 1.0 && 0.0 <= c
    ensures 0.0 <= f * c <= c
  {
    MulMono(f, 1.0, c);
    MulNonneg(f, c);
  }

  /** The linear-ramp branch of CalculatePNew before clamping: the ramp value, squared
      and scaled by 1.5 in nonlinear mode, times curMaxP. */
  function RampP(lin: real, isNonlinear: bool, curMaxP: real): (p: real)
  {
    if isNonlinear then (lin * (lin * 1.5)) * curMaxP else lin * curMaxP
  }

  /** A ramp value in [0, 1] gives a non-negative probability, at most curMaxP in linear mode. */
  lemma RampPRange(lin: real, isNonlinear: bool, curMaxP: real)
    requires 0.0 <= lin <= 1.0 && 0.0 <= curMaxP
    ensures 0.0 <= RampP(lin, isNonlinear, curMaxP)
    ensures !isNonlinear ==> RampP(lin, isNonlinear, curMaxP) <= curMaxP
  {
    ScaleUnit(lin, curMaxP);
    MulNonneg(lin, lin * 1.5);
    MulNonneg(lin * (lin * 1.5), curMaxP);
  }

  /** CalculatePNew: the base drop probability.  Gentle mode above maxTh follows the
      gentle ramp, non-gentle mode above maxTh gives 1, otherwise the linear ramp
      (squared and scaled by 1.5 in nonlinear mode) times curMaxP.  Clamped above at 1 only. */
  function CalculatePNew(c: Coeffs, isGentle: bool, isNonlinear: bool, maxTh: real, qAvg: real, curMaxP: real): (p: real)
    ensures p <= 1.0
    ensures !isGentle && qAvg >= maxTh ==> p == 1.0
  {
    var raw :=
      if isGentle && qAvg >= maxTh then c.vC * qAvg + c.vD
      else if !isGentle && qAvg >= maxTh then 1.0
      else RampP(c.vA * qAvg + c.vB, isNonlinear, curMaxP);
    if raw > 1.0 then 1.0 else raw
  }

  /** On the ramp between the thresholds, with the initial coefficients, the base
      probability lies in [0, 1] and, in linear mode, never exceeds curMaxP. */
  lemma CalculatePNewRamp(minTh: real, maxTh: real, maxP0: real, isGentle: bool, isNonlinear: bool, qAvg: real, curMaxP: real)
    requires minTh <= qAvg < maxTh && 0.0 < maxTh
    requires 0.0 <= curMaxP
    ensures 0.0 <= CalculatePNew(InitCoeffs(minTh, maxTh, maxP0), isGentle, isNonlinear, maxTh, qAvg, curMaxP) <= 1.0
    ensures !isNonlinear ==>
              CalculatePNew(InitCoeffs(minTh, maxTh, maxP0), isGentle, isNonlinear, maxTh, qAvg, curMaxP) <= curMaxP
  {
    var c := InitCoeffs(minTh, maxTh, maxP0);
    RampUnit(c.vA, c.vB, minTh, maxTh, qAvg);
    RampPRange(c.vA * qAvg + c.vB, isNonlinear, curMaxP);
  }

  /** Above maxTh in gentle mode, with the initial coefficients, the base probability is
      at least the initial max_p (capped at 1), and exactly 1 from 2 maxTh on. */
  lemma CalculatePNewGentle(minTh: real, maxTh: real, maxP0: real, isNonlinear: bool, qAvg: real, curMaxP: real)
    requires minTh <= maxTh && 0.0 < maxTh
    requires 0.0 <= maxP0 <= 1.0
    requires maxTh <= qAvg
    ensures Min(maxP0, 1.0) <= CalculatePNew(InitCoeffs(minTh, maxTh, maxP0), true, isNonlinear, maxTh, qAvg, curMaxP) <= 1.0
    ensures 2.0 * maxTh <= qAvg ==>
              CalculatePNew(InitCoeffs(minTh, maxTh, maxP0), true, isNonlinear, maxTh, qAvg, curMaxP) == 1.0
  {
    var c := InitCoeffs(minTh, maxTh, maxP0);
    MulMonoLeft(c.vC, maxTh, qAvg);
    if 2.0 * maxTh <= qAvg {
      MulMonoLeft(c.vC, 2.0 * maxTh, qAvg);
    }
  }

  /** The number of arrivals since the last drop/mark used by ModifyP: the packet
      count, or in byte mode the byte count integer-divided by the mean packet size. */
  function SinceLast(count: nat, countBytes: nat, meanPktSize: nat, byteMode: bool): nat
    requires meanPktSize > 0
  {
    if byteMode then countBytes / meanPktSize else count
  }

  /** The derandomisation step of ModifyP for c arrivals since the last drop.  Wait mode:
      0 while c p < 1, p / (2 - c p) while c p < 2, else 1.  Non-wait mode: p / (1 - c p)
      while c p < 1, else 1. */
  function Derandomise(p: real, c: real, isWait: bool): real
  {
    if isWait then
      if c * p < 1.0 then 0.0
      else if c * p < 2.0 then p / (2.0 - c * p)
      else 1.0
    else if c * p < 1.0 then p / (1.0 - c * p)
    else 1.0
  }

  /** Dividing a non-negative value by a divisor in (0, 1] does not decrease it. */
  lemma DivUnitGrows(p: real, d: real)
    requires 0.0 <= p && 0.0 < d <= 1.0
    ensures p <= p / d
  {
    var q := p / d;
    assert q * d == p;
    assert 0.0 <= q;
    MulMonoLeft(q, d, 1.0);
  }

  /** Derandomisation keeps a non-negative probability non-negative, spaces drops in wait
      mode (nothing while c p < 1), saturates at c p >= 2 (wait) or c p >= 1 (non-wait),
      and never lowers a probability in [0, 1] once it acts. */
  lemma DerandomiseRange(p: real, c: real, isWait: bool)
    requires 0.0 <= p && 0.0 <= c
    ensures 0.0 <= Derandomise(p, c, isWait)
    ensures isWait && c * p < 1.0 ==> Derandomise(p, c, isWait) == 0.0
    ensures p <= 1.0 && (!isWait || c * p >= 1.0) ==> p <= Derandomise(p, c, isWait)
    ensures c * p >= (if isWait then 2.0 else 1.0) ==> Derandomise(p, c, isWait) == 1.0
  {
    MulNonneg(c, p);
    if isWait && 1.0 <= c * p < 2.0 {
      DivUnitGrows(p, 2.0 - c * p);
    } else if !isWait && c * p < 1.0 {
      DivUnitGrows(p, 1.0 - c * p);
    }
  }

  /** ModifyP: derandomisation of the base probability p by the count since the last
      drop; byte mode then scales a result below 1 by size / meanPktSize.  The result
      never exceeds 1. */
  function ModifyP(p: real, count: nat, countBytes: nat, meanPktSize: nat, isWait: bool, byteMode: bool, size: nat): (r: real)
    requires meanPktSize > 0
    ensures r <= 1.0
  {
    var q := Derandomise(p, SinceLast(count, countBytes, meanPktSize, byteMode) as real, isWait);
    var s := if byteMode && q < 1.0 then (q * size as real) / meanPktSize as real else q;
    if s > 1.0 then 1.0 else s
  }

  /** ModifyP gives a probability for a probability input; wait mode spaces drops (nothing
      until c p reaches 1) and saturates at c p >= 2; in packet mode derandomisation only
      amplifies once it acts (non-wait from the start, wait from c p >= 1), up to 1. */
  lemma ModifyPRange(p: real, count: nat, countBytes: nat, meanPktSize: nat, isWait: bool, byteMode: bool, size: nat)
    requires meanPktSize > 0 && 0.0 <= p <= 1.0
    ensures 0.0 <= ModifyP(p, count, countBytes, meanPktSize, isWait, byteMode, size) <= 1.0
    ensures isWait && (SinceLast(count, countBytes, meanPktSize, byteMode) as real) * p < 1.0 ==>
              ModifyP(p, count, countBytes, meanPktSize, isWait, byteMode, size) == 0.0
    ensures !byteMode && (!isWait || (count as real) * p >= 1.0) ==>
              p <= ModifyP(p, count, countBytes, meanPktSize, isWait, byteMode, size)
    ensures !byteMode && (count as real) * p >= (if isWait then 2.0 else 1.0) ==>
              ModifyP(p, count, countBytes, meanPktSize, isWait, byteMode, size) == 1.0
  {
    var c := SinceLast(count, countBytes, meanPktSize, byteMode) as real;
    DerandomiseRange(p, c, isWait);
    var q := Derandomise(p, c, isWait);
    MulNonneg(q, size as real);
    assert 0.0 <= (q * size as real) / meanPktSize as real;
  }

  // ---------------------------------------------------------------- one arrival

  /** Everything an arrival needs from outside the disc: its size, the truncated
      ptc * (now - idleTime) count of virtual idle arrivals, the clock, the uniform
      draw, whether ECN Mark() succeeds, and whether the DropTail queue accepts it. */
  datatype Arrival = Arrival(size: nat, idleArrivals: nat, now: int, u: real, markOk: bool, fits: bool)

  /** The state, queue and events after one DoEnqueue, its classification and verdict. */
  datatype Outcome = Outcome(state: AqmState, queue: seq<nat>, events: seq<Event>, dropType: DropType, accepted: bool)

  /** nQueued: the internal queue's current size in the configured unit. */
  function Occupancy(p: Params, q: seq<nat>): nat
  {
    if p.byteMode then Sum(q) else |q|
  }

  /** The forced region: at or above maxTh, or at or above 2 maxTh in gentle mode. */
  predicate Forced(p: Params, qAvg: real)
  {
    (!p.isGentle && qAvg >= p.maxTh) || (p.isGentle && qAvg >= 2.0 * p.maxTh)
  }

  /** The samples the average takes at an arrival: the virtual idle arrivals when the
      disc was idle, plus this arrival. */
  function Samples(s: AqmState, a: Arrival): nat
  {
    (if s.idle then a.idleArrivals else 0) + 1
  }

  /** The first half of DoEnqueue: idleness ends, the average is re-estimated (with
      any curMaxP adaptation) and both counters count this arrival. */
  function Arrive(p: Params, s: AqmState, q: seq<nat>, a: Arrival): (c: AqmState)
    requires WellFormed(p)
  {
    var e := Estimator(p, s.(idle := false), Occupancy(p, q), Samples(s, a), a.now);
    e.(count := s.count + 1, countBytes := s.countBytes + a.size)
  }

  /** DropEarly without cautious mode: the state with the new vProb (and counters reset
      on a drop), and whether the draw u asks for a drop. */
  function EarlyDrop(p: Params, c: AqmState, size: nat, u: real): (r: (AqmState, bool))
    requires WellFormed(p)
  {
    var prob1 := CalculatePNew(p.coeffs, p.isGentle, p.isNonlinear, p.maxTh, c.qAvg, c.curMaxP);
    var vProb := ModifyP(prob1, c.count, c.countBytes, p.meanPktSize, p.isWait, p.byteMode, size);
    if u <= vProb then (c.(vProb := vProb, count := 0, countBytes := 0), true)
    else (c.(vProb := vProb), false)
  }

  /** DropEarly drops exactly when the draw is at most the probability it stores, resets
      both counters exactly then, and changes nothing but vProb and the counters. */
  lemma EarlyDropSpec(p: Params, c: AqmState, size: nat, u: real)
    requires WellFormed(p)
    ensures var r := EarlyDrop(p, c, size, u);
            && (r.1 <==> u <= r.0.vProb)
            && r.0.vProb <= 1.0
            && (r.1 ==> r.0.count == 0 && r.0.countBytes == 0)
            && (!r.1 ==> r.0.count == c.count && r.0.countBytes == c.countBytes)
            && r.0 == c.(vProb := r.0.vProb, count := r.0.count, countBytes := r.0.countBytes)
  {
  }

  /** The classification step of DoEnqueue on the state after Arrive, with nQueued
      the occupancy seen on arrival. */
  function Classify(p: Params, c: AqmState, nQueued: nat, a: Arrival): (r: (AqmState, DropType))
    requires WellFormed(p)
  {
    if c.qAvg >= p.minTh && nQueued > 1 then
      if Forced(p, c.qAvg) then (c, DtypeForced)
      else if !c.crossed then (c.(count := 1, countBytes := a.size, crossed := true), DtypeNone)
      else
        var e := EarlyDrop(p, c, a.size, a.u);
        (e.0, if e.1 then DtypeUnforced else DtypeNone)
    else
      (c.(vProb := 0.0, crossed := false), DtypeNone)
  }

  /** Hand an admitted (or marked) packet to the internal DropTail queue. */
  function Admit(s: AqmState, q: seq<nat>, a: Arrival, ev: seq<Event>, dt: DropType): (o: Outcome)
  {
    if a.fits then Outcome(s, q + [a.size], ev, dt, true)
    else Outcome(s, q, ev + [RefusedByQueue(a.size)], dt, false)
  }

  /** The second half of DoEnqueue: a drop, a mark or nothing according to the
      classification, then the internal queue for whatever is not dropped. */
  function Act(p: Params, c: AqmState, dt: DropType, q: seq<nat>, a: Arrival): (o: Outcome)
  {
    match dt
    case DtypeUnforced =>
      if !p.useEcn || !a.markOk then Outcome(c, q, [Dropped(UnforcedDrop, a.size)], dt, false)
      else Admit(c, q, a, [Marked(UnforcedMark, a.size)], dt)
    case DtypeForced =>
      if p.useHardDrop || !p.useEcn || !a.markOk then
        var d := if p.isNs1Compat then c.(count := 0, countBytes := 0) else c;
        Outcome(d, q, [Dropped(ForcedDrop, a.size)], dt, false)
      else Admit(c, q, a, [Marked(ForcedMark, a.size)], dt)
    case DtypeNone =>
      Admit(c, q, a, [], dt)
  }

  /** What Act reports: no drop type logs no drop or mark; a forced or unforced one logs
      exactly one drop or mark first, forced ones with a forced reason and unforced ones with
      an unforced reason, followed at most by the DropTail queue's refusal; a dropped packet
      is not queued, a marked one is queued exactly when the DropTail queue takes it. */
  lemma ActReasons(p: Params, c: AqmState, dt: DropType, q: seq<nat>, a: Arrival)
    ensures var o := Act(p, c, dt, q, a);
            && o.dropType == dt
            && (dt == DtypeNone ==> NoAqmEvent(o.events) && (o.accepted <==> a.fits))
            && (dt != DtypeNone ==>
                  && |o.events| >= 1 && !o.events[0].RefusedByQueue?
                  && (o.events[0].reason in {ForcedDrop, ForcedMark} <==> dt == DtypeForced)
                  && (o.events[0].reason in {UnforcedDrop, UnforcedMark} <==> dt == DtypeUnforced)
                  && (forall k :: 1 <= k < |o.events| ==> o.events[k].RefusedByQueue?)
                  && (o.events[0].Dropped? ==> !o.accepted && o.queue == q)
                  && (o.events[0].Marked? ==> (o.accepted <==> a.fits)))
  {
  }

  /** DoEnqueue of BLACK, as a function of the configuration, the state before the
      arrival, the internal queue and the arrival. */
  function Enqueue(p: Params, s: AqmState, q: seq<nat>, a: Arrival): Outcome
    requires WellFormed(p)
  {
    var r := Classify(p, Arrive(p, s, q, a), Occupancy(p, q), a);
    Act(p, r.0, r.1, q, a)
  }

  /** True when no drop or mark event appears, only possibly a refusal by the DropTail queue. */
  predicate NoAqmEvent(ev: seq<Event>)
  {
    forall i :: 0 <= i < |ev| ==> ev[i].RefusedByQueue?
  }

  /** What one arrival does: the average is updated exactly once with the idle compensation
      and idleness ends; the packet is queued exactly when accepted; below minTh (or with at
      most one packet queued) nothing is dropped or marked and the early-drop tracking resets;
      in the forced region the packet is dropped unless ECN marking is allowed and succeeds,
      the counters restarting only in ns-1 compatibility; the first crossing admits without a
      draw and restarts the counters at this packet; in the early region an unforced drop or
      mark happens exactly when the draw is at most the modified probability. */
  lemma EnqueueSpec(p: Params, s: AqmState, q: seq<nat>, a: Arrival)
    requires WellFormed(p)
    ensures var o := Enqueue(p, s, q, a);
            && o.state.qAvg == Ewma(s.qAvg, p.qW, Samples(s, a), Occupancy(p, q))
            && !o.state.idle && o.state.idleTime == s.idleTime
            && (o.accepted ==> o.queue == q + [a.size])
            && (!o.accepted ==> o.queue == q)
    ensures var o := Enqueue(p, s, q, a);
            o.state.qAvg < p.minTh || Occupancy(p, q) <= 1 ==>
              o.dropType == DtypeNone && NoAqmEvent(o.events) && o.state.vProb == 0.0 && !o.state.crossed
    ensures var o := Enqueue(p, s, q, a);
            o.state.qAvg >= p.minTh && Occupancy(p, q) > 1 && Forced(p, o.state.qAvg) ==>
              && o.dropType == DtypeForced
              && |o.events| >= 1
              && (o.events[0] == Dropped(ForcedDrop, a.size) <==> (p.useHardDrop || !p.useEcn || !a.markOk))
              && (o.events[0] == Marked(ForcedMark, a.size) <==> !(p.useHardDrop || !p.useEcn || !a.markOk))
              && (o.events[0].Dropped? ==> !o.accepted && o.state.count == (if p.isNs1Compat then 0 else s.count + 1))
    ensures var o := Enqueue(p, s, q, a);
            o.state.qAvg >= p.minTh && Occupancy(p, q) > 1 && !Forced(p, o.state.qAvg) && !s.crossed ==>
              && o.dropType == DtypeNone && NoAqmEvent(o.events)
              && o.state.count == 1 && o.state.countBytes == a.size && o.state.crossed
    ensures var o := Enqueue(p, s, q, a);
            o.state.qAvg >= p.minTh && Occupancy(p, q) > 1 && !Forced(p, o.state.qAvg) && s.crossed ==>
              && o.state.crossed
              && (o.dropType == DtypeUnforced <==> a.u <= o.state.vProb)
              && (o.dropType == DtypeUnforced ==> o.state.count == 0 && o.state.countBytes == 0)
              && (o.dropType == DtypeUnforced ==>
                    (|o.events| >= 1 && (o.events[0] == Dropped(UnforcedDrop, a.size) <==> (!p.useEcn || !a.markOk))))
              && (o.dropType == DtypeNone ==> NoAqmEvent(o.events))
    ensures var o := Enqueue(p, s, q, a);
            && (o.dropType == DtypeNone <==> NoAqmEvent(o.events))
            && (o.dropType == DtypeForced ==>
                  |o.events| >= 1 && !o.events[0].RefusedByQueue? && o.events[0].reason in {ForcedDrop, ForcedMark})
            && (o.dropType == DtypeUnforced ==>
                  |o.events| >= 1 && !o.events[0].RefusedByQueue? && o.events[0].reason in {UnforcedDrop, UnforcedMark})
  {
  }
}
