/** The BLACK queue disc as the object the simulator drives: the fields set by
    the user through attributes, the fields the disc maintains, the internal
    DropTail FIFO (as packet sizes) and a ghost log of what the statistics
    collaborator is told.  Each mutating method is proved against the pure
    definitions of BlackAqm. */
module BlackDisc {
  import opened Common
  import opened BlackAqm

  /** The user-supplied attributes of the disc (time in nanoseconds). */
  datatype Settings = Settings(
    meanPktSize: nat,
    isWait: bool,
    isGentle: bool,
    isABlack: bool,
    isAdaptMaxP: bool,
    isFengAdaptive: bool,
    isNonlinear: bool,
    isNs1Compat: bool,
    useEcn: bool,
    useHardDrop: bool,
    byteMode: bool,
    minTh: real,
    maxTh: real,
    qW: real,
    lInterm: real,
    interval: int,
    top: real,
    bottom: real,
    alpha: real,
    beta: real,
    fengA: real,
    fengB: real)

  /** The attribute defaults: 500-byte mean packet, wait and gentle on, thresholds 5
      and 15, a 25-packet limit (packet mode), qW 0.002, lInterm 50, a 0.5 s interval,
      top 0.5, bottom 0 (derived later), alpha 0.01, beta 0.9, Feng a = 3, b = 2,
      hard drop on, everything else off. */
  function DefaultSettings(): (s: Settings)
    ensures s.meanPktSize > 0 && s.minTh <= s.maxTh && s.lInterm != 0.0 && s.fengA != 0.0
    ensures 0.0 <= s.top <= 1.0 && 0.0 <= s.bottom <= 1.0 && 0.0 <= s.alpha <= 1.0 && 0.0 <= s.beta <= 1.0
    ensures s.maxTh >= 2.0 * s.minTh
  {
    Settings(500, true, true, false, false, false, false, false, false, true, false,
             5.0, 15.0, 0.002, 50.0, 500_000_000, 0.5, 0.0, 0.01, 0.9, 3.0, 2.0)
  }

  /** The thresholds chosen automatically (both user thresholds zero, or adaptive BLACK):
      minTh = max(5, targetQueue / 2), scaled by the mean packet size in byte mode,
      and maxTh = 3 minTh. */
  function AutoThresholds(targetQueue: real, meanPktSize: nat, byteMode: bool): (r: (real, real))
    requires meanPktSize > 0
    ensures 0.0 < r.0 <= r.1 && r.1 == 3.0 * r.0
    ensures !byteMode ==> 5.0 <= r.0 && targetQueue / 2.0 <= r.0 && (r.0 == 5.0 || r.0 == targetQueue / 2.0)
    ensures byteMode ==> r.0 == Max(5.0, targetQueue / 2.0) * meanPktSize as real
  {
    var m := if 5.0 < targetQueue / 2.0 then targetQueue / 2.0 else 5.0;
    var t := if byteMode then m * meanPktSize as real else m;
    MulPositive(m, meanPktSize as real);
    (t, 3.0 * t)
  }

  lemma MulPositive(a: real, b: real)
    requires 0.0 < a && 1.0 <= b
    ensures a <= a * b
  {
    MulMonoLeft(a, 1.0, b);
  }

  /** The queue-disc-level configuration check.  It fails with classes or packet filters,
      adds the DropTail queue when there is none, and fails unless exactly one internal
      queue results.  Conflicting adaptive modes are only reported, never rejected. */
  datatype ConfigCheck = ConfigCheck(ok: bool, internalQueues: nat, modeConflictReported: bool)

  function CheckConfig(nClasses: nat, nFilters: nat, nInternalQueues: nat,
                       isABlack: bool, isAdaptMaxP: bool, isFengAdaptive: bool): (r: ConfigCheck)
    ensures r.ok <==> nClasses == 0 && nFilters == 0 && nInternalQueues <= 1
    ensures nClasses == 0 && nFilters == 0 ==> r.internalQueues == (if nInternalQueues == 0 then 1 else nInternalQueues)
    ensures nClasses > 0 || nFilters > 0 ==> r.internalQueues == nInternalQueues
    ensures r.modeConflictReported <==> r.ok && (isABlack || isAdaptMaxP) && isFengAdaptive
  {
    if nClasses > 0 then ConfigCheck(false, nInternalQueues, false)
    else if nFilters > 0 then ConfigCheck(false, nInternalQueues, false)
    else
      var n := if nInternalQueues == 0 then 1 else nInternalQueues;
      if n != 1 then ConfigCheck(false, n, false)
      else ConfigCheck(true, n, (isABlack || isAdaptMaxP) && isFengAdaptive)
  }

  /** The queue weights 0, -1 and -2 ask InitializeParams to choose the weight itself. */
  predicate Unset(qW: real)
  {
    qW == 0.0 || qW == -1.0 || qW == -2.0
  }

  /** InitializeParams, first block: adaptive BLACK clears both thresholds and the weight
      (so that they are chosen automatically) and turns max_p adaptation on. */
  function WithModes(p: Params, isABlack: bool): Params
  {
    if isABlack then p.(minTh := 0.0, maxTh := 0.0, qW := 0.0, isAdaptMaxP := true) else p
  }

  /** InitializeParams, second block: both thresholds zero means automatic ones. */
  function WithThresholds(p: Params, targetQueue: real): Params
    requires p.meanPktSize > 0
  {
    if p.minTh == 0.0 && p.maxTh == 0.0 then
      var th := AutoThresholds(targetQueue, p.meanPktSize, p.byteMode);
      p.(minTh := th.0, maxTh := th.1)
    else p
  }

  /** InitializeParams, third block: the ramp coefficients for the initial max_p (the
      gentle pair only in gentle mode). */
  function WithCoefficients(p: Params, maxP: real): Params
    requires p.minTh <= p.maxTh && 0.0 < p.maxTh
  {
    var c := InitCoeffs(p.minTh, p.maxTh, maxP);
    p.(coeffs := if p.isGentle then c else c.(vC := p.coeffs.vC, vD := p.coeffs.vD))
  }

  /** InitializeParams, last block: the sentinel weights take defaultQW and a zero bottom
      becomes min(0.01, bottomBound). */
  function WithWeights(p: Params, defaultQW: real, bottomBound: real): Params
  {
    p.(qW := if Unset(p.qW) then defaultQW else p.qW,
       bottom := if p.bottom == 0.0 then Min(0.01, bottomBound) else p.bottom)
  }

  /** What InitializeParams asks of the attributes: a non-negative minTh, ordered thresholds
      unless adaptive BLACK replaces them, a positive mean packet size, non-zero divisors and
      the attribute ranges. */
  predicate Initializable(p: Params, isABlack: bool, lInterm: real, bottomBound: real)
  {
    && 0.0 <= p.minTh && (isABlack || p.minTh <= p.maxTh)
    && p.meanPktSize > 0 && lInterm != 0.0 && p.fengA != 0.0 && 0.0 <= bottomBound
    && 0.0 <= p.top <= 1.0 && 0.0 <= p.bottom <= 1.0
    && 0.0 <= p.alpha <= 1.0 && 0.0 <= p.beta <= 1.0
  }

  /** The first two blocks of InitializeParams choose the automatic thresholds exactly
      when adaptive BLACK is on or both were zero, and keep the user's otherwise; adaptive
      BLACK also turns max_p adaptation on and clears the weight; nothing else changes. */
  lemma {:induction false} ThresholdsSpec(p: Params, isABlack: bool, targetQueue: real)
    requires p.meanPktSize > 0
    ensures var t := WithThresholds(WithModes(p, isABlack), targetQueue);
            && (t.minTh, t.maxTh) == (if isABlack || (p.minTh == 0.0 && p.maxTh == 0.0)
                                      then AutoThresholds(targetQueue, p.meanPktSize, p.byteMode)
                                      else (p.minTh, p.maxTh))
            && t.isAdaptMaxP == (p.isAdaptMaxP || isABlack)
            && t.qW == (if isABlack then 0.0 else p.qW)
            && t == p.(isAdaptMaxP := t.isAdaptMaxP, minTh := t.minTh, maxTh := t.maxTh, qW := t.qW)
  {
    if !isABlack {
      assert WithModes(p, isABlack) == p;
    }
  }

  /** The thresholds the first two blocks leave are ordered, with a positive maxTh. */
  lemma {:induction false} ThresholdsOrdered(p: Params, isABlack: bool, targetQueue: real)
    requires 0.0 <= p.minTh && (isABlack || p.minTh <= p.maxTh) && p.meanPktSize > 0
    ensures var t := WithThresholds(WithModes(p, isABlack), targetQueue);
            t.minTh <= t.maxTh && 0.0 < t.maxTh
  {
    ThresholdsSpec(p, isABlack, targetQueue);
  }

  /** The configuration InitializeParams leaves: the four blocks in order. */
  function Initialized(p: Params, isABlack: bool, lInterm: real, targetQueue: real,
                       defaultQW: real, bottomBound: real): Params
    requires Initializable(p, isABlack, lInterm, bottomBound)
  {
    ThresholdsOrdered(p, isABlack, targetQueue);
    var t := WithThresholds(WithModes(p, isABlack), targetQueue);
    WithWeights(WithCoefficients(t, 1.0 / lInterm), defaultQW, bottomBound)
  }

  /** The per-packet state InitializeParams leaves: an empty history and an initial max_p of
      1 / lInterm; Feng's adaptation starts in the Above status. */
  function InitialState(s: AqmState, isFengAdaptive: bool, lInterm: real): AqmState
    requires lInterm != 0.0
  {
    s.(fengStatus := if isFengAdaptive then Above else s.fengStatus,
       qAvg := 0.0, count := 0, countBytes := 0, crossed := false, idle := true, idleTime := 0,
       curMaxP := 1.0 / lInterm)
  }

  /** After InitializeParams the configuration is well formed; the thresholds are the
      automatic ones exactly when adaptive BLACK is on or both were zero, and the user's
      otherwise; adaptive BLACK turns max_p adaptation on; the weight is the default one
      under adaptive BLACK or when a sentinel was given; a zero bottom is replaced; no other
      attribute changes. */
  lemma {:induction false} InitializedSpec(p: Params, isABlack: bool, lInterm: real, targetQueue: real,
                                           defaultQW: real, bottomBound: real)
    requires Initializable(p, isABlack, lInterm, bottomBound)
    ensures var r := Initialized(p, isABlack, lInterm, targetQueue, defaultQW, bottomBound);
            && WellFormed(r)
            && (r.minTh, r.maxTh) == (if isABlack || (p.minTh == 0.0 && p.maxTh == 0.0)
                                      then AutoThresholds(targetQueue, p.meanPktSize, p.byteMode)
                                      else (p.minTh, p.maxTh))
            && r.isAdaptMaxP == (p.isAdaptMaxP || isABlack)
            && r.qW == (if isABlack || Unset(p.qW) then defaultQW else p.qW)
            && r.bottom == (if p.bottom == 0.0 then Min(0.01, bottomBound) else p.bottom)
            && r == p.(isAdaptMaxP := r.isAdaptMaxP, minTh := r.minTh, maxTh := r.maxTh,
                       qW := r.qW, bottom := r.bottom, coeffs := r.coeffs)
  {
    ThresholdsSpec(p, isABlack, targetQueue);
    ThresholdsOrdered(p, isABlack, targetQueue);
  }

  /** The Params record the attributes give before InitializeParams (coefficients zero). */
  function Attributes(s: Settings): (p: Params)
    ensures p.minTh == s.minTh && p.maxTh == s.maxTh && p.qW == s.qW && p.bottom == s.bottom
    ensures p.isAdaptMaxP == s.isAdaptMaxP && p.byteMode == s.byteMode && p.coeffs == Coeffs(0.0, 0.0, 0.0, 0.0)
  {
    Params(s.meanPktSize, s.isWait, s.isGentle, s.isAdaptMaxP, s.isFengAdaptive, s.isNonlinear, s.isNs1Compat,
           s.useEcn, s.useHardDrop, s.byteMode, s.minTh, s.maxTh, s.qW, s.interval, s.top, s.bottom,
           s.alpha, s.beta, s.fengA, s.fengB, Coeffs(0.0, 0.0, 0.0, 0.0))
  }

  /** The disc as the simulator drives it.  The C++ member variables are grouped: `params`
      holds the user-supplied ones and the coefficients derived from them, `state` the ones
      the per-packet code maintains (m_old is `crossed`, m_idle is `idle`); `isABlack` and
      `lInterm` are only read by InitializeParams.  `queue` is the internal DropTail FIFO as
      the sizes of its packets, head first, and `log` what the statistics collaborator is told. */
  class BlackQueueDisc {
    var isABlack: bool
    var lInterm: real
    var params: Params
    var state: AqmState
    var queue: seq<nat>
    ghost var log: seq<Event>

    /** What the per-packet arithmetic needs of the configuration. */
    predicate Valid()
      reads this
    {
      WellFormed(params)
    }

    /** A disc with the given attributes; the maintained variables start zeroed, idle. */
    constructor(s: Settings)
      ensures isABlack == s.isABlack && lInterm == s.lInterm && params == Attributes(s)
      ensures state == AqmState(0.0, 0.0, 0, Above, 0.0, 0, 0, false, true, 0)
      ensures queue == [] && log == []
    {
      isABlack := s.isABlack;
      lInterm := s.lInterm;
      params := Attributes(s);
      state := AqmState(0.0, 0.0, 0, Above, 0.0, 0, 0, false, true, 0);
      queue := [];
      log := [];
    }

    /** SetTh: both thresholds at once; the source asserts minTh <= maxTh. */
    method SetTh(newMinTh: real, newMaxTh: real)
      requires newMinTh <= newMaxTh
      modifies this
      ensures params == old(params).(minTh := newMinTh, maxTh := newMaxTh)
      ensures state == old(state) && queue == old(queue) && log == old(log)
      ensures isABlack == old(isABlack) && lInterm == old(lInterm)
    {
      params := params.(minTh := newMinTh, maxTh := newMaxTh);
    }

    /** InitializeParams, first block, with Feng's status initialised. */
    method InitializeModes()
      modifies this
      ensures isABlack == old(isABlack) && lInterm == old(lInterm) && queue == old(queue) && log == old(log)
      ensures params == WithModes(old(params), isABlack)
      ensures state == if params.isFengAdaptive then old(state).(fengStatus := Above) else old(state)
    {
      if isABlack {
        params := params.(minTh := 0.0, maxTh := 0.0, qW := 0.0, isAdaptMaxP := true);
      }
      if params.isFengAdaptive {
        state := state.(fengStatus := Above);
      }
    }

    /** InitializeParams, second block. */
    method InitializeThresholds(targetQueue: real)
      requires params.meanPktSize > 0
      modifies this
      ensures isABlack == old(isABlack) && lInterm == old(lInterm) && queue == old(queue) && log == old(log)
      ensures state == old(state)
      ensures params == WithThresholds(old(params), targetQueue)
    {
      if params.minTh == 0.0 && params.maxTh == 0.0 {
        var th := AutoThresholds(targetQueue, params.meanPktSize, params.byteMode);
        params := params.(minTh := th.0, maxTh := th.1);
      }
    }

    /** InitializeParams, third block, with the resets of the per-packet state. */
    method InitializeCoefficients()
      requires params.minTh <= params.maxTh && 0.0 < params.maxTh && lInterm != 0.0
      modifies this
      ensures isABlack == old(isABlack) && lInterm == old(lInterm) && queue == old(queue) && log == old(log)
      ensures params == WithCoefficients(old(params), 1.0 / lInterm)
      ensures state == old(state).(qAvg := 0.0, count := 0, countBytes := 0, crossed := false, idle := true,
                                   idleTime := 0, curMaxP := 1.0 / lInterm)
    {
      state := state.(qAvg := 0.0, count := 0, countBytes := 0, crossed := false, idle := true);
      state := state.(curMaxP := 1.0 / lInterm);
      var c := InitCoeffs(params.minTh, params.maxTh, state.curMaxP);
      if !params.isGentle {
        c := c.(vC := params.coeffs.vC, vD := params.coeffs.vD);
      }
      params := params.(coeffs := c);
      state := state.(idleTime := 0);
    }

    /** InitializeParams, last block. */
    method InitializeWeights(defaultQW: real, bottomBound: real)
      modifies this
      ensures isABlack == old(isABlack) && lInterm == old(lInterm) && queue == old(queue) && log == old(log)
      ensures state == old(state)
      ensures params == WithWeights(old(params), defaultQW, bottomBound)
    {
      var w := params.qW;
      if Unset(w) {
        w := defaultQW;
      }
      var b := params.bottom;
      if b == 0.0 {
        b := 0.01;
        if bottomBound < b {
          b := bottomBound;
        }
      }
      params := params.(qW := w, bottom := b);
    }

    /** InitializeParams without its logging and cautious mode.  targetQueue stands for
        targetDelay * ptc, defaultQW for the value the exp-based rules give to the sentinel
        weights, bottomBound for the delay-bandwidth bound on bottom. */
    method InitializeParams(targetQueue: real, defaultQW: real, bottomBound: real)
      requires Initializable(params, isABlack, lInterm, bottomBound)
      modifies this
      ensures isABlack == old(isABlack) && lInterm == old(lInterm) && queue == old(queue) && log == old(log)
      ensures params == Initialized(old(params), isABlack, lInterm, targetQueue, defaultQW, bottomBound)
      ensures state == InitialState(old(state), params.isFengAdaptive, lInterm)
      ensures Valid()
    {
      InitializeModes();
      InitializeThresholds(targetQueue);
      InitializeCoefficients();
      InitializeWeights(defaultQW, bottomBound);
      InitializedSpec(old(params), isABlack, lInterm, targetQueue, defaultQW, bottomBound);
    }

    /** UpdateMaxPFeng: Feng's rule applied to the disc's variables. */
    method UpdateMaxPFeng(newAve: real)
      requires Valid()
      modifies this
      ensures params == old(params) && queue == old(queue) && log == old(log)
      ensures (state.fengStatus, state.curMaxP) ==
                BlackAqm.UpdateMaxPFeng(params, old(state.fengStatus), old(state.curMaxP), newAve)
      ensures state == old(state).(fengStatus := state.fengStatus, curMaxP := state.curMaxP)
      ensures isABlack == old(isABlack) && lInterm == old(lInterm)
    {
      if params.minTh < newAve && newAve < params.maxTh {
        state := state.(fengStatus := Between);
      } else if newAve < params.minTh && state.fengStatus != Below {
        state := state.(fengStatus := Below, curMaxP := FengDecrease(state.curMaxP, params.fengA));
      } else if newAve > params.maxTh && state.fengStatus != Above {
        state := state.(fengStatus := Above, curMaxP := FengIncrease(state.curMaxP, params.fengB));
      }
    }

    /** UpdateMaxP: the AIMD rule applied to the disc's variables at time now. */
    method UpdateMaxP(newAve: real, now: int)
      modifies this
      ensures params == old(params) && queue == old(queue) && log == old(log)
      ensures (state.curMaxP, state.lastSet) == BlackAqm.UpdateMaxP(params, old(state.curMaxP), old(state.lastSet), newAve, now)
      ensures state == old(state).(curMaxP := state.curMaxP, lastSet := state.lastSet)
      ensures isABlack == old(isABlack) && lInterm == old(lInterm)
    {
      var part := Margin(params);
      if newAve < params.minTh + part && state.curMaxP > params.bottom {
        state := state.(curMaxP := Decrease(state.curMaxP, params.beta), lastSet := now);
      } else if newAve > params.maxTh - part && params.top > state.curMaxP {
        state := state.(curMaxP := Increase(state.curMaxP, params.alpha), lastSet := now);
      }
    }

    /** Estimator: the new average (returned, not stored) and the adaptation of curMaxP. */
    method Estimator(nQueued: nat, m: nat, now: int) returns (newAve: real)
      requires Valid()
      modifies this
      ensures params == old(params) && queue == old(queue) && log == old(log)
      ensures newAve == Ewma(old(state.qAvg), params.qW, m, nQueued)
      ensures state.(qAvg := newAve) == BlackAqm.Estimator(params, old(state), nQueued, m, now)
      ensures state.qAvg == old(state.qAvg)
      ensures isABlack == old(isABlack) && lInterm == old(lInterm)
    {
      newAve := state.qAvg * Pow(1.0 - params.qW, m);
      newAve := newAve + params.qW * nQueued as real;
      if params.isAdaptMaxP && now > state.lastSet + params.interval {
        UpdateMaxP(newAve, now);
      } else if params.isFengAdaptive {
        UpdateMaxPFeng(newAve);
      }
    }

    /** DropEarly (no cautious mode): 1 exactly when the draw asks for a drop. */
    method DropEarly(size: nat, u: real) returns (r: nat)
      requires Valid()
      modifies this
      ensures params == old(params) && queue == old(queue) && log == old(log)
      ensures r == 0 || r == 1
      ensures (state, r == 1) == EarlyDrop(params, old(state), size, u)
      ensures isABlack == old(isABlack) && lInterm == old(lInterm)
    {
      var prob1 := CalculatePNew(params.coeffs, params.isGentle, params.isNonlinear, params.maxTh,
                                 state.qAvg, state.curMaxP);
      var prob := ModifyP(prob1, state.count, state.countBytes, params.meanPktSize, params.isWait,
                          params.byteMode, size);
      state := state.(vProb := prob);
      if u <= state.vProb {
        state := state.(count := 0, countBytes := 0);
        return 1;
      }
      return 0;
    }

    /** The first half of DoEnqueue: the occupancy seen on arrival, the end of any idle
        period (with the number of packets that could have been sent during it), the
        estimator and the two counters. */
    method Arrive(a: Arrival) returns (nQueued: nat)
      requires Valid()
      modifies this
      ensures params == old(params) && queue == old(queue) && log == old(log)
      ensures isABlack == old(isABlack) && lInterm == old(lInterm)
      ensures nQueued == Occupancy(params, queue)
      ensures state == BlackAqm.Arrive(params, old(state), queue, a)
    {
      nQueued := if params.byteMode then Sum(queue) else |queue|;
      var m := 0;
      if state.idle {
        m := a.idleArrivals;
        state := state.(idle := false);
      }
      var newAve := Estimator(nQueued, m + 1, a.now);
      state := state.(qAvg := newAve, count := state.count + 1, countBytes := state.countBytes + a.size);
    }

    /** The classification step of DoEnqueue, nQueued being the occupancy seen on arrival. */
    method Classify(nQueued: nat, a: Arrival) returns (dropType: DropType)
      requires Valid()
      modifies this
      ensures params == old(params) && queue == old(queue) && log == old(log)
      ensures isABlack == old(isABlack) && lInterm == old(lInterm)
      ensures (state, dropType) == BlackAqm.Classify(params, old(state), nQueued, a)
    {
      dropType := DtypeNone;
      if state.qAvg >= params.minTh && nQueued > 1 {
        if (!params.isGentle && state.qAvg >= params.maxTh) || (params.isGentle && state.qAvg >= 2.0 * params.maxTh) {
          dropType := DtypeForced;
        } else if !state.crossed {
          state := state.(count := 1, countBytes := a.size, crossed := true);
        } else {
          var early := DropEarly(a.size, a.u);
          if early == 1 {
            dropType := DtypeUnforced;
          }
        }
      } else {
        state := state.(vProb := 0.0, crossed := false);
      }
    }

    /** The second half of DoEnqueue: drop, mark or pass, then the internal queue. */
    method Act(dropType: DropType, a: Arrival) returns (accepted: bool)
      modifies this
      ensures params == old(params) && isABlack == old(isABlack) && lInterm == old(lInterm)
      ensures var o := BlackAqm.Act(params, old(state), dropType, old(queue), a);
              state == o.state && queue == o.queue && log == old(log) + o.events && accepted == o.accepted
    {
      if dropType == DtypeUnforced {
        if !params.useEcn || !a.markOk {
          log := log + [Dropped(UnforcedDrop, a.size)];
          return false;
        }
        log := log + [Marked(UnforcedMark, a.size)];
      } else if dropType == DtypeForced {
        if params.useHardDrop || !params.useEcn || !a.markOk {
          log := log + [Dropped(ForcedDrop, a.size)];
          if params.isNs1Compat {
            state := state.(count := 0, countBytes := 0);
          }
          return false;
        }
        log := log + [Marked(ForcedMark, a.size)];
      }
      if a.fits {
        queue := queue + [a.size];
        accepted := true;
      } else {
        log := log + [RefusedByQueue(a.size)];
        accepted := false;
      }
    }

    /** DoEnqueue: one arrival, exactly as the pure Enqueue describes it. */
    method DoEnqueue(a: Arrival) returns (accepted: bool)
      requires Valid()
      modifies this
      ensures params == old(params) && isABlack == old(isABlack) && lInterm == old(lInterm)
      ensures var o := Enqueue(params, old(state), old(queue), a);
              state == o.state && queue == o.queue && log == old(log) + o.events && accepted == o.accepted
    {
      var nQueued := Arrive(a);
      var dropType := Classify(nQueued, a);
      accepted := Act(dropType, a);
    }

    /** DoDequeue at time now: an empty queue starts an idle period; otherwise the head leaves. */
    method DoDequeue(now: int) returns (item: Option<nat>)
      modifies this
      ensures old(queue) == [] ==> item == None && queue == [] && state == old(state).(idle := true, idleTime := now)
      ensures old(queue) != [] ==>
                item == Some(old(queue)[0]) && queue == old(queue)[1..] && state == old(state).(idle := false)
      ensures params == old(params) && log == old(log) && isABlack == old(isABlack) && lInterm == old(lInterm)
    {
      if queue == [] {
        state := state.(idle := true, idleTime := now);
        return None;
      }
      state := state.(idle := false);
      item := Some(queue[0]);
      queue := queue[1..];
    }

    /** DoPeek: the packet DoDequeue would return, nothing changed. */
    method DoPeek() returns (item: Option<nat>)
      ensures item == None <==> queue == []
      ensures item.Some? ==> item.value == queue[0]
    {
      if queue == [] {
        return None;
      }
      return Some(queue[0]);
    }
  }
}
