/**
A sound: some operators side by side, sampled one after the other. Every
sample is one simultaneous step of all its operators, so a run of samples is
the iterated recurrence; and what an operator puts out stays in range.
*/
module FmSound {
  import opened CArith
  import opened FmWave
  import opened FmOperator
  import Env = FmEnvelope

  function NextPhaseTime(phaseTime: int, max: int): int
  {
    if phaseTime + 1 >= max then 0 else phaseTime + 1
  }

  /** One sample of a sound with its operators in the states `m`. */
  ghost function OutputOf(m: Snap, t: Tree, phaseTime: int, volume: int): int
    requires Closed(m) && Known(m, Ops(t))
  {
    CDiv(TotalNext(m, t, phaseTime) * volume, MAX_VOLUME)
  }

  /** `m` with the states of `r` where `r` has one. */
  ghost function Overlay(m: Snap, r: Snap): Snap
  {
    map o | o in m :: if o in r then r[o] else m[o]
  }

  method FetchPhase(first: Op?, ghost t: Tree, ghost m: Snap)
    requires Shape(m, t, first) && Distinct(t) && Ops(t) <= m.Keys && Closed(m) && Matches(m, m.Keys)
    modifies Ops(t)`feedbackVal
    ensures Matches(Fetched(m, Ops(t)), m.Keys)
    ensures Shape(Fetched(m, Ops(t)), t, first)
  {
    hide Feedback, Distinct;
    FetchFeedback(first, t, m, m.Keys);
    SameLinks(m, Fetched(m, Ops(t)), t, first);
  }

  method OperatePhase(first: Op?, phaseTime: int, ghost t: Tree, ghost m: Snap) returns (sum: int)
    requires Shape(m, t, first) && Distinct(t) && Ops(t) <= m.Keys && Matches(m, m.Keys)
    modifies Ops(t)`lastSig, Ops(t)`currentPhase, Ops(t)`eg
    ensures Known(m, Ops(t)) && sum == Total(m, t, phaseTime)
    ensures Matches(Overlay(m, Operated(m, t, phaseTime)), m.Keys)
  {
    hide Total, Operated, Distinct;
    sum := OperateAll(first, phaseTime, t, m);
  }

  lemma {:induction false} StepIsOverlay(m: Snap, t: Tree, phaseTime: int)
    requires Closed(m) && Known(m, Ops(t)) && Ops(t) <= m.Keys
    ensures SampleStep(m, t, phaseTime) == Overlay(Fetched(m, Ops(t)), Stepped(m, t, phaseTime))
  {
    hide Stepped;
  }

  class Sound {
    var operators: Op?
    var phaseTime: int
    var volume: int
    const maxPhaseTime: int

    constructor (maxPhaseTime: int)
      ensures operators == null && phaseTime == 0 && volume == MAX_VOLUME && this.maxPhaseTime == maxPhaseTime
    {
      operators, phaseTime, volume := null, 0, MAX_VOLUME;
      this.maxPhaseTime := maxPhaseTime;
    }

    /** `sound_modulate`: fetch all feedback, then operate all operators. */
    method Modulate(ghost t: Tree, ghost m: Snap) returns (out: int)
      requires Shape(m, t, operators) && Distinct(t) && Ops(t) <= m.Keys
      requires Closed(m) && Matches(m, m.Keys)
      modifies this`phaseTime, Ops(t)`feedbackVal, Ops(t)`lastSig, Ops(t)`currentPhase, Ops(t)`eg
      ensures Known(m, Ops(t)) && Matches(SampleStep(m, t, old(phaseTime)), m.Keys)
      ensures out == OutputOf(m, t, old(phaseTime), volume)
      ensures phaseTime == if operators == null then old(phaseTime) else NextPhaseTime(old(phaseTime), maxPhaseTime)
    {
      hide Total, TotalNext, Operated, Stepped, Feedback, CDiv, Distinct, Matches, Closed, Fetched, Overlay, SampleStep, Shape, Known;
      MatchesKnown(m, m.Keys);
      KnownPart(m, Ops(t));
      if operators == null {
        NullIsLeaf(m, t);
        SilentTree(m, t, phaseTime);
        return 0;
      }
      FetchPhase(operators, t, m);
      ghost var m1 := Fetched(m, Ops(t));
      FetchedIsKnown(m, Ops(t), t);
      FetchThenOperate(m, Ops(t), t, phaseTime);
      StepIsOverlay(m, t, phaseTime);
      out := OperatePhase(operators, phaseTime, t, m1);
      phaseTime := phaseTime + 1;
      if phaseTime >= maxPhaseTime {
        phaseTime := 0;
      }
      out := CDiv(out * volume, MAX_VOLUME);
    }

    /** Several samples in a row, one frame each. */
    method Render(frames: nat, ghost t: Tree, ghost m: Snap) returns (samples: seq<int>)
      requires Shape(m, t, operators) && t.Node? && Distinct(t) && Ops(t) <= m.Keys
      requires Closed(m) && Matches(m, m.Keys)
      modifies this`phaseTime, Ops(t)`feedbackVal, Ops(t)`lastSig, Ops(t)`currentPhase, Ops(t)`eg
      ensures Known(m, m.Keys)
      ensures samples == RunOutputs(m, t, old(phaseTime), maxPhaseTime, volume, frames)
      ensures Matches(RunStates(m, t, old(phaseTime), maxPhaseTime, frames), m.Keys)
    {
      hide OutputOf, SampleStep, Distinct, Shape, Closed, RunOutputs, RunStates, Matches;
      MatchesKnown(m, m.Keys);
      samples := [];
      RunEnds(m, t, phaseTime, maxPhaseTime, volume);
      ghost var now := m;
      var i := 0;
      while i < frames
        invariant 0 <= i <= frames
        invariant Shape(now, t, operators) && now.Keys == m.Keys && Closed(now) && Known(now, now.Keys) && Matches(now, now.Keys)
        invariant samples + RunOutputs(now, t, phaseTime, maxPhaseTime, volume, frames - i) ==
                  RunOutputs(m, t, old(phaseTime), maxPhaseTime, volume, frames)
        invariant RunStates(now, t, phaseTime, maxPhaseTime, frames - i) ==
                  RunStates(m, t, old(phaseTime), maxPhaseTime, frames)
      {
        StepStaysClosed(now, t, phaseTime);
        RunGoesOn(now, t, phaseTime, maxPhaseTime, volume, frames - i);
        ghost var next := SampleStep(now, t, phaseTime);
        NodeHead(now, t, operators);
        var out := Modulate(t, now);
        samples := samples + [out];
        now := next;
        i := i + 1;
      }
      RunEnds(now, t, phaseTime, maxPhaseTime, volume);
    }
  }

  lemma {:induction false} KnownPart(m: Snap, s: set<Op>)
    requires Known(m, m.Keys) && s <= m.Keys
    ensures Known(m, s)
  {
  }

  lemma {:induction false} NullIsLeaf(m: Snap, t: Tree)
    requires Shape(m, t, null)
    ensures t.Leaf?
  {
  }

  lemma {:induction false} SilentTree(m: Snap, t: Tree, phaseTime: int)
    requires t.Leaf? && Closed(m) && Known(m, Ops(t))
    ensures TotalNext(m, t, phaseTime) == 0 && SampleStep(m, t, phaseTime) == m && CDiv(0, MAX_VOLUME) == 0
  {
  }

  /** A step keeps the wiring, so it can be repeated. */
  lemma {:induction false} StepStaysClosed(m: Snap, t: Tree, phaseTime: int)
    requires Closed(m) && Known(m, m.Keys) && Ops(t) <= m.Keys
    ensures var r := SampleStep(m, t, phaseTime); r.Keys == m.Keys && Closed(r) && Known(r, r.Keys)
    ensures forall o :: Shape(m, t, o) ==> Shape(SampleStep(m, t, phaseTime), t, o)
  {
    hide Env.Operate, CDiv;
    SteppedKeepsWiring(m, t, phaseTime);
    forall o | Shape(m, t, o)
      ensures Shape(SampleStep(m, t, phaseTime), t, o)
    {
      SameLinks(m, SampleStep(m, t, phaseTime), t, o);
    }
  }

  lemma {:induction false} NodeHead(m: Snap, t: Tree, o: Op?)
    requires t.Node? && Shape(m, t, o)
    ensures o != null
  {
  }

  lemma {:induction false} SameLinks(m: Snap, m': Snap, t: Tree, o: Op?)
    requires Shape(m, t, o)
    requires forall p :: p in Ops(t) ==> p in m && p in m' && m'[p].cascade == m[p].cascade && m'[p].parallel == m[p].parallel
    ensures Shape(m', t, o)
    decreases t
  {
    if t.Node? {
      SameLinks(m, m', t.sub, m[t.op].cascade);
      SameLinks(m, m', t.next, m[t.op].parallel);
    }
  }

  lemma {:induction false} SteppedKeepsWiring(m: Snap, t: Tree, phaseTime: int)
    requires Closed(m) && Known(m, Ops(t))
    ensures var r := Stepped(m, t, phaseTime);
            forall o :: o in Ops(t) ==>
              && r[o].ref == m[o].ref && r[o].rate == m[o].rate && r[o].wave == m[o].wave
              && r[o].cascade == m[o].cascade && r[o].parallel == m[o].parallel
    decreases t
  {
    hide Signal, TotalNext, Feedback, Wrapped, Env.Operate, CDiv;
    if t.Node? {
      SteppedKeepsWiring(m, t.sub, phaseTime);
      SteppedKeepsWiring(m, t.next, phaseTime);
    }
  }

  // ----- runs -----

  /** The states after some samples: the recurrence iterated. */
  ghost function RunStates(m: Snap, t: Tree, phaseTime: int, max: int, frames: nat): (r: Snap)
    requires Closed(m) && Known(m, m.Keys) && Ops(t) <= m.Keys
    decreases frames
  {
    hide SampleStep;
    if frames == 0 then m
    else
      StepStaysClosed(m, t, phaseTime);
      RunStates(SampleStep(m, t, phaseTime), t, NextPhaseTime(phaseTime, max), max, frames - 1)
  }

  ghost function RunOutputs(m: Snap, t: Tree, phaseTime: int, max: int, volume: int, frames: nat): seq<int>
    requires Closed(m) && Known(m, m.Keys) && Ops(t) <= m.Keys
    decreases frames
  {
    hide SampleStep;
    if frames == 0 then []
    else
      StepStaysClosed(m, t, phaseTime);
      [OutputOf(m, t, phaseTime, volume)]
      + RunOutputs(SampleStep(m, t, phaseTime), t, NextPhaseTime(phaseTime, max), max, volume, frames - 1)
  }

  lemma {:induction false} RunEnds(m: Snap, t: Tree, phaseTime: int, max: int, volume: int)
    requires Closed(m) && Known(m, m.Keys) && Ops(t) <= m.Keys
    ensures RunStates(m, t, phaseTime, max, 0) == m && RunOutputs(m, t, phaseTime, max, volume, 0) == []
  {
  }

  lemma {:induction false} RunGoesOn(m: Snap, t: Tree, phaseTime: int, max: int, volume: int, frames: nat)
    requires Closed(m) && Known(m, m.Keys) && Ops(t) <= m.Keys && frames > 0
    ensures var r := SampleStep(m, t, phaseTime);
            && r.Keys == m.Keys && Closed(r) && Known(r, r.Keys)
            && RunStates(m, t, phaseTime, max, frames) == RunStates(r, t, NextPhaseTime(phaseTime, max), max, frames - 1)
            && RunOutputs(m, t, phaseTime, max, volume, frames) ==
               [OutputOf(m, t, phaseTime, volume)] + RunOutputs(r, t, NextPhaseTime(phaseTime, max), max, volume, frames - 1)
  {
    hide SampleStep, OutputOf;
    StepStaysClosed(m, t, phaseTime);
  }

  // ----- range -----

  lemma {:induction false} ProductBound(a: int, b: int, p: int, q: int)
    requires -p <= a <= p && -q <= b <= q
    ensures -(p * q) <= a * b <= p * q
  {
    var x: nat := if a < 0 then -a else a;
    var y: nat := if b < 0 then -b else b;
    MulMono(x, p, y);
    MulMono(y, q, p);
    Signs(x, y);
  }

  lemma {:induction false} Signs(x: int, y: int)
    requires x >= 0 && y >= 0
    ensures x * y >= 0 && (-x) * y == -(x * y) && x * (-y) == -(x * y) && (-x) * (-y) == x * y
  {
  }

  /** The angle at which an operator reads its wave. */
  function Angle(v: OpVal, fb: int, subs: int, phaseTime: int): int
  {
    Env.Truncate(NewPhase(v, phaseTime)) + fb + subs
  }

  /** A scaled value leaves the range only when both factors are as large as they can be. */
  lemma {:induction false} ScaledLeaves(level: int, gen: int)
    requires -MAX_EGLEVEL <= level <= MAX_EGLEVEL && -SHRT_MAX <= gen <= SHRT_MAX + 1
    ensures gen <= SHRT_MAX ==> -SHRT_MAX <= CDiv(level * gen, MAX_EGLEVEL) <= SHRT_MAX
    ensures gen == SHRT_MAX + 1 ==> -gen <= CDiv(level * gen, MAX_EGLEVEL) <= gen
    ensures gen == SHRT_MAX + 1 ==>
              (!(-SHRT_MAX <= CDiv(level * gen, MAX_EGLEVEL) <= SHRT_MAX) <==> level == MAX_EGLEVEL || level == -MAX_EGLEVEL)
  {
    hide CDiv;
    if gen <= SHRT_MAX {
      ProductBound(level, gen, MAX_EGLEVEL, SHRT_MAX);
      ScaledWithin(level * gen);
    } else {
      ScaledFull(level);
    }
  }

  lemma {:induction false} ScaledWithin(product: int)
    requires -(MAX_EGLEVEL * SHRT_MAX) <= product <= MAX_EGLEVEL * SHRT_MAX
    ensures -SHRT_MAX <= CDiv(product, MAX_EGLEVEL) <= SHRT_MAX
  {
  }

  lemma {:induction false} ScaledFull(level: int)
    requires -MAX_EGLEVEL <= level <= MAX_EGLEVEL
    ensures var r := CDiv(level * (SHRT_MAX + 1), MAX_EGLEVEL);
            && -(SHRT_MAX + 1) <= r <= SHRT_MAX + 1
            && (!(-SHRT_MAX <= r <= SHRT_MAX) <==> level == MAX_EGLEVEL || level == -MAX_EGLEVEL)
  {
    var x := if level < 0 then -level else level;
    Eighths(x);
    assert CDiv(level * (SHRT_MAX + 1), MAX_EGLEVEL) == if level < 0 then -(8 * x + 8 * x / 4095) else 8 * x + 8 * x / 4095;
  }

  lemma {:induction false} Eighths(x: int)
    requires 0 <= x <= 4095
    ensures (x * 32768) / 4095 == 8 * x + (8 * x) / 4095
    ensures x < 4095 ==> (8 * x) / 4095 <= 7
  {
    assert x * 32768 == 4095 * (8 * x) + 8 * x;
  }

  /** With an accepted envelope, an operator leaves the 16-bit range exactly when it
      is a sawtooth, in the last two steps of its turn, at full level up or down. */
  lemma {:induction false} SignalBounded(v: OpVal, fb: int, subs: int, phaseTime: int)
    requires Env.Shaped(v.eg) && Env.Tuned(v.eg.params)
    ensures -Peak(v.wave) <= Signal(v, fb, subs, phaseTime) <= Peak(v.wave)
    ensures var level := Env.Operate(v.eg).0;
            !(-SHRT_MAX <= Signal(v, fb, subs, phaseTime) <= SHRT_MAX) <==>
            && v.wave == Sawtooth && PhaseAdjust(Angle(v, fb, subs, phaseTime)) >= 2 * PI - 2
            && (level == MAX_EGLEVEL || level == -MAX_EGLEVEL)
  {
    hide Generate, Env.Operate, Env.Truncate, CDiv, PhaseAdjust;
    Env.OutputOnSegment(v.eg);
    var theta := Angle(v, fb, subs, phaseTime);
    WavesBounded(v.wave, theta);
    ScaledLeaves(Env.Operate(v.eg).0, Generate(v.wave, theta));
  }

  /** A tuned envelope and an output within the bound of the wave form. */
  predicate Ranged(v: OpVal)
  {
    && Env.Shaped(v.eg) && Env.Tuned(v.eg.params)
    && -Peak(v.wave) <= v.last <= Peak(v.wave)
  }

  ghost predicate InRange(m: Snap)
  {
    forall o :: o in m ==> Ranged(m[o])
  }

  lemma {:induction false} AfterRanged(v: OpVal, fb: int, subs: int, phaseTime: int)
    requires Ranged(v)
    ensures Ranged(After(v.(fb := fb), Signal(v, fb, subs, phaseTime), phaseTime))
  {
    hide Signal, Env.Operate, Wrapped, NewPhase;
    SignalBounded(v, fb, subs, phaseTime);
    Env.OutputOnSegment(v.eg);
  }

  lemma {:induction false} RangedIsShaped(m: Snap)
    requires InRange(m)
    ensures forall o :: o in m ==> Env.Shaped(m[o].eg)
  {
  }

  lemma {:induction false} RangedAt(m: Snap, o: Op)
    requires InRange(m) && o in m
    ensures Ranged(m[o])
  {
  }

  lemma {:induction false} SteppedInRange(m: Snap, t: Tree, phaseTime: int)
    requires Closed(m) && InRange(m) && Ops(t) <= m.Keys
    ensures Known(m, Ops(t)) && InRange(Stepped(m, t, phaseTime))
    decreases t
  {
    hide Ranged, After, Signal, Feedback, TotalNext, Closed, InRange, Joined;
    RangedIsShaped(m);
    if t.Node? {
      SteppedInRange(m, t.sub, phaseTime);
      SteppedInRange(m, t.next, phaseTime);
      RangedAt(m, t.op);
      AfterRanged(m[t.op], Feedback(m, t.op), TotalNext(m, t.sub, phaseTime), phaseTime);
      RangedUnion(Stepped(m, t.sub, phaseTime), Stepped(m, t.next, phaseTime), t.op, Stepped(m, t, phaseTime)[t.op]);
    } else {
      RangedNone();
    }
  }

  lemma {:induction false} RangedNone()
    ensures InRange(map[])
  {
  }

  lemma {:induction false} RangedUnion(a: Snap, b: Snap, o: Op, v: OpVal)
    requires InRange(a) && InRange(b) && Ranged(v)
    ensures InRange(Joined(a, b, o, v))
  {
    hide Ranged, Joined;
  }

  lemma {:induction false} StepInRange(m: Snap, t: Tree, phaseTime: int)
    requires Closed(m) && InRange(m) && Ops(t) <= m.Keys
    ensures Known(m, Ops(t)) && InRange(SampleStep(m, t, phaseTime))
  {
    hide Stepped, Ranged, Closed;
    SteppedInRange(m, t, phaseTime);
  }

  /** Over any number of samples every operator's output stays within the bound of
      its wave form: 32767, or 32768 for a sawtooth. */
  lemma {:induction false} RunInRange(m: Snap, t: Tree, phaseTime: int, max: int, frames: nat)
    requires Closed(m) && InRange(m) && Ops(t) <= m.Keys
    ensures InRange(RunStates(m, t, phaseTime, max, frames))
    decreases frames
  {
    hide SampleStep, InRange, Closed, RunStates, RunOutputs, OutputOf;
    RangedIsShaped(m);
    if frames == 0 {
      RunEnds(m, t, phaseTime, max, 0);
    } else {
      RunGoesOn(m, t, phaseTime, max, 0, frames);
      StepInRange(m, t, phaseTime);
      RunInRange(SampleStep(m, t, phaseTime), t, NextPhaseTime(phaseTime, max), max, frames - 1);
    }
  }
}
