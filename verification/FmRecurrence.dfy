/**
What one sample does, said as a relation between the states before and after
it. `Recurrence` mentions each operator's own old state, the old output of the
operator it takes its feedback from, and the new outputs of its sub-operators,
and nothing else. `StepExactly` proves that the sample step is the one function
with that relation, and `RunRecurrence` follows it over whole runs.
*/
module FmRecurrence {
  import opened CArith
  import opened FmWave
  import opened FmOperator
  import opened FmSound
  import Env = FmEnvelope

  function Turned(x: real, k: int): real
  {
    x - (k * (2 * PI)) as real
  }

  /** `y` is `x` less some whole turns, and less than a turn away from zero on the same side. */
  ghost predicate SameAngle(y: real, x: real)
  {
    && (exists k :: y == Turned(x, k))
    && (if x >= 0.0 then 0.0 <= y < (2 * PI) as real else -((2 * PI) as real) < y <= 0.0)
  }

  /** The sum of the outputs of neighbours. */
  ghost function SumOf(r: Snap, t: Tree): int
    requires Ops(t) <= r.Keys
  {
    match t
    case Leaf => 0
    case Node(op, _, next) => r[op].last + SumOf(r, next)
  }

  /** Feedback: the output that the operator referred to had before the sample. */
  ghost predicate Fed(m: Snap, v: OpVal, fb: int)
    requires v.ref == null || v.ref in m
  {
    if v.ref == null then fb == v.fb else TowardZero(fb, m[v.ref].last * v.rate, MAX_EGLEVEL)
  }

  /** How an operator in state `v` has moved to `v'`, its sub-operators putting out `subs` in all. */
  ghost predicate Moved(v: OpVal, v': OpVal, subs: int, phaseTime: int)
    requires Env.Shaped(v.eg)
  {
    var x := if phaseTime == 0 then 0.0 else v.phase + v.delta;
    && v'.eg == Env.Operate(v.eg).1
    && TowardZero(v'.last, Env.Operate(v.eg).0 * Generate(v.wave, Env.Truncate(x) + v'.fb + subs), MAX_EGLEVEL)
    && SameAngle(v'.phase, x)
    && v' == v.(eg := v'.eg, fb := v'.fb, last := v'.last, phase := v'.phase)
  }

  ghost predicate Recurrence(m: Snap, r: Snap, t: Tree, phaseTime: int)
    requires Closed(m) && Known(m, Ops(t)) && Ops(t) <= r.Keys
  {
    t.Node? ==>
      && Fed(m, m[t.op], r[t.op].fb) && Moved(m[t.op], r[t.op], SumOf(r, t.sub), phaseTime)
      && Recurrence(m, r, t.sub, phaseTime) && Recurrence(m, r, t.next, phaseTime)
  }

  // ----- the step has the relation -----

  lemma {:induction false} WrappedIsSameAngle(x: real)
    ensures SameAngle(Wrapped(x), x)
  {
    hide CDiv, TowardZero, Env.Truncate;
    var whole := Env.Truncate(x);
    var k := CDiv(whole, 2 * PI);
    Env.TruncateIsWhole(x);
    DivisionTruncates(whole, 2 * PI);
    WholeTurns(whole, k);
    assert Wrapped(x) == Turned(x, k);
  }

  lemma {:induction false} WholeTurns(whole: int, k: int)
    requires TowardZero(k, whole, 2 * PI)
    ensures if whole >= 0 then 0 <= whole - k * (2 * PI) <= 2 * PI - 1 else -(2 * PI - 1) <= whole - k * (2 * PI) <= 0
  {
  }

  lemma {:induction false} FeedbackFeeds(m: Snap, o: Op)
    requires Closed(m) && o in m
    ensures Fed(m, m[o], Feedback(m, o))
  {
    hide CDiv, TowardZero;
    if m[o].ref != null {
      DivisionTruncates(m[m[o].ref].last * m[o].rate, MAX_EGLEVEL);
    }
  }

  lemma {:induction false} SignalMoves(v: OpVal, fb: int, subs: int, phaseTime: int)
    requires Env.Shaped(v.eg)
    ensures Moved(v, After(v.(fb := fb), Signal(v, fb, subs, phaseTime), phaseTime), subs, phaseTime)
  {
    hide CDiv, TowardZero, Env.Truncate, Env.Operate, Generate, Wrapped, SameAngle;
    WrappedIsSameAngle(NewPhase(v, phaseTime));
    DivisionTruncates(Env.Operate(v.eg).0 * Generate(v.wave, Env.Truncate(NewPhase(v, phaseTime)) + fb + subs), MAX_EGLEVEL);
  }

  lemma {:induction false} SteppedParts(m: Snap, t: Tree, phaseTime: int)
    requires t.Node? && Distinct(t) && Closed(m) && Known(m, Ops(t))
    ensures var r := Stepped(m, t, phaseTime);
            && r[t.op] == After(m[t.op].(fb := Feedback(m, t.op)), Signal(m[t.op], Feedback(m, t.op), TotalNext(m, t.sub, phaseTime), phaseTime), phaseTime)
            && (forall o :: o in Ops(t.sub) ==> r[o] == Stepped(m, t.sub, phaseTime)[o])
            && (forall o :: o in Ops(t.next) ==> r[o] == Stepped(m, t.next, phaseTime)[o])
  {
    hide TotalNext, Signal, After, Feedback, Joined, Env.Shaped;
  }

  lemma {:induction false} SteppedRecurs(m: Snap, r: Snap, t: Tree, phaseTime: int)
    requires Distinct(t) && Closed(m) && Known(m, Ops(t)) && Ops(t) <= r.Keys
    requires forall o :: o in Ops(t) ==> r[o] == Stepped(m, t, phaseTime)[o]
    ensures SumOf(r, t) == TotalNext(m, t, phaseTime) && Recurrence(m, r, t, phaseTime)
    decreases t
  {
    hide Signal, Feedback, Stepped, Closed, Fed, Moved, Wrapped, NewPhase;
    if t.Node? {
      SteppedParts(m, t, phaseTime);
      SteppedRecurs(m, r, t.sub, phaseTime);
      SteppedRecurs(m, r, t.next, phaseTime);
      KnownHead(m, t);
      var fb, subs := Feedback(m, t.op), TotalNext(m, t.sub, phaseTime);
      FeedbackFeeds(m, t.op);
      SignalMoves(m[t.op], fb, subs, phaseTime);
    }
  }

  lemma {:induction false} KnownHead(m: Snap, t: Tree)
    requires t.Node? && Closed(m) && Known(m, Ops(t))
    ensures t.op in m && Env.Shaped(m[t.op].eg) && (m[t.op].ref == null || m[t.op].ref in m)
  {
  }

  // ----- and nothing else has -----

  lemma {:induction false} OneAngle(y: real, z: real, x: real)
    requires SameAngle(y, x) && SameAngle(z, x)
    ensures y == z
  {
    var j :| y == Turned(x, j);
    var k :| z == Turned(x, k);
    var d := (k - j) * (2 * PI);
    assert y - z == d as real;
    assert -(2 * PI) < d < 2 * PI;
    assert k == j;
  }

  lemma {:induction false} OneMove(m: Snap, v: OpVal, a: OpVal, b: OpVal, subs: int, phaseTime: int)
    requires Env.Shaped(v.eg) && (v.ref == null || v.ref in m)
    requires Fed(m, v, a.fb) && Moved(v, a, subs, phaseTime) && Fed(m, v, b.fb) && Moved(v, b, subs, phaseTime)
    ensures a == b
  {
    hide TowardZero, SameAngle, Env.Operate, Env.Truncate, Generate;
    var x := if phaseTime == 0 then 0.0 else v.phase + v.delta;
    if v.ref != null {
      OneQuotient(a.fb, b.fb, m[v.ref].last * v.rate, MAX_EGLEVEL);
    }
    OneQuotient(a.last, b.last, Env.Operate(v.eg).0 * Generate(v.wave, Env.Truncate(x) + a.fb + subs), MAX_EGLEVEL);
    OneAngle(a.phase, b.phase, x);
  }

  lemma {:induction false} OneRecurrence(m: Snap, r: Snap, q: Snap, t: Tree, phaseTime: int)
    requires Closed(m) && Known(m, Ops(t)) && Ops(t) <= r.Keys && Ops(t) <= q.Keys
    requires Recurrence(m, r, t, phaseTime) && Recurrence(m, q, t, phaseTime)
    ensures SumOf(r, t) == SumOf(q, t) && forall o :: o in Ops(t) ==> r[o] == q[o]
    decreases t
  {
    hide Closed, Fed, Moved;
    if t.Node? {
      OneRecurrence(m, r, q, t.sub, phaseTime);
      OneRecurrence(m, r, q, t.next, phaseTime);
      KnownHead(m, t);
      OneMove(m, m[t.op], r[t.op], q[t.op], SumOf(r, t.sub), phaseTime);
    }
  }

  /** The new states are those of the sample step if and only if the operators outside the tree have not
      moved and those of the tree stand in the recurrence. */
  lemma {:induction false} StepExactly(m: Snap, r: Snap, t: Tree, phaseTime: int)
    requires Distinct(t) && Closed(m) && Known(m, Ops(t)) && Ops(t) <= m.Keys
    ensures r == SampleStep(m, t, phaseTime) <==>
            && r.Keys == m.Keys && (forall o :: o in m && o !in Ops(t) ==> r[o] == m[o])
            && Recurrence(m, r, t, phaseTime)
  {
    hide Stepped, Recurrence, Closed, Known, Distinct, Ops;
    var s := SampleStep(m, t, phaseTime);
    SteppedRecurs(m, s, t, phaseTime);
    if r.Keys == m.Keys && (forall o :: o in m && o !in Ops(t) ==> r[o] == m[o]) && Recurrence(m, r, t, phaseTime) {
      OneRecurrence(m, r, s, t, phaseTime);
    }
  }

  // ----- what that says about feedback and output -----

  lemma {:induction false} RecurrenceAt(m: Snap, r: Snap, t: Tree, phaseTime: int, o: Op)
    requires Closed(m) && Known(m, Ops(t)) && Ops(t) <= r.Keys && Recurrence(m, r, t, phaseTime) && o in Ops(t)
    ensures o in m && (m[o].ref == null || m[o].ref in m) && Fed(m, m[o], r[o].fb)
    decreases t
  {
    hide Fed, Moved;
    if o in Ops(t.sub) {
      RecurrenceAt(m, r, t.sub, phaseTime, o);
    } else if o in Ops(t.next) {
      RecurrenceAt(m, r, t.next, phaseTime, o);
    }
  }

  /** The feedback used in a sample is the referenced operator's output of the sample before, at full rate
      unchanged. Nothing else about the states matters for it. */
  lemma {:induction false} FeedbackFromReference(m: Snap, n: Snap, t: Tree, u: Tree, o: Op, phaseTime: int, phaseTime': int)
    requires Distinct(t) && Closed(m) && Known(m, Ops(t)) && Ops(t) <= m.Keys && o in Ops(t)
    requires Distinct(u) && Closed(n) && Known(n, Ops(u)) && Ops(u) <= n.Keys && o in Ops(u)
    requires m[o].ref != null && n[o].ref == m[o].ref && n[o].rate == m[o].rate && n[m[o].ref].last == m[m[o].ref].last
    ensures TowardZero(SampleStep(m, t, phaseTime)[o].fb, m[m[o].ref].last * m[o].rate, MAX_EGLEVEL)
    ensures m[o].rate == MAX_EGLEVEL ==> SampleStep(m, t, phaseTime)[o].fb == m[m[o].ref].last
    ensures SampleStep(n, u, phaseTime')[o].fb == SampleStep(m, t, phaseTime)[o].fb
  {
    hide SampleStep, Recurrence, Distinct, Known, TowardZero;
    var a, b := SampleStep(m, t, phaseTime), SampleStep(n, u, phaseTime');
    StepExactly(m, a, t, phaseTime);
    StepExactly(n, b, u, phaseTime');
    RecurrenceAt(m, a, t, phaseTime, o);
    RecurrenceAt(n, b, u, phaseTime', o);
    var last := m[m[o].ref].last;
    OneQuotient(a[o].fb, b[o].fb, last * m[o].rate, MAX_EGLEVEL);
    if m[o].rate == MAX_EGLEVEL {
      Multiples(last, MAX_EGLEVEL);
      OneQuotient(a[o].fb, last, last * m[o].rate, MAX_EGLEVEL);
    }
  }

  /** A sample of a sound is the sum of its operators' new outputs, scaled by the volume. */
  lemma {:induction false} OutputIsSum(m: Snap, t: Tree, phaseTime: int, volume: int)
    requires Distinct(t) && Closed(m) && Known(m, Ops(t)) && Ops(t) <= m.Keys
    ensures TowardZero(OutputOf(m, t, phaseTime, volume), SumOf(SampleStep(m, t, phaseTime), t) * volume, MAX_VOLUME)
  {
    hide Stepped, TotalNext, CDiv, TowardZero, Recurrence, SumOf;
    SteppedRecurs(m, SampleStep(m, t, phaseTime), t, phaseTime);
    DivisionTruncates(TotalNext(m, t, phaseTime) * volume, MAX_VOLUME);
  }

  // ----- runs -----

  /** The phase time at sample `k`. */
  function TimeAt(phaseTime: int, max: int, k: nat): int
    decreases k
  {
    if k == 0 then phaseTime else TimeAt(NextPhaseTime(phaseTime, max), max, k - 1)
  }

  /** It counts round, so that every operator starts a new turn once in `max` samples. */
  lemma {:induction false} TimeGoesRound(phaseTime: int, max: int, k: nat)
    requires 0 <= phaseTime < max
    ensures TimeAt(phaseTime, max, k) == (phaseTime + k) % max
    decreases k
  {
    if k == 0 {
      SmallRemainder(phaseTime, max);
    } else {
      TimeGoesRound(NextPhaseTime(phaseTime, max), max, k - 1);
      OneRoundMore(k - 1, max);
    }
  }

  lemma {:induction false} SmallRemainder(a: int, max: int)
    requires 0 <= a < max
    ensures a % max == a
  {
  }

  lemma {:induction false} OneRoundMore(a: int, max: int)
    requires a >= 0 && max > 0
    ensures (a + max) % max == a % max
  {
    var q, r := a / max, a % max;
    assert a == max * q + r;
    SameRemainder(a + max, max, q + 1, r);
  }

  lemma {:induction false} SameRemainder(a: int, max: int, q: int, r: int)
    requires max > 0 && 0 <= r < max && a == max * q + r
    ensures a % max == r
  {
    var p := a / max;
    assert a == max * p + a % max;
    assert max * (p - q) == r - a % max;
    if p > q {
      MulMono(1, p - q, max);
    } else if p < q {
      MulMono(p - q, -1, max);
    }
  }

  lemma {:induction false} RunAt(m: Snap, t: Tree, phaseTime: int, max: int, volume: int, frames: nat, k: nat)
    requires Closed(m) && Known(m, m.Keys) && Ops(t) <= m.Keys && k < frames
    ensures var s := RunStates(m, t, phaseTime, max, k);
            && s.Keys == m.Keys && Closed(s) && Known(s, s.Keys) && Known(s, Ops(t))
            && RunStates(m, t, phaseTime, max, k + 1) == SampleStep(s, t, TimeAt(phaseTime, max, k))
            && |RunOutputs(m, t, phaseTime, max, volume, frames)| == frames
            && RunOutputs(m, t, phaseTime, max, volume, frames)[k] == OutputOf(s, t, TimeAt(phaseTime, max, k), volume)
    decreases frames
  {
    hide SampleStep, OutputOf, Closed, RunStates, RunOutputs;
    RunGoesOn(m, t, phaseTime, max, volume, frames);
    var r, next := SampleStep(m, t, phaseTime), NextPhaseTime(phaseTime, max);
    RunEnds(m, t, phaseTime, max, volume);
    RunEnds(r, t, next, max, volume);
    RunGoesOn(m, t, phaseTime, max, volume, k + 1);
    if k > 0 {
      RunGoesOn(m, t, phaseTime, max, volume, k);
      RunAt(r, t, next, max, volume, frames - 1, k - 1);
    } else if frames > 1 {
      RunAt(r, t, next, max, volume, frames - 1, 0);
    }
  }

  /** Over a whole run, every sample stands in the recurrence with the one before it, and what is heard is
      the scaled sum of the outputs. */
  lemma {:induction false} RunRecurrence(m: Snap, t: Tree, phaseTime: int, max: int, volume: int, frames: nat, k: nat)
    requires Distinct(t) && Closed(m) && Known(m, m.Keys) && Ops(t) <= m.Keys && k < frames
    ensures var s, s' := RunStates(m, t, phaseTime, max, k), RunStates(m, t, phaseTime, max, k + 1);
            && s.Keys == s'.Keys == m.Keys && Closed(s) && Known(s, Ops(t))
            && Recurrence(s, s', t, TimeAt(phaseTime, max, k))
            && |RunOutputs(m, t, phaseTime, max, volume, frames)| == frames
            && TowardZero(RunOutputs(m, t, phaseTime, max, volume, frames)[k], SumOf(s', t) * volume, MAX_VOLUME)
  {
    hide SampleStep, OutputOf, Closed, RunStates, RunOutputs, Recurrence, SumOf, TowardZero, Distinct;
    RunAt(m, t, phaseTime, max, volume, frames, k);
    var s := RunStates(m, t, phaseTime, max, k);
    var time := TimeAt(phaseTime, max, k);
    StepExactly(s, SampleStep(s, t, time), t, time);
    OutputIsSum(s, t, time, volume);
  }
}
