/**
Operators: wave generators linked into a tree by their first sub-operator and
their neighbour, with feedback taken from any operator's last output. The
structure lives in the heap and is walked link by link; a sample is proved to be
one step of a recurrence in which every operator's new state depends on the
states of the sample before only.
*/
module FmOperator {
  import opened CArith
  import opened FmWave
  import Env = FmEnvelope

  const MAX_EGLEVEL := Env.MAX_EGLEVEL
  const MAX_VOLUME := SHRT_MAX

  class Op {
    var eg: Env.Eg
    var wavegen: Wave
    var cascade: Op?
    var parallel: Op?
    var feedbackRef: Op?
    var feedbackVal: int
    var feedbackRate: int
    var lastSig: int
    var deltaPhase: real
    var currentPhase: real

    constructor (eg: Env.Eg)
      ensures this.eg == eg && cascade == null && parallel == null && feedbackRef == null
      ensures feedbackVal == 0 && feedbackRate == 0 && lastSig == 0 && deltaPhase == 0.0 && currentPhase == 0.0
    {
      this.eg := eg;
      wavegen, cascade, parallel, feedbackRef := Sin, null, null, null;
      feedbackVal, feedbackRate, lastSig := 0, 0, 0;
      deltaPhase, currentPhase := 0.0, 0.0;
    }
  }

  // ----- the tree of operators -----

  /** An operator with its sub-operators, and the operators next to it. */
  datatype Tree = Leaf | Node(op: Op, sub: Tree, next: Tree)

  ghost function Ops(t: Tree): set<Op>
  {
    match t
    case Leaf => {}
    case Node(op, sub, next) => {op} + Ops(sub) + Ops(next)
  }

  /** No operator occurs twice. */
  ghost predicate Distinct(t: Tree)
  {
    t.Node? ==>
      && t.op !in Ops(t.sub) && t.op !in Ops(t.next) && Ops(t.sub) !! Ops(t.next)
      && Distinct(t.sub) && Distinct(t.next)
  }

  // ----- states as values -----

  datatype OpVal = OpVal(eg: Env.Eg, wave: Wave, cascade: Op?, parallel: Op?, ref: Op?, rate: int,
                         fb: int, last: int, delta: real, phase: real)

  type Snap = map<Op, OpVal>

  ghost function Val(o: Op): OpVal
    reads o
  {
    OpVal(o.eg, o.wavegen, o.cascade, o.parallel, o.feedbackRef, o.feedbackRate, o.feedbackVal, o.lastSig, o.deltaPhase, o.currentPhase)
  }

  /** The links from `o` on spell out the tree. */
  ghost predicate Shape(m: Snap, t: Tree, o: Op?)
  {
    match t
    case Leaf => o == null
    case Node(op, sub, next) => o == op && op in m && Shape(m, sub, m[op].cascade) && Shape(m, next, m[op].parallel)
  }

  /** The operators of `s` are in the states that `m` records. */
  ghost predicate Matches(m: Snap, s: set<Op>)
    reads s
  {
    forall o :: o in s ==> o in m && m[o] == Val(o) && Env.Shaped(m[o].eg)
  }

  function NewPhase(v: OpVal, phaseTime: int): real
  {
    if phaseTime != 0 then v.phase + v.delta else 0.0
  }

  function Wrapped(phase: real): real
  {
    phase - (CDiv(Env.Truncate(phase), 2 * PI) * (2 * PI)) as real
  }

  ghost predicate Known(m: Snap, s: set<Op>)
  {
    forall o :: o in s ==> o in m && Env.Shaped(m[o].eg)
  }

  /** What an operator puts out once its feedback value and its sub-operators are given. */
  function Signal(v: OpVal, fb: int, subs: int, phaseTime: int): int
    requires Env.Shaped(v.eg)
  {
    CDiv(Env.Operate(v.eg).0 * Generate(v.wave, Env.Truncate(NewPhase(v, phaseTime)) + fb + subs), MAX_EGLEVEL)
  }

  /** The states of two groups of operators and of one more. */
  ghost function Joined(a: Snap, b: Snap, o: Op, v: OpVal): (r: Snap)
    ensures r.Keys == {o} + a.Keys + b.Keys && r[o] == v
    ensures forall x :: x in b && x != o ==> r[x] == b[x]
    ensures forall x :: x in a && x !in b && x != o ==> r[x] == a[x]
  {
    (a + b)[o := v]
  }

  /** The sum of the outputs of neighbours, each with its stored feedback value. */
  ghost function Total(m: Snap, t: Tree, phaseTime: int): int
    requires Known(m, Ops(t))
  {
    match t
    case Leaf => 0
    case Node(op, sub, next) => Signal(m[op], m[op].fb, Total(m, sub, phaseTime), phaseTime) + Total(m, next, phaseTime)
  }

  /** The states after every operator of the tree has been operated once. */
  ghost function Operated(m: Snap, t: Tree, phaseTime: int): (r: Snap)
    requires Known(m, Ops(t))
    ensures r.Keys == Ops(t)
    ensures forall o :: o in r ==> Env.Shaped(r[o].eg)
  {
    hide Signal, Total, After, Joined, Env.Shaped;
    match t
    case Leaf => map[]
    case Node(op, sub, next) =>
      Joined(Operated(m, sub, phaseTime), Operated(m, next, phaseTime), op,
             After(m[op], Signal(m[op], m[op].fb, Total(m, sub, phaseTime), phaseTime), phaseTime))
  }

  function After(v: OpVal, signal: int, phaseTime: int): (r: OpVal)
    requires Env.Shaped(v.eg)
    ensures Env.Shaped(r.eg)
  {
    v.(eg := Env.Operate(v.eg).1, last := signal, phase := Wrapped(NewPhase(v, phaseTime)))
  }

  // ----- one operator and what is below it -----

  /** The operator `o` is in the state that `m` records. */
  ghost predicate MatchesOne(m: Snap, o: Op)
    reads o
  {
    o in m && m[o] == Val(o) && Env.Shaped(m[o].eg)
  }

  lemma {:induction false} MatchesSplit(m: Snap, t: Tree)
    requires t.Node? && Matches(m, Ops(t))
    ensures MatchesOne(m, t.op) && Matches(m, Ops(t.sub)) && Matches(m, Ops(t.next))
  {
  }

  lemma {:induction false} MatchesLinks(m: Snap, o: Op)
    requires MatchesOne(m, o)
    ensures o.cascade == m[o].cascade && o.parallel == m[o].parallel
  {
  }

  lemma {:induction false} MatchesNone(m: Snap)
    ensures Matches(m, {})
  {
  }

  lemma {:induction false} MatchesKnown(m: Snap, s: set<Op>)
    requires Matches(m, s)
    ensures Known(m, s)
  {
  }

  lemma {:induction false} OperatedParts(m: Snap, t: Tree, phaseTime: int)
    requires t.Node? && Distinct(t) && Known(m, Ops(t))
    ensures var r := Operated(m, t, phaseTime);
            && r[t.op] == After(m[t.op], Signal(m[t.op], m[t.op].fb, Total(m, t.sub, phaseTime), phaseTime), phaseTime)
            && (forall o :: o in Ops(t.sub) ==> r[o] == Operated(m, t.sub, phaseTime)[o])
            && (forall o :: o in Ops(t.next) ==> r[o] == Operated(m, t.next, phaseTime)[o])
  {
    hide Total, Signal, After, Joined, Env.Shaped;
  }

  /** After the first of some neighbours, the others are still to do. */
  lemma {:induction false} MatchesStep(m: Snap, all: Tree, rest: Tree, phaseTime: int)
    requires rest.Node? && Distinct(rest) && Known(m, Ops(all)) && Ops(rest) <= Ops(all)
    requires Val(rest.op) == After(m[rest.op], Signal(m[rest.op], m[rest.op].fb, Total(m, rest.sub, phaseTime), phaseTime), phaseTime)
    requires Matches(Operated(m, rest.sub, phaseTime), Ops(rest.sub))
    requires Matches(Operated(m, all, phaseTime), Ops(all) - Ops(rest))
    requires forall o :: o in Ops(rest) ==> Operated(m, rest, phaseTime)[o] == Operated(m, all, phaseTime)[o]
    ensures Matches(Operated(m, all, phaseTime), Ops(all) - Ops(rest.next))
    ensures forall o :: o in Ops(rest.next) ==> Operated(m, rest.next, phaseTime)[o] == Operated(m, all, phaseTime)[o]
  {
    hide Total, Signal, Val, Operated, After, Env.Shaped;
    OperatedParts(m, rest, phaseTime);
    var r := Operated(m, all, phaseTime);
    forall o | o in Ops(all) - Ops(rest.next)
      ensures o in r && r[o] == Val(o)
    {
      if o in Ops(rest.sub) {
        assert Operated(m, rest, phaseTime)[o] == r[o];
      } else if o == rest.op {
        assert Operated(m, rest, phaseTime)[o] == r[o];
      }
    }
  }

  /** `fmsynthop_operate` */
  method Operate(op: Op, phaseTime: int, ghost sub: Tree, ghost m: Snap) returns (val: int)
    requires op !in Ops(sub) && Distinct(sub) && op in m && Shape(m, sub, m[op].cascade)
    requires MatchesOne(m, op) && Matches(m, Ops(sub))
    modifies ({op} + Ops(sub))`lastSig, ({op} + Ops(sub))`currentPhase, ({op} + Ops(sub))`eg
    ensures Known(m, Ops(sub))
    ensures val == Signal(m[op], m[op].fb, Total(m, sub, phaseTime), phaseTime)
    ensures Val(op) == After(m[op], val, phaseTime)
    ensures Matches(Operated(m, sub, phaseTime), Ops(sub))
    decreases sub, 1
  {
    hide Generate, Env.Operate, Operated, Total, CDiv, Env.Truncate, Distinct, Known, Matches, Shape, Ops;
    MatchesKnown(m, Ops(sub));
    op.currentPhase := if phaseTime != 0 then op.currentPhase + op.deltaPhase else 0.0;
    var whole := Env.Truncate(op.currentPhase);
    var turns := CDiv(whole, 2 * PI);
    var phase := whole + op.feedbackVal;
    op.currentPhase := op.currentPhase - (turns * (2 * PI)) as real;
    var sum := OperateAll(op.cascade, phaseTime, sub, m);
    phase := phase + sum;
    var (level, eg) := Env.Operate(op.eg);
    op.eg := eg;
    op.lastSig := CDiv(level * Generate(op.wavegen, phase), MAX_EGLEVEL);
    val := op.lastSig;
  }

  method OperateAll(first: Op?, phaseTime: int, ghost t: Tree, ghost m: Snap) returns (sum: int)
    requires Shape(m, t, first) && Distinct(t) && Matches(m, Ops(t))
    modifies Ops(t)`lastSig, Ops(t)`currentPhase, Ops(t)`eg
    ensures Known(m, Ops(t))
    ensures sum == Total(m, t, phaseTime)
    ensures Matches(Operated(m, t, phaseTime), Ops(t))
    decreases t, 0
  {
    hide Signal, After, Operated, Val, Matches, MatchesOne, Env.Shaped;
    MatchesKnown(m, Ops(t));
    MatchesNone(Operated(m, t, phaseTime));
    assert Ops(t) - Ops(t) == {};
    sum := 0;
    var op := first;
    ghost var rest := t;
    while op != null
      invariant Shape(m, rest, op) && Distinct(rest) && Ops(rest) <= Ops(t) && (rest == t || rest < t)
      invariant Known(m, Ops(rest)) && sum + Total(m, rest, phaseTime) == Total(m, t, phaseTime)
      invariant Matches(m, Ops(rest)) && Matches(Operated(m, t, phaseTime), Ops(t) - Ops(rest))
      invariant forall o :: o in Ops(rest) ==> Operated(m, rest, phaseTime)[o] == Operated(m, t, phaseTime)[o]
      decreases rest
    {
      MatchesSplit(m, rest);
      MatchesLinks(m, op);
      var v := Operate(op, phaseTime, rest.sub, m);
      MatchesStep(m, t, rest, phaseTime);
      sum := sum + v;
      rest := rest.next;
      op := op.parallel;
    }
    assert Ops(t) - Ops(rest) == Ops(t);
  }

  // ----- feedback -----

  /** Every feedback source is recorded too. */
  ghost predicate Closed(m: Snap)
  {
    forall o :: o in m ==> m[o].ref == null || m[o].ref in m
  }

  /** The feedback value an operator takes, from the outputs that `m` records. */
  ghost function Feedback(m: Snap, o: Op): int
    requires Closed(m) && o in m
  {
    if m[o].ref == null then m[o].fb else CDiv(m[m[o].ref].last * m[o].rate, MAX_EGLEVEL)
  }

  /** What feedback is computed from stands in the operators as `m` records it. */
  ghost predicate Sources(m: Snap, s: set<Op>)
    reads s
  {
    forall o :: o in s ==>
      && o in m && m[o].cascade == o.cascade && m[o].parallel == o.parallel
      && m[o].ref == o.feedbackRef && m[o].rate == o.feedbackRate && m[o].last == o.lastSig
  }

  /** The feedback value comes from the last output of the operator referred to, scaled by the rate
      and rounded towards zero; without a reference it is what it was. */
  ghost predicate Refreshed(o: Op, was: int)
    reads o, o.feedbackRef
  {
    if o.feedbackRef == null then o.feedbackVal == was
    else TowardZero(o.feedbackVal, o.feedbackRef.lastSig * o.feedbackRate, MAX_EGLEVEL)
  }

  lemma {:induction false} FeedbackRefreshes(m: Snap, o: Op, all: set<Op>)
    requires m.Keys == all && Closed(m) && Sources(m, all) && o in all && o.feedbackVal == Feedback(m, o)
    ensures Refreshed(o, m[o].fb)
  {
    hide CDiv, TowardZero;
    if o.feedbackRef != null {
      assert m[o].ref in m;
      DivisionTruncates(o.feedbackRef.lastSig * o.feedbackRate, MAX_EGLEVEL);
    }
  }

  /** `fmsynthop_update_feedback` */
  method UpdateFeedback(op: Op, ghost sub: Tree, ghost m: Snap, ghost all: set<Op>)
    requires op !in Ops(sub) && Distinct(sub) && op in m && Shape(m, sub, m[op].cascade)
    requires op in all && Ops(sub) <= all && m.Keys == all && Closed(m) && Sources(m, all)
    requires op.feedbackVal == m[op].fb && forall o :: o in Ops(sub) ==> o.feedbackVal == m[o].fb
    modifies ({op} + Ops(sub))`feedbackVal
    ensures op.feedbackVal == Feedback(m, op) && forall o :: o in Ops(sub) ==> o.feedbackVal == Feedback(m, o)
    ensures Refreshed(op, old(op.feedbackVal)) && forall o :: o in Ops(sub) ==> Refreshed(o, old(o.feedbackVal))
    decreases sub, 1
  {
    hide CDiv, TowardZero;
    FetchFeedback(op.cascade, sub, m, all);
    if op.feedbackRef != null {
      op.feedbackVal := CDiv(op.feedbackRef.lastSig * op.feedbackRate, MAX_EGLEVEL);
    }
    FeedbackRefreshes(m, op, all);
  }

  /** `fetch_feedback`: some neighbours and everything below them. */
  method FetchFeedback(first: Op?, ghost t: Tree, ghost m: Snap, ghost all: set<Op>)
    requires Shape(m, t, first) && Distinct(t)
    requires Ops(t) <= all && m.Keys == all && Closed(m) && Sources(m, all)
    requires forall o :: o in Ops(t) ==> o.feedbackVal == m[o].fb
    modifies Ops(t)`feedbackVal
    ensures forall o :: o in Ops(t) ==> o.feedbackVal == Feedback(m, o)
    ensures forall o :: o in Ops(t) ==> Refreshed(o, old(o.feedbackVal))
    decreases t, 0
  {
    hide Feedback, Refreshed;
    var op := first;
    ghost var rest := t;
    while op != null
      invariant Shape(m, rest, op) && Distinct(rest) && Ops(rest) <= Ops(t) && (rest == t || rest < t)
      invariant Sources(m, all)
      invariant forall o :: o in Ops(rest) ==> o.feedbackVal == m[o].fb
      invariant forall o :: o in Ops(t) - Ops(rest) ==> o.feedbackVal == Feedback(m, o)
      decreases rest
    {
      UpdateFeedback(op, rest.sub, m, all);
      rest := rest.next;
      op := op.parallel;
    }
    forall o | o in Ops(t)
      ensures Refreshed(o, m[o].fb)
    {
      FeedbackRefreshes(m, o, all);
    }
  }

  // ----- one sample as a recurrence -----

  /** Outputs when every feedback value comes from the sample before. */
  ghost function TotalNext(m: Snap, t: Tree, phaseTime: int): int
    requires Closed(m) && Known(m, Ops(t))
  {
    match t
    case Leaf => 0
    case Node(op, sub, next) =>
      Signal(m[op], Feedback(m, op), TotalNext(m, sub, phaseTime), phaseTime) + TotalNext(m, next, phaseTime)
  }

  /** New states of the operators of a tree, each from the old states alone. */
  ghost function Stepped(m: Snap, t: Tree, phaseTime: int): (r: Snap)
    requires Closed(m) && Known(m, Ops(t))
    ensures r.Keys == Ops(t)
    ensures forall o :: o in r ==> Env.Shaped(r[o].eg)
  {
    hide Signal, TotalNext, After, Feedback, Joined, Env.Shaped;
    match t
    case Leaf => map[]
    case Node(op, sub, next) =>
      Joined(Stepped(m, sub, phaseTime), Stepped(m, next, phaseTime), op,
             After(m[op].(fb := Feedback(m, op)), Signal(m[op], Feedback(m, op), TotalNext(m, sub, phaseTime), phaseTime), phaseTime))
  }

  /** The simultaneous step: operators of the tree move, all others stay. */
  ghost function SampleStep(m: Snap, t: Tree, phaseTime: int): (r: Snap)
    requires Closed(m) && Known(m, Ops(t))
    ensures r.Keys == m.Keys
  {
    map o | o in m :: if o in Ops(t) then Stepped(m, t, phaseTime)[o] else m[o]
  }

  /** The states after feedback has been fetched for the operators in `s`. */
  ghost function Fetched(m: Snap, s: set<Op>): (r: Snap)
    requires Closed(m) && s <= m.Keys
    ensures r.Keys == m.Keys
  {
    map o | o in m :: if o in s then m[o].(fb := Feedback(m, o)) else m[o]
  }

  lemma {:induction false} FetchedIsKnown(m: Snap, s: set<Op>, t: Tree)
    requires Closed(m) && s <= m.Keys && Known(m, Ops(t))
    ensures Known(Fetched(m, s), Ops(t))
  {
  }

  /** Fetching first and operating then is the simultaneous step. */
  lemma {:induction false} FetchThenOperate(m: Snap, s: set<Op>, t: Tree, phaseTime: int)
    requires Closed(m) && s <= m.Keys && Ops(t) <= s && Known(m, Ops(t)) && Known(Fetched(m, s), Ops(t))
    ensures Total(Fetched(m, s), t, phaseTime) == TotalNext(m, t, phaseTime)
    ensures Operated(Fetched(m, s), t, phaseTime) == Stepped(m, t, phaseTime)
    decreases t
  {
    hide Generate, Env.Operate, Env.Truncate, CDiv, Wrapped, Feedback;
    if t.Node? {
      FetchThenOperate(m, s, t.sub, phaseTime);
      FetchThenOperate(m, s, t.next, phaseTime);
      SignalIgnoresStored(m[t.op], Feedback(m, t.op), TotalNext(m, t.sub, phaseTime), phaseTime);
    }
  }

  lemma {:induction false} SignalIgnoresStored(v: OpVal, fb: int, subs: int, phaseTime: int)
    requires Env.Shaped(v.eg)
    ensures Signal(v.(fb := fb), fb, subs, phaseTime) == Signal(v, fb, subs, phaseTime)
  {
  }

  // ----- linking -----

  lemma {:induction false} ShapeElsewhere(m: Snap, t: Tree, o: Op?, x: Op, v: OpVal)
    requires Shape(m, t, o) && x !in Ops(t)
    ensures Shape(m[x := v], t, o)
    decreases t
  {
    if t.Node? {
      ShapeElsewhere(m, t.sub, m[t.op].cascade, x, v);
      ShapeElsewhere(m, t.next, m[t.op].parallel, x, v);
    }
  }

  /** The last neighbour, and the last of the chain of first sub-operators. */
  function LastNext(t: Tree): (o: Op)
    requires t.Node?
    ensures o in Ops(t)
  {
    if t.next.Leaf? then t.op else LastNext(t.next)
  }

  function LastSub(t: Tree): (o: Op)
    requires t.Node?
    ensures o in Ops(t)
  {
    if t.sub.Leaf? then t.op else LastSub(t.sub)
  }

  function AppendNext(t: Tree, u: Tree): Tree
    requires t.Node?
  {
    t.(next := if t.next.Leaf? then u else AppendNext(t.next, u))
  }

  function AppendSub(t: Tree, u: Tree): Tree
    requires t.Node?
  {
    t.(sub := if t.sub.Leaf? then u else AppendSub(t.sub, u))
  }

  lemma {:induction false} AppendNextShape(m: Snap, t: Tree, o: Op?, u: Tree, s: Op?)
    requires t.Node? && Shape(m, t, o) && Shape(m, u, s) && Distinct(t) && Distinct(u) && Ops(t) !! Ops(u)
    ensures LastNext(t) in m
    ensures var m' := m[LastNext(t) := m[LastNext(t)].(parallel := s)];
            Shape(m', AppendNext(t, u), o) && Distinct(AppendNext(t, u)) && Ops(AppendNext(t, u)) == Ops(t) + Ops(u)
    decreases t
  {
    if t.next.Node? {
      AppendNextShape(m, t.next, m[t.op].parallel, u, s);
    } else {
      ShapeElsewhere(m, u, s, t.op, m[t.op].(parallel := s));
    }
    ShapeElsewhere(m, t.sub, m[t.op].cascade, LastNext(t), m[LastNext(t)].(parallel := s));
  }

  lemma {:induction false} AppendSubShape(m: Snap, t: Tree, o: Op?, u: Tree, s: Op?)
    requires t.Node? && Shape(m, t, o) && Shape(m, u, s) && Distinct(t) && Distinct(u) && Ops(t) !! Ops(u)
    ensures LastSub(t) in m
    ensures var m' := m[LastSub(t) := m[LastSub(t)].(cascade := s)];
            Shape(m', AppendSub(t, u), o) && Distinct(AppendSub(t, u)) && Ops(AppendSub(t, u)) == Ops(t) + Ops(u)
    decreases t
  {
    if t.sub.Node? {
      AppendSubShape(m, t.sub, m[t.op].cascade, u, s);
    } else {
      ShapeElsewhere(m, u, s, t.op, m[t.op].(cascade := s));
    }
    ShapeElsewhere(m, t.next, m[t.op].parallel, LastSub(t), m[LastSub(t)].(cascade := s));
  }

  /** All operators of a tree, neighbours last or sub-operators last. */
  ghost function ByRow(t: Tree): seq<Op>
  {
    match t
    case Leaf => []
    case Node(op, sub, next) => [op] + ByRow(sub) + ByRow(next)
  }

  ghost function ByColumn(t: Tree): seq<Op>
  {
    match t
    case Leaf => []
    case Node(op, sub, next) => [op] + ByColumn(next) + ByColumn(sub)
  }

  /** A tree linked to the end of a chain comes behind everything that was there, in its own order. */
  lemma {:induction false} LinkedBehind(t: Tree, u: Tree)
    requires t.Node?
    ensures ByRow(AppendNext(t, u)) == ByRow(t) + ByRow(u)
    ensures ByColumn(AppendSub(t, u)) == ByColumn(t) + ByColumn(u)
  {
    hide ByRow, ByColumn, AppendNext, AppendSub;
    NextBehind(t, u);
    SubBehind(t, u);
  }

  lemma {:induction false} NextBehind(t: Tree, u: Tree)
    requires t.Node?
    ensures ByRow(AppendNext(t, u)) == ByRow(t) + ByRow(u)
    decreases t
  {
    hide ByRow, AppendNext;
    LinkStep(t, u);
    RowStep(t);
    RowStep(AppendNext(t, u));
    if t.next.Node? {
      NextBehind(t.next, u);
    }
    Regroup([t.op] + ByRow(t.sub), ByRow(t.next), ByRow(u));
  }

  lemma {:induction false} LinkStep(t: Tree, u: Tree)
    requires t.Node?
    ensures AppendNext(t, u) == t.(next := if t.next.Leaf? then u else AppendNext(t.next, u))
    ensures AppendSub(t, u) == t.(sub := if t.sub.Leaf? then u else AppendSub(t.sub, u))
    ensures ByRow(Leaf) == [] && ByColumn(Leaf) == []
  {
  }

  lemma {:induction false} RowStep(t: Tree)
    requires t.Node?
    ensures ByRow(t) == [t.op] + ByRow(t.sub) + ByRow(t.next)
    ensures ByColumn(t) == [t.op] + ByColumn(t.next) + ByColumn(t.sub)
  {
  }

  lemma {:induction false} Regroup(a: seq<Op>, b: seq<Op>, c: seq<Op>)
    ensures a + (b + c) == (a + b) + c && [] + c == c
  {
  }

  lemma {:induction false} SubBehind(t: Tree, u: Tree)
    requires t.Node?
    ensures ByColumn(AppendSub(t, u)) == ByColumn(t) + ByColumn(u)
    decreases t
  {
    hide ByColumn, AppendSub;
    LinkStep(t, u);
    RowStep(t);
    RowStep(AppendSub(t, u));
    if t.sub.Node? {
      SubBehind(t.sub, u);
    }
    Regroup([t.op] + ByColumn(t.next), ByColumn(t.sub), ByColumn(u));
  }

  /** `fmsynthop_parallel_subop`: joining two unshared trees gives an unshared tree. */
  method ParallelSubop(op: Op, subop: Op, ghost t: Tree, ghost u: Tree, ghost m: Snap)
    requires Shape(m, t, op) && Shape(m, u, subop) && Distinct(t) && Distinct(u) && Ops(t) !! Ops(u)
    requires Matches(m, Ops(t) + Ops(u))
    modifies Ops(t)`parallel
    ensures LastNext(t) in m
    ensures var m' := m[LastNext(t) := m[LastNext(t)].(parallel := subop)];
            Matches(m', Ops(t) + Ops(u)) && Shape(m', AppendNext(t, u), op) && Distinct(AppendNext(t, u))
  {
    hide Env.Shaped;
    AppendNextShape(m, t, op, u, subop);
    var tmp := op;
    ghost var cur := t;
    while tmp.parallel != null
      invariant cur.Node? && Shape(m, cur, tmp) && Ops(cur) <= Ops(t) && LastNext(cur) == LastNext(t)
      decreases cur
    {
      tmp := tmp.parallel;
      cur := cur.next;
    }
    tmp.parallel := subop;
  }

  /** `fmsynthop_cascade_subop` */
  method CascadeSubop(op: Op, subop: Op, ghost t: Tree, ghost u: Tree, ghost m: Snap)
    requires Shape(m, t, op) && Shape(m, u, subop) && Distinct(t) && Distinct(u) && Ops(t) !! Ops(u)
    requires Matches(m, Ops(t) + Ops(u))
    modifies Ops(t)`cascade
    ensures LastSub(t) in m
    ensures var m' := m[LastSub(t) := m[LastSub(t)].(cascade := subop)];
            Matches(m', Ops(t) + Ops(u)) && Shape(m', AppendSub(t, u), op) && Distinct(AppendSub(t, u))
  {
    hide Env.Shaped;
    AppendSubShape(m, t, op, u, subop);
    var tmp := op;
    ghost var cur := t;
    while tmp.cascade != null
      invariant cur.Node? && Shape(m, cur, tmp) && Ops(cur) <= Ops(t) && LastSub(cur) == LastSub(t)
      decreases cur
    {
      tmp := tmp.cascade;
      cur := cur.sub;
    }
    tmp.cascade := subop;
  }
}
