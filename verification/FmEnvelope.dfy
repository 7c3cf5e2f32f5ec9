/**
The envelope generator: six states in a row, each a straight line from its own
level to the next state's, counted in samples.
*/
module FmEnvelope {
  import opened CArith

  /** `FMSYNTH_MAX_EGLEVEL`, an eighth of the largest sample. */
  const MAX_EGLEVEL := 32767 / 8

  const ATTACK := 0
  const RELEASED := 5

  datatype Param = Param(initval: int, period: int, diff2next: int)

  datatype Eg = Eg(state: nat, counter: nat, params: seq<Param>)

  /** A level between -1 and 1 and how long it takes to get there. */
  datatype Level = Level(level: real, periodMs: int)

  datatype Levels = Levels(attack: Level, decaybrk: Level, decay: Level, sustain: Level, release: Level)

  /** C's conversion to an integer, towards zero. */
  function Truncate(x: real): int
  {
    if x >= 0.0 then x.Floor else -((-x).Floor)
  }

  predicate Shaped(e: Eg)
  {
    |e.params| == 6 && e.state <= RELEASED
  }

  function Create(): (e: Eg)
    ensures Shaped(e)
  {
    Eg(RELEASED, 0, seq(6, i => Param(if i == RELEASED then MAX_EGLEVEL else 0, 0, 0)))
  }

  function Convert(l: Level): int
  {
    Truncate(l.level * MAX_EGLEVEL as real)
  }

  function MakeParam(fs: nat, target: Level, last: Level): Param
  {
    Param(Convert(last), CDiv(fs * target.periodMs, 1000), Convert(target) - Convert(last))
  }

  predicate BadParam(p: Param)
  {
    p.initval < -MAX_EGLEVEL || p.initval > MAX_EGLEVEL || p.period < 0
  }

  /** `fmsyntheg_set_param`: the parameters are stored even when one is refused. */
  function SetParam(e: Eg, fs: int, l: Levels): (r: (Eg, bool))
    requires Shaped(e)
    ensures Shaped(r.0)
  {
    if fs <= 0 then (e, false)
    else
      var ps := [MakeParam(fs, l.attack, l.release), MakeParam(fs, l.decaybrk, l.attack), MakeParam(fs, l.decay, l.decaybrk),
                 MakeParam(fs, l.sustain, l.decay), MakeParam(fs, l.release, l.sustain),
                 e.params[RELEASED].(initval := Convert(l.release))];
      (e.(params := ps), forall i :: 0 <= i < 5 ==> !BadParam(ps[i]))
  }

  function Start(e: Eg): (r: Eg)
    requires Shaped(e)
    ensures Shaped(r)
  {
    e.(state := ATTACK, counter := 0)
  }

  function Stop(e: Eg): (r: Eg)
    requires Shaped(e)
    ensures Shaped(r)
  {
    e.(state := RELEASED, counter := 0)
  }

  /** The next state with a period, or the last one. */
  function NextState(ps: seq<Param>, s: nat): (r: nat)
    requires |ps| == 6 && s < RELEASED
    ensures s < r <= RELEASED
    ensures r < RELEASED ==> ps[r].period != 0
    ensures forall k :: s < k < r ==> ps[k].period == 0
    decreases RELEASED - s
  {
    if s + 1 < RELEASED && ps[s + 1].period == 0 then NextState(ps, s + 1) else s + 1
  }

  /** `fmsyntheg_operate`: one sample. */
  function Operate(e: Eg): (r: (int, Eg))
    requires Shaped(e)
    ensures Shaped(r.1)
  {
    var p := e.params[e.state];
    if e.state == RELEASED then (p.initval, e)
    else if e.counter >= p.period then
      var s := NextState(e.params, e.state);
      (e.params[s].initval, e.(state := s, counter := 0))
    else
      (p.initval + CDiv(p.diff2next * e.counter, p.period), e.(counter := e.counter + 1))
  }

  // ----- levels -----

  /** What an accepted setting guarantees: levels in range, and each line ends where the next begins. */
  predicate Tuned(ps: seq<Param>)
  {
    && |ps| == 6
    && (forall i :: 0 <= i < 6 ==> -MAX_EGLEVEL <= ps[i].initval <= MAX_EGLEVEL)
    && (forall i :: 0 <= i < 5 ==> ps[i].period >= 0 && ps[i].initval + ps[i].diff2next == ps[i + 1].initval)
  }

  lemma {:induction false} AcceptedIsTuned(e: Eg, fs: int, l: Levels)
    requires Shaped(e) && SetParam(e, fs, l).1
    ensures Tuned(SetParam(e, fs, l).0.params)
    ensures SetParam(e, fs, l).0.params[ATTACK].initval == SetParam(e, fs, l).0.params[RELEASED].initval
  {
    hide Truncate, CDiv;
    var ps := SetParam(e, fs, l).0.params;
    assert !BadParam(ps[0]) && !BadParam(ps[1]) && !BadParam(ps[2]) && !BadParam(ps[3]) && !BadParam(ps[4]);
  }

  /** `v` is `y` without its fraction. */
  ghost predicate WholePart(v: int, y: real)
  {
    if y >= 0.0 then v as real <= y < v as real + 1.0 else v as real - 1.0 < y <= v as real
  }

  lemma {:induction false} TruncateIsWhole(y: real)
    ensures WholePart(Truncate(y), y)
  {
  }

  /** `v` is the level `x`, given as a part of the maximum, without its fraction. */
  ghost predicate Scaled(v: int, x: real)
  {
    WholePart(v, x * MAX_EGLEVEL as real)
  }

  /** The levels in the order in which they are gone through. */
  function Course(l: Levels): seq<Level>
  {
    [l.release, l.attack, l.decaybrk, l.decay, l.sustain, l.release]
  }

  /** A segment from one level to another, in the time given with the latter. */
  ghost predicate Connects(p: Param, fs: int, from: Level, to: Level)
  {
    && Scaled(p.initval, from.level) && Scaled(p.initval + p.diff2next, to.level)
    && TowardZero(p.period, fs * to.periodMs, 1000)
  }

  /** What a setting stores: each segment connects two neighbouring levels of the course. */
  lemma {:induction false} SettingMeans(e: Eg, fs: int, l: Levels)
    requires Shaped(e) && fs > 0
    ensures var ps := SetParam(e, fs, l).0.params;
            && (forall i :: 0 <= i < 5 ==> Connects(ps[i], fs, Course(l)[i], Course(l)[i + 1]))
            && Scaled(ps[RELEASED].initval, l.release.level)
  {
    hide Scaled, Convert, Connects, MakeParam, BadParam;
    var ps, course := SetParam(e, fs, l).0.params, Course(l);
    forall i | 0 <= i < 5
      ensures Connects(ps[i], fs, course[i], course[i + 1])
    {
      assert ps[i] == MakeParam(fs, course[i + 1], course[i]);
      MakeParamConnects(fs, course[i + 1], course[i]);
    }
    ConvertScales(l.release);
  }

  lemma {:induction false} MakeParamConnects(fs: nat, target: Level, last: Level)
    ensures Connects(MakeParam(fs, target, last), fs, last, target)
  {
    hide CDiv, TowardZero, Scaled, Convert;
    ConvertScales(last);
    ConvertScales(target);
    DivisionTruncates(fs * target.periodMs, 1000);
  }

  lemma {:induction false} ConvertScales(l: Level)
    ensures Scaled(Convert(l), l.level)
  {
    TruncateIsWhole(l.level * MAX_EGLEVEL as real);
  }

  predicate Between(v: int, a: int, b: int)
  {
    a <= v <= b || b <= v <= a
  }

  lemma {:induction false} QuotientBound(d: nat, counter: nat, period: nat)
    requires counter < period
    ensures 0 <= (d * counter) / period <= d
  {
    var x := d * counter;
    var q := x / period;
    assert x == period * q + x % period;
    if q > d {
      MulMono(d + 1, q, period);
      MulMono(counter, period, d);
      assert false;
    }
  }

  lemma {:induction false} LineStaysBetween(diff: int, counter: nat, period: nat)
    requires counter < period
    ensures Between(CDiv(diff * counter, period), 0, diff)
  {
    if diff >= 0 {
      QuotientBound(diff, counter, period);
      assert diff * counter >= 0;
    } else {
      QuotientBound(-diff, counter, period);
      assert -(diff * counter) == (-diff) * counter;
      assert diff * counter <= 0;
    }
  }

  /** An output lies between the two levels of the segment the generator is then in. */
  lemma {:induction false} OutputOnSegment(e: Eg)
    requires Shaped(e) && Tuned(e.params)
    ensures var (v, e') := Operate(e);
            && e'.params == e.params
            && Between(v, e.params[e'.state].initval, e.params[if e'.state == RELEASED then RELEASED else e'.state + 1].initval)
            && -MAX_EGLEVEL <= v <= MAX_EGLEVEL
  {
    hide CDiv;
    if e.state < RELEASED && e.counter < e.params[e.state].period {
      LineStaysBetween(e.params[e.state].diff2next, e.counter, e.params[e.state].period);
    }
  }

  // ----- the line within a segment -----

  /** `v` is where a line of `t` samples from `a` to `a + d` has come to after `c` of them, rounded towards `a`. */
  ghost predicate OnLine(v: int, a: int, d: int, c: nat, t: int)
  {
    TowardZero(v - a, d * c, t)
  }

  lemma {:induction false} OutputFollowsLine(e: Eg)
    requires Shaped(e) && e.state < RELEASED && e.counter < e.params[e.state].period
    ensures var p := e.params[e.state];
            OnLine(Operate(e).0, p.initval, p.diff2next, e.counter, p.period) && Operate(e).1 == e.(counter := e.counter + 1)
  {
    hide CDiv;
    var p := e.params[e.state];
    DivisionTruncates(p.diff2next * e.counter, p.period);
  }

  /** A line starts at `a`, ends at `a + d`, and on the way goes in one direction, by the floor or the
      ceiling of `d / t` a sample. */
  lemma {:induction false} LineSteps(v: int, v': int, a: int, d: int, c: nat, t: int)
    requires OnLine(v, a, d, c, t) && OnLine(v', a, d, c + 1, t)
    ensures if d >= 0 then v <= v' else v' <= v
    ensures v' - v == d / t || (d % t != 0 && v' - v == d / t + 1)
    ensures c == 0 ==> v == a
    ensures c + 1 == t ==> v' == a + d
  {
    hide TowardZero;
    LineBounds(v, a, d, c, t);
    LineBounds(v', a, d, c + 1, t);
    assert d * (c + 1) == d * c + d;
    var step := v' - v;
    assert (v' - a) * t - (v - a) * t == step * t;
    assert -t < step * t - d < t;
    StepIs(step, d, t);
    if c == 0 {
      AtMultiple(v - a, 0, t);
    }
    if c + 1 == t {
      AtMultiple(v' - a, d, t);
    }
  }

  lemma {:induction false} LineBounds(v: int, a: int, d: int, c: nat, t: int)
    requires OnLine(v, a, d, c, t)
    ensures t > 0
    ensures if d >= 0 then 0 <= d * c - (v - a) * t < t else -t < d * c - (v - a) * t <= 0
  {
    MulSign(d, c);
    QuotientBounds(v - a, d * c, t);
  }

  lemma {:induction false} MulSign(d: int, c: nat)
    ensures if d >= 0 then d * c >= 0 else d * c <= 0
  {
  }

  lemma {:induction false} QuotientBounds(q: int, n: int, t: int)
    requires TowardZero(q, n, t)
    ensures t > 0
    ensures n >= 0 ==> 0 <= n - q * t < t
    ensures n <= 0 ==> -t < n - q * t <= 0
  {
    if n == 0 {
      AtMultiple(q, 0, t);
    }
  }

  lemma {:induction false} StepIs(step: int, d: int, t: int)
    requires t > 0 && -t < step * t - d < t
    ensures step == d / t || (d % t != 0 && step == d / t + 1)
    ensures if d >= 0 then step >= 0 else step <= 0
  {
    var q, r := d / t, d % t;
    assert d == q * t + r;
    assert (step - q) * t == step * t - q * t;
    assert -t < (step - q) * t - r < t;
    if step - q >= 2 {
      MulMono(2, step - q, t);
    } else if step - q <= -1 {
      MulMono(step - q, -1, t);
    }
  }

  lemma {:induction false} AtMultiple(q: int, p: int, t: int)
    requires t > 0 && TowardZero(q, p * t, t)
    ensures q == p
  {
    Multiples(p, t);
    OneQuotient(q, p, p * t, t);
  }

  datatype Event = Started | Stopped | Sampled

  /** The outputs of a run of start, stop and sample calls. */
  function Outputs(e: Eg, events: seq<Event>): seq<int>
    requires Shaped(e)
    decreases |events|
  {
    if events == [] then []
    else match events[0]
      case Started => Outputs(Start(e), events[1..])
      case Stopped => Outputs(Stop(e), events[1..])
      case Sampled => [Operate(e).0] + Outputs(Operate(e).1, events[1..])
  }

  lemma {:induction false} OutputsBounded(e: Eg, events: seq<Event>)
    requires Shaped(e) && Tuned(e.params)
    ensures forall k :: 0 <= k < |Outputs(e, events)| ==> -MAX_EGLEVEL <= Outputs(e, events)[k] <= MAX_EGLEVEL
    decreases |events|
  {
    hide Operate, Tuned;
    if events != [] {
      match events[0]
      case Started => OutputsBounded(Start(e), events[1..]);
      case Stopped => OutputsBounded(Stop(e), events[1..]);
      case Sampled =>
        OutputOnSegment(e);
        OutputsBounded(Operate(e).1, events[1..]);
    }
  }

  // ----- time -----

  /** The samples spent in the states from `s` on: a state without a period is passed over. */
  function Ahead(ps: seq<Param>, s: nat): nat
    requires |ps| == 6 && 0 < s <= RELEASED
    decreases RELEASED - s
  {
    if s == RELEASED then 0
    else (if ps[s].period > 0 then ps[s].period + 1 else 0) + Ahead(ps, s + 1)
  }

  /** How many samples until the generator is released. */
  function Remaining(e: Eg): nat
    requires Shaped(e)
  {
    if e.state == RELEASED then 0
    else (if e.counter < e.params[e.state].period then e.params[e.state].period - e.counter else 0) + 1 + Ahead(e.params, e.state + 1)
  }

  lemma {:induction false} AheadSkips(ps: seq<Param>, s: nat)
    requires |ps| == 6 && s < RELEASED && forall i :: 0 <= i < 5 ==> ps[i].period >= 0
    ensures var n := NextState(ps, s);
            Ahead(ps, s + 1) == if n == RELEASED then 0 else ps[n].period + 1 + Ahead(ps, n + 1)
    decreases RELEASED - s
  {
    if s + 1 < RELEASED && ps[s + 1].period == 0 {
      AheadSkips(ps, s + 1);
    }
  }

  /** Every sample brings the release one sample nearer. */
  lemma {:induction false} EverySampleCounts(e: Eg)
    requires Shaped(e) && Tuned(e.params) && e.state != RELEASED
    ensures Remaining(Operate(e).1) == Remaining(e) - 1
  {
    hide CDiv, Ahead, NextState;
    AheadSkips(e.params, e.state);
  }

  function OperateTimes(e: Eg, n: nat): (r: Eg)
    requires Shaped(e)
    ensures Shaped(r)
    decreases n
  {
    if n == 0 then e else OperateTimes(Operate(e).1, n - 1)
  }

  lemma {:induction false} ReleasedAfter(e: Eg, n: nat)
    requires Shaped(e) && Tuned(e.params)
    ensures OperateTimes(e, n).state == RELEASED <==> n >= Remaining(e)
    decreases n
  {
    hide Operate, Tuned;
    if n > 0 {
      OutputOnSegment(e);
      if e.state == RELEASED {
        ReleasedStays(e);
      } else {
        EverySampleCounts(e);
      }
      ReleasedAfter(Operate(e).1, n - 1);
    }
  }

  lemma {:induction false} ReleasedStays(e: Eg)
    requires Shaped(e) && e.state == RELEASED
    ensures Operate(e).1 == e
  {
  }

  /** One more than its period for each state: the attack always, a later one if it has a period. */
  function EnvelopeLength(ps: seq<Param>): int
    requires |ps| == 6
  {
    ps[0].period + 1
    + (if ps[1].period > 0 then ps[1].period + 1 else 0)
    + (if ps[2].period > 0 then ps[2].period + 1 else 0)
    + (if ps[3].period > 0 then ps[3].period + 1 else 0)
    + (if ps[4].period > 0 then ps[4].period + 1 else 0)
  }

  /** From a start, the generator is released after exactly that many samples and not before. */
  lemma {:induction false} ReleaseTime(e: Eg, n: nat)
    requires Shaped(e) && Tuned(e.params)
    ensures OperateTimes(Start(e), n).state == RELEASED <==> n >= EnvelopeLength(e.params)
  {
    hide OperateTimes;
    ReleasedAfter(Start(e), n);
    var ps := e.params;
    assert Ahead(ps, 5) == 0;
    assert Ahead(ps, 4) == (if ps[4].period > 0 then ps[4].period + 1 else 0);
    assert Ahead(ps, 3) == (if ps[3].period > 0 then ps[3].period + 1 else 0) + Ahead(ps, 4);
    assert Ahead(ps, 2) == (if ps[2].period > 0 then ps[2].period + 1 else 0) + Ahead(ps, 3);
  }

  // ----- the whole curve -----

  lemma {:induction false} OperateSum(e: Eg, n: nat, k: nat)
    requires Shaped(e)
    ensures OperateTimes(e, n + k) == OperateTimes(OperateTimes(e, n), k)
    decreases n
  {
    hide Operate;
    if n > 0 {
      OperateSum(Operate(e).1, n - 1, k);
    }
  }

  /** The segments that are gone through from a start: the attack, and later ones with a period. */
  predicate Visited(ps: seq<Param>, s: nat)
    requires |ps| == 6
  {
    s == ATTACK || (s < RELEASED && ps[s].period > 0)
  }

  /** How many samples after a start a segment is entered. */
  function Entered(ps: seq<Param>, s: nat): int
    requires |ps| == 6 && s <= RELEASED
    decreases s
  {
    if s == ATTACK then 0
    else Entered(ps, s - 1) + if Visited(ps, s - 1) then ps[s - 1].period + 1 else 0
  }

  lemma {:induction false} EnteredGrows(ps: seq<Param>, s: nat)
    requires Tuned(ps) && s <= RELEASED
    ensures Entered(ps, s) >= 0 && Entered(ps, RELEASED) == EnvelopeLength(ps)
    decreases s
  {
    if s > 0 {
      EnteredGrows(ps, s - 1);
    } else {
      assert Entered(ps, 1) == ps[0].period + 1;
      assert Entered(ps, 3) == Entered(ps, 1) + (if ps[1].period > 0 then ps[1].period + 1 else 0) + (if ps[2].period > 0 then ps[2].period + 1 else 0);
    }
  }

  /** The segment before `s` that is gone through. */
  function Before(ps: seq<Param>, s: nat): (r: nat)
    requires |ps| == 6 && 0 < s <= RELEASED
    ensures r < s && Visited(ps, r)
    ensures forall k :: r < k < s ==> !Visited(ps, k)
    ensures Entered(ps, s) == Entered(ps, r) + ps[r].period + 1
    decreases s
  {
    if Visited(ps, s - 1) then s - 1 else Before(ps, s - 1)
  }

  /** Within a segment the counter goes up. */
  lemma {:induction false} Counting(e: Eg, c: nat)
    requires Shaped(e) && e.state < RELEASED && e.counter == 0 && c <= e.params[e.state].period
    ensures OperateTimes(e, c) == e.(counter := c)
    decreases c
  {
    hide CDiv;
    if c > 0 {
      Counting(e, c - 1);
      OperateSum(e, c - 1, 1);
      assert OperateTimes(e.(counter := c - 1), 1) == OperateTimes(Operate(e.(counter := c - 1)).1, 0);
    }
  }

  /** Where the generator stands at every moment after a start. */
  lemma {:induction false} Timeline(e: Eg, s: nat, c: nat)
    requires Shaped(e) && Tuned(e.params) && s <= RELEASED && (s == RELEASED || (Visited(e.params, s) && c <= e.params[s].period))
    ensures Entered(e.params, s) >= 0
    ensures OperateTimes(Start(e), Entered(e.params, s) + c) == e.(state := s, counter := if s == RELEASED then 0 else c)
    decreases s
  {
    hide Operate, Entered, OperateTimes;
    var ps := e.params;
    EnteredGrows(ps, s);
    var at := e.(state := s, counter := 0);
    if s > 0 {
      var b := Before(ps, s);
      Timeline(e, b, ps[b].period);
      SegmentEnds(e.(state := b, counter := ps[b].period), s);
      OperateSum(Start(e), Entered(ps, b) + ps[b].period, 1);
    } else {
      AtStart(e);
    }
    OperateSum(Start(e), Entered(ps, s), c);
    if s == RELEASED {
      StaysReleased(at, c);
    } else {
      Counting(at, c);
    }
  }

  lemma {:induction false} AtStart(e: Eg)
    requires Shaped(e)
    ensures Entered(e.params, ATTACK) == 0 && OperateTimes(Start(e), 0) == e.(state := ATTACK, counter := 0)
  {
  }

  lemma {:induction false} SegmentEnds(e: Eg, s: nat)
    requires Shaped(e) && Tuned(e.params) && e.state < s <= RELEASED && e.counter == e.params[e.state].period
    requires (s == RELEASED || Visited(e.params, s)) && forall k :: e.state < k < s ==> !Visited(e.params, k)
    ensures NextState(e.params, e.state) == s
    ensures OperateTimes(e, 1) == e.(state := s, counter := 0) && Operate(e).0 == e.params[s].initval
  {
    hide NextState;
    var n := NextState(e.params, e.state);
    assert n < s ==> e.params[n].period != 0 && !Visited(e.params, n);
    assert OperateTimes(e, 1) == OperateTimes(Operate(e).1, 0);
  }

  lemma {:induction false} StaysReleased(e: Eg, n: nat)
    requires Shaped(e) && e.state == RELEASED
    ensures OperateTimes(e, n) == e
    decreases n
  {
    if n > 0 {
      StaysReleased(e, n - 1);
    }
  }

  function Samples(n: nat): seq<Event>
  {
    seq(n, _ => Sampled)
  }

  lemma {:induction false} OutputAt(e: Eg, n: nat, k: nat)
    requires Shaped(e) && k < n
    ensures |Outputs(e, Samples(n))| == n && Outputs(e, Samples(n))[k] == Operate(OperateTimes(e, k)).0
    decreases n
  {
    hide Operate;
    assert Samples(n)[1..] == Samples(n - 1);
    if n == 1 {
      assert Outputs(Operate(e).1, Samples(0)) == [];
    } else {
      OutputAt(Operate(e).1, n - 1, if k == 0 then 0 else k - 1);
    }
  }

  /** The state after a run of calls. */
  function AfterEvents(e: Eg, events: seq<Event>): (r: Eg)
    requires Shaped(e)
    ensures Shaped(r) && r.params == e.params
    decreases |events|
  {
    if events == [] then e
    else match events[0]
      case Started => AfterEvents(Start(e), events[1..])
      case Stopped => AfterEvents(Stop(e), events[1..])
      case Sampled => AfterEvents(Operate(e).1, events[1..])
  }

  lemma {:induction false} OutputsSplit(e: Eg, a: seq<Event>, b: seq<Event>)
    requires Shaped(e)
    ensures Outputs(e, a + b) == Outputs(e, a) + Outputs(AfterEvents(e, a), b)
    decreases |a|
  {
    hide Operate;
    if a == [] {
      assert a + b == b;
    } else {
      assert (a + b)[1..] == a[1..] + b;
      match a[0]
      case Started => OutputsSplit(Start(e), a[1..], b);
      case Stopped => OutputsSplit(Stop(e), a[1..], b);
      case Sampled => OutputsSplit(Operate(e).1, a[1..], b);
    }
  }

  /** What is put out `n` samples after a start or a stop that follows the calls `events`. */
  function OutputAfter(e: Eg, events: seq<Event>, last: Event, n: nat): (v: int)
    requires Shaped(e) && last != Sampled
  {
    var before := Outputs(e, events);
    OutputCount(e, events, last, n + 1);
    Outputs(e, events + [last] + Samples(n + 1))[|before| + n]
  }

  lemma {:induction false} OutputCount(e: Eg, events: seq<Event>, last: Event, n: nat)
    requires Shaped(e) && last != Sampled && n > 0
    ensures var e1 := if last == Started then Start(AfterEvents(e, events)) else Stop(AfterEvents(e, events));
            Outputs(e, events + [last] + Samples(n)) == Outputs(e, events) + Outputs(e1, Samples(n)) && |Outputs(e1, Samples(n))| == n
  {
    hide Operate;
    var e0 := AfterEvents(e, events);
    assert events + [last] + Samples(n) == events + ([last] + Samples(n));
    OutputsSplit(e, events, [last] + Samples(n));
    assert ([last] + Samples(n))[1..] == Samples(n);
    OutputAt(if last == Started then Start(e0) else Stop(e0), n, 0);
  }

  /** After a start, whatever went before, the samples draw the segments one after the other: each as a
      straight line from its level towards the next, and then the level of the segment that follows. */
  lemma {:induction false} EnvelopeCurve(e: Eg, events: seq<Event>, s: nat, c: nat)
    requires Shaped(e) && Tuned(e.params) && Visited(e.params, s) && c <= e.params[s].period
    ensures Entered(e.params, s) >= 0
    ensures var p, v := e.params[s], OutputAfter(e, events, Started, Entered(e.params, s) + c);
            if c < p.period then OnLine(v, p.initval, p.diff2next, c, p.period)
            else v == e.params[NextState(e.params, s)].initval
  {
    hide Operate, Outputs, OnLine, OperateTimes, Entered, AfterEvents;
    var e0 := AfterEvents(e, events);
    Timeline(e0, s, c);
    var n := Entered(e.params, s) + c;
    OutputCount(e, events, Started, n + 1);
    OutputAt(Start(e0), n + 1, n);
    var here := e0.(state := s, counter := c);
    if c < e.params[s].period {
      OutputFollowsLine(here);
    } else {
      SegmentOver(here);
    }
  }

  /** Within a segment the curve goes in one direction, by the floor or the ceiling of the slope a sample. */
  lemma {:induction false} CurveSteps(e: Eg, events: seq<Event>, s: nat, c: nat)
    requires Shaped(e) && Tuned(e.params) && Visited(e.params, s) && c + 1 < e.params[s].period
    ensures Entered(e.params, s) >= 0
    ensures var p, n := e.params[s], Entered(e.params, s) + c;
            var step := OutputAfter(e, events, Started, n + 1) - OutputAfter(e, events, Started, n);
            && (if p.diff2next >= 0 then step >= 0 else step <= 0)
            && (step == p.diff2next / p.period || (p.diff2next % p.period != 0 && step == p.diff2next / p.period + 1))
  {
    hide OutputAfter, OnLine, Entered;
    EnvelopeCurve(e, events, s, c);
    EnvelopeCurve(e, events, s, c + 1);
    var p, n := e.params[s], Entered(e.params, s) + c;
    LineSteps(OutputAfter(e, events, Started, n), OutputAfter(e, events, Started, n + 1), p.initval, p.diff2next, c, p.period);
  }

  lemma {:induction false} SegmentOver(e: Eg)
    requires Shaped(e) && e.state < RELEASED && e.counter >= e.params[e.state].period
    ensures Operate(e).0 == e.params[NextState(e.params, e.state)].initval
  {
  }

  /** Every sample up to the release is one of those. */
  lemma {:induction false} EverySamplePlaced(ps: seq<Param>, n: nat) returns (s: nat, c: nat)
    requires Tuned(ps) && n < EnvelopeLength(ps)
    ensures Visited(ps, s) && c <= ps[s].period && n == Entered(ps, s) + c
  {
    EnteredGrows(ps, ATTACK);
    s := RELEASED;
    while Entered(ps, s) > n
      invariant 0 < s <= RELEASED && Entered(ps, s) > n
      decreases s
    {
      var b := Before(ps, s);
      if Entered(ps, b) <= n {
        return b, n - Entered(ps, b);
      }
      s := b;
    }
  }

  /** A new generator, before it is set or started, stays at full level. */
  lemma {:induction false} NewStaysFull(n: nat)
    ensures OperateTimes(Create(), n) == Create() && Operate(Create()).0 == MAX_EGLEVEL
  {
    StaysReleased(Create(), n);
  }

  /** From the release on, and after a stop, the level is that of the release. */
  lemma {:induction false} ReleasedLevel(e: Eg, events: seq<Event>, n: nat)
    requires Shaped(e) && Tuned(e.params)
    ensures n >= EnvelopeLength(e.params) ==> OutputAfter(e, events, Started, n) == e.params[RELEASED].initval
    ensures OutputAfter(e, events, Stopped, n) == e.params[RELEASED].initval
  {
    hide Outputs, OperateTimes, Entered, AfterEvents, Tuned;
    var e0 := AfterEvents(e, events);
    EnteredGrows(e.params, RELEASED);
    OutputCount(e, events, Stopped, n + 1);
    OutputAt(Stop(e0), n + 1, n);
    StaysReleased(Stop(e0), n);
    if n >= EnvelopeLength(e.params) {
      Timeline(e0, RELEASED, n - EnvelopeLength(e.params));
      OutputCount(e, events, Started, n + 1);
      OutputAt(Start(e0), n + 1, n);
    }
  }

  // ----- in place -----

  class Generator {
    var state: nat
    var counter: nat
    const params: array<Param>

    ghost function View(): Eg
      reads this, params
    {
      Eg(state, counter, params[..])
    }

    ghost predicate Valid()
      reads this, params
    {
      Shaped(View())
    }

    constructor ()
      ensures Valid() && View() == Create() && fresh(params)
    {
      state, counter := RELEASED, 0;
      params := new Param[6](_ => Param(0, 0, 0));
      new;
      params[RELEASED] := params[RELEASED].(initval := MAX_EGLEVEL);
    }

    method StoreParam(i: nat, fs: nat, target: Level, last: Level) returns (ok: bool)
      requires Valid() && i < 6
      modifies params
      ensures View() == old(View()).(params := old(params[..])[i := MakeParam(fs, target, last)])
      ensures ok == !BadParam(params[i])
    {
      params[i] := MakeParam(fs, target, last);
      ok := !(params[i].initval < -MAX_EGLEVEL || params[i].initval > MAX_EGLEVEL || params[i].period < 0);
    }

    method SetLevels(fs: int, l: Levels) returns (ok: bool)
      requires Valid()
      modifies params
      ensures Valid() && (View(), ok) == SetParam(old(View()), fs, l)
    {
      hide MakeParam, BadParam;
      if fs <= 0 {
        return false;
      }
      var ok0 := StoreParam(0, fs, l.attack, l.release);
      var ok1 := StoreParam(1, fs, l.decaybrk, l.attack);
      var ok2 := StoreParam(2, fs, l.decay, l.decaybrk);
      var ok3 := StoreParam(3, fs, l.sustain, l.decay);
      var ok4 := StoreParam(4, fs, l.release, l.sustain);
      params[RELEASED] := params[RELEASED].(initval := Convert(l.release));
      ok := ok0 && ok1 && ok2 && ok3 && ok4;
      ghost var ps := SetParam(old(View()), fs, l).0.params;
      assert params[..] == ps;
      assert ok == (!BadParam(ps[0]) && !BadParam(ps[1]) && !BadParam(ps[2]) && !BadParam(ps[3]) && !BadParam(ps[4]));
    }

    method Begin()
      requires Valid()
      modifies this
      ensures Valid() && View() == Start(old(View()))
    {
      state, counter := ATTACK, 0;
    }

    method Halt()
      requires Valid()
      modifies this
      ensures Valid() && View() == Stop(old(View()))
    {
      state, counter := RELEASED, 0;
    }

    method Sample() returns (val: int)
      requires Valid()
      modifies this
      ensures Valid() && (val, View()) == Operate(old(View()))
      ensures old(state) < RELEASED && old(counter) < params[old(state)].period ==>
                && OnLine(val, params[old(state)].initval, params[old(state)].diff2next, old(counter), params[old(state)].period)
                && state == old(state) && counter == old(counter) + 1
    {
      hide OnLine, CDiv;
      if state < RELEASED && counter < params[state].period {
        OutputFollowsLine(View());
      }
      val := params[state].initval;
      if state != RELEASED {
        if counter >= params[state].period {
          counter := 0;
          ghost var goal := NextState(params[..], state);
          state := state + 1;
          while state < RELEASED && params[state].period == 0
            invariant state <= goal <= RELEASED && counter == 0
            invariant goal == if state < RELEASED && params[state].period == 0 then NextState(params[..], state) else state
            decreases RELEASED - state
          {
            state := state + 1;
          }
          val := params[state].initval;
        } else {
          val := val + CDiv(params[state].diff2next * counter, params[state].period);
          counter := counter + 1;
        }
      }
    }
  }
}
