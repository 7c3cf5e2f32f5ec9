/**
How exact the fragment of `NshRefinement` is, for each setting of the flag that
keeps a script going after an error. With the flag clear take any script in which
no loop that is itself inside a loop has a `break` under an `if`; with the flag set
any script in which no loop has one. The machine agrees with the evaluator in
every world if and only if no loop stands directly in a loop body and no `break`
stands under an `if` of a loop body. For a script outside the fragment a world is
built that steers both to the first misplaced statement. From a misplaced loop on,
the machine runs a condition the evaluator never runs. From a misplaced `break` on,
the machine is a frame short and stops with a syntax error, which the evaluator
never does.
*/
module NshExactness {
  import opened NshControl
  import opened NshScript
  import opened NshRefinement
  import opened NshAstray

  /** No loop that stands inside a loop has a `break` that can be reached under an `if` of its body; with
      the ignore-errors flag set no loop at all has one. `inner` says that the loop around the block is
      such a loop. */
  predicate Clear(b: Block, ctx: Context, inner: bool, ignore: bool)
  {
    match b
    case Nil => true
    case Cons(s, rest) =>
      && ClearStmt(s, ctx, inner, ignore)
      && (if s.Break? && ctx.LoopBody? then true else Clear(rest, ctx, inner, ignore))
  }

  predicate ClearStmt(s: Stmt, ctx: Context, inner: bool, ignore: bool)
  {
    match s
    case Cmd(_) => true
    case Break => !(ctx.UnderIf? && (inner || ignore))
    case If(_, _, thn, _, els) => Clear(thn, InsideIf(ctx), inner, ignore) && Clear(els, InsideIf(ctx), inner, ignore)
    case Loop(_, _, body) => Clear(body, LoopBody, !ctx.TopLevel?, ignore)
  }

  // ----- where to go -----

  /** The lines on the way to the first misplaced statement where the default answer will not do. */
  function Aim(b: Block, base: nat, ctx: Context): (odd: set<int>)
    ensures forall p :: p in odd ==> base <= p < base + |Lines(b)|
  {
    match b
    case Nil => {}
    case Cons(s, rest) =>
      if GoodStmt(s, ctx) then Aim(rest, base + |LinesOf(s)|, ctx) else AimStmt(s, base, ctx)
  }

  function AimStmt(s: Stmt, base: nat, ctx: Context): (odd: set<int>)
    ensures forall p :: p in odd ==> base <= p < base + |LinesOf(s)|
  {
    match s
    case Cmd(_) => {}
    case Break => {}
    case If(inverted, _, thn, _, els) =>
      if !Good(thn, InsideIf(ctx)) then
        (if inverted then {base} else {}) + Aim(thn, base + 2, InsideIf(ctx))
      else if s.hasElse then
        (if inverted then {} else {base}) + Aim(els, base + 3 + |Lines(thn)|, InsideIf(ctx))
      else {}
    case Loop(_, _, body) =>
      if !NoDirectLoop(body) then {} else {base} + Aim(body, base + 2, LoopBody)
  }

  /** `odd` is `Aim` on the lines from `base` to `end`. */
  ghost predicate Aimed(odd: set<int>, aim: set<int>, base: nat, end: nat)
  {
    forall p :: base <= p < end ==> (p in odd <==> p in aim)
  }

  // ----- the two runs drift apart -----

  /** The runs agree for some commands; then the machine runs one, before line `end`, that the evaluator has passed. */
  ghost predicate Splits(m: seq<Event>, e: seq<Event>, end: nat)
  {
    exists n: nat :: SplitsAt(m, e, end, n)
  }

  ghost predicate SplitsAt(m: seq<Event>, e: seq<Event>, end: nat, n: nat)
  {
    && n < |m| && n <= |e| && m[..n] == e[..n]
    && m[n].line < end
    && (n < |e| ==> e[n].line > m[n].line)
  }

  /** More commands of the evaluator, all from `end` on, do not bring the runs together. */
  lemma {:induction false} SplitsLater(m: seq<Event>, e: seq<Event>, end: nat, e': seq<Event>, end': nat)
    requires Splits(m, e, end)
    requires e <= e' && end <= end'
    requires forall i :: |e| <= i < |e'| ==> e'[i].line >= end
    ensures Splits(m, e', end')
  {
    var n: nat :| SplitsAt(m, e, end, n);
    assert e'[..n] == e[..n];
    assert SplitsAt(m, e', end', n);
  }

  lemma {:induction false} SplitsDiffer(m: seq<Event>, e: seq<Event>, end: nat)
    requires Splits(m, e, end)
    ensures m != e
  {
    var n: nat :| SplitsAt(m, e, end, n);
  }

  /** Without going back, a block only runs commands that stand on its own lines. */
  lemma {:induction false} EvalStaysInside(b: Block, base: nat, inLoop: bool, w: World, ignore: bool, trace: seq<Event>, fail: bool)
    requires WellFormed(b)
    ensures var r := EvalBlock(b, base, inLoop, w, ignore, trace, fail, 0);
            && trace <= r.trace
            && forall i :: |trace| <= i < |r.trace| ==> base <= r.trace[i].line < base + |Lines(b)|
    decreases b
  {
    hide EvalStmt, LinesOf, WellFormedStmt;
    if b.Cons? {
      EvalStmtStaysInside(b.head, base, inLoop, w, ignore, trace, fail);
      var r := EvalStmt(b.head, base, inLoop, w, ignore, trace, fail, 0);
      if r.flow.Normal? {
        EvalStaysInside(b.tail, base + |LinesOf(b.head)|, inLoop, w, ignore, r.trace, r.fail);
      }
    }
  }

  lemma {:induction false} EvalStmtStaysInside(s: Stmt, base: nat, inLoop: bool, w: World, ignore: bool, trace: seq<Event>, fail: bool)
    requires WellFormedStmt(s)
    ensures var r := EvalStmt(s, base, inLoop, w, ignore, trace, fail, 0);
            && trace <= r.trace
            && forall i :: |trace| <= i < |r.trace| ==> base <= r.trace[i].line < base + |LinesOf(s)|
    decreases s
  {
    hide EvalBlock, Lines, WellFormed;
    match s
    case Cmd(_) =>
    case Break =>
    case If(inverted, cond, thn, hasElse, els) =>
      var trace1 := trace + [Event(base, cond, fail)];
      EvalStaysInside(thn, base + 2, inLoop, w, ignore, trace1, false);
      EvalStaysInside(els, base + 3 + |Lines(thn)|, inLoop, w, ignore, trace1, false);
      if !hasElse {
        EvalNil(base + 3 + |Lines(thn)|, inLoop, w, ignore, trace1, false, 0);
      }
    case Loop(until, cond, body) =>
      var trace1 := trace + [Event(base, cond, fail)];
      EvalStaysInside(body, base + 2, true, w, ignore, trace1, false);
  }

  /** The machine never forgets a command it has run. */
  lemma {:induction false} RunRemembers(lines: seq<seq<Word>>, w: World, ignore: bool, np: Np, trace: seq<Event>)
    requires Sane(np)
    ensures trace <= Run(lines, w, ignore, np, trace, 0).out.trace
    decreases |lines| - np.filepos
  {
    hide ParseLine;
    if np.filepos < |lines| {
      Step(lines, w, ignore, np, trace, 0);
      var e := ParseLine(np, lines[np.filepos], w, trace);
      if e.np.filepos > np.filepos {
        RunRemembers(lines, w, ignore, e.np, e.trace);
      }
    }
  }

  // ----- the evaluator in such a world -----

  /** No command fails, so the evaluator never gives up. */
  lemma {:induction false} NeverAborted(lines: seq<seq<Word>>, odd: set<int>, b: Block, base: nat, inLoop: bool, ignore: bool, trace: seq<Event>, fail: bool)
    requires WellFormed(b) && Placed(lines, base, Lines(b))
    ensures !EvalBlock(b, base, inLoop, Steering(lines, odd), ignore, trace, fail, 0).flow.Aborted?
    decreases b
  {
    hide Steering, EvalStmt, LinesOf, WellFormedStmt, Placed;
    if b.Cons? {
      PlacedSplit(lines, base, LinesOf(b.head), Lines(b.tail));
      NeverAbortedStmt(lines, odd, b.head, base, inLoop, ignore, trace, fail);
      var r := EvalStmt(b.head, base, inLoop, Steering(lines, odd), ignore, trace, fail, 0);
      NeverAborted(lines, odd, b.tail, base + |LinesOf(b.head)|, inLoop, ignore, r.trace, r.fail);
    }
  }

  lemma {:induction false} NeverAbortedStmt(lines: seq<seq<Word>>, odd: set<int>, s: Stmt, base: nat, inLoop: bool, ignore: bool, trace: seq<Event>, fail: bool)
    requires WellFormedStmt(s) && Placed(lines, base, LinesOf(s))
    ensures !EvalStmt(s, base, inLoop, Steering(lines, odd), ignore, trace, fail, 0).flow.Aborted?
    decreases s
  {
    hide Steering, EvalBlock, Lines, WellFormed;
    match s
    case Cmd(argv) =>
      PlacedLast(lines, base, argv);
      SteeringAt(lines, odd, trace, base, argv, fail);
    case Break =>
    case If(inverted, cond, thn, hasElse, els) =>
      PlacedIf(lines, s, base);
      var trace1 := trace + [Event(base, cond, fail)];
      NeverAborted(lines, odd, thn, base + 2, inLoop, ignore, trace1, false);
      if hasElse {
        NeverAborted(lines, odd, els, base + 3 + |Lines(thn)|, inLoop, ignore, trace1, false);
      } else {
        EvalNil(base + 3 + |Lines(thn)|, inLoop, Steering(lines, odd), ignore, trace1, false, 0);
      }
    case Loop(until, cond, body) =>
      PlacedLoop(lines, s, base);
      NeverAborted(lines, odd, body, base + 2, true, ignore, trace + [Event(base, cond, fail)], false);
  }

  /** Where nothing is odd, good statements just pass. */
  lemma {:induction false} QuietBlock(lines: seq<seq<Word>>, odd: set<int>, b: Block, base: nat, ctx: Context, ignore: bool, trace: seq<Event>, fail: bool)
    requires WellFormed(b) && Good(b, ctx) && !ctx.LoopBody? && Placed(lines, base, Lines(b))
    requires Default(odd, base, base + |Lines(b)|)
    ensures EvalBlock(b, base, !ctx.TopLevel?, Steering(lines, odd), ignore, trace, fail, 0).flow.Normal?
    decreases b
  {
    hide Steering, EvalStmt, LinesOf, GoodStmt, WellFormedStmt;
    if b.Cons? {
      PlacedSplit(lines, base, LinesOf(b.head), Lines(b.tail));
      QuietStmt(lines, odd, b.head, base, ctx, ignore, trace, fail);
      var r := EvalStmt(b.head, base, !ctx.TopLevel?, Steering(lines, odd), ignore, trace, fail, 0);
      QuietBlock(lines, odd, b.tail, base + |LinesOf(b.head)|, ctx, ignore, r.trace, r.fail);
    }
  }

  lemma {:induction false} QuietStmt(lines: seq<seq<Word>>, odd: set<int>, s: Stmt, base: nat, ctx: Context, ignore: bool, trace: seq<Event>, fail: bool)
    requires WellFormedStmt(s) && GoodStmt(s, ctx) && !(s.Break? && ctx.LoopBody?) && Placed(lines, base, LinesOf(s))
    requires Default(odd, base, base + |LinesOf(s)|)
    ensures EvalStmt(s, base, !ctx.TopLevel?, Steering(lines, odd), ignore, trace, fail, 0).flow.Normal?
    decreases s
  {
    hide Steering, EvalBlock, Lines, Good, WellFormed;
    match s
    case Cmd(argv) =>
      PlacedLast(lines, base, argv);
      SteeringAt(lines, odd, trace, base, argv, fail);
    case Break =>
    case If(inverted, cond, thn, hasElse, els) =>
      PlacedIf(lines, s, base);
      var trace1 := trace + [Event(base, cond, fail)];
      QuietBlock(lines, odd, thn, base + 2, InsideIf(ctx), ignore, trace1, false);
      if hasElse {
        QuietBlock(lines, odd, els, base + 3 + |Lines(thn)|, InsideIf(ctx), ignore, trace1, false);
      } else {
        EvalNil(base + 3 + |Lines(thn)|, !ctx.TopLevel?, Steering(lines, odd), ignore, trace1, false, 0);
      }
    case Loop(until, cond, body) =>
      PlacedLoop(lines, s, base);
      SteeringAt(lines, odd, trace, base, cond, fail);
  }

  // ----- the misplaced loop -----

  lemma {:induction false} DirectLoopParts(b: Block, np: Np)
    requires WellFormed(b) && !NoDirectLoop(b) && Fits(np, IfDepth(b), LoopDepth(b))
    ensures b.Cons? && WellFormedStmt(b.head) && WellFormed(b.tail) && (b.head.Loop? || !NoDirectLoop(b.tail))
    ensures Fits(np, StmtIfDepth(b.head), StmtLoopDepth(b.head)) && Fits(np, IfDepth(b.tail), LoopDepth(b.tail))
    ensures Lines(b) == LinesOf(b.head) + Lines(b.tail)
  {
  }

  lemma {:induction false} SameEnabled(np: Np, q: Np)
    requires Idle(np) && Same(np, q)
    ensures Idle(q) && LoopEnabled(q) == LoopEnabled(np) && ItefEnabled(q) == ItefEnabled(np) && q.fd == np.fd
    ensures forall ifs: nat, loops: nat :: Fits(np, ifs, loops) ==> Fits(q, ifs, loops)
  {
  }

  /** In a loop that has stopped, the machine still runs the condition of the first direct inner loop. */
  lemma {:induction false} StoppedLoopRuns(lines: seq<seq<Word>>, w: World, ignore: bool, b: Block, np: Np, trace: seq<Event>)
    requires WellFormed(b) && Placed(lines, np.filepos, Lines(b))
    requires !NoDirectLoop(b)
    requires Idle(np) && !CmdEnabled(np) && ItefEnabled(np) && np.fd >= 0
    requires Fits(np, IfDepth(b), LoopDepth(b))
    ensures var m := Run(lines, w, ignore, np, trace, 0).out.trace;
            && |trace| < |m| && trace == m[..|trace|]
            && np.filepos <= m[|trace|].line < np.filepos + |Lines(b)|
    decreases b
  {
    hide Run, ParseLine, WellFormed, WellFormedStmt, Lines, LinesOf, Placed, IfDepth, LoopDepth, StmtIfDepth, StmtLoopDepth, NoDirectLoop, ItefEnabled, LoopEnabled, Same, Fits;
    DirectLoopParts(b, np);
    PlacedSplit(lines, np.filepos, LinesOf(b.head), Lines(b.tail));
    if b.head.Loop? {
      LoopRunsHere(lines, w, ignore, b.head, np, trace);
    } else {
      var np1;
      if b.head.If? {
        np1 := SkipIf(lines, w, ignore, b.head, np, trace, 0);
      } else {
        np1 := SkipLine(lines, w, ignore, b.head, np, trace, 0);
      }
      SameEnabled(np, np1);
      StoppedLoopRuns(lines, w, ignore, b.tail, np1, trace);
    }
  }

  /** A loop that is met where the if stack enables commands has its condition run. */
  lemma {:induction false} LoopRunsHere(lines: seq<seq<Word>>, w: World, ignore: bool, s: Stmt, np: Np, trace: seq<Event>)
    requires s.Loop? && WellFormedStmt(s) && Placed(lines, np.filepos, LinesOf(s))
    requires Idle(np) && ItefEnabled(np) && np.fd >= 0 && Fits(np, StmtIfDepth(s), StmtLoopDepth(s))
    ensures var m := Run(lines, w, ignore, np, trace, 0).out.trace;
            |trace| < |m| && trace == m[..|trace|] && m[|trace|].line == np.filepos < np.filepos + |LinesOf(s)|
  {
    hide Run, ParseLine, LinesOf, Placed, LoopLine;
    PlacedLoop(lines, s, np.filepos);
    LoopParts(s, np);
    LoopLineStep(np, s.until, s.cond, w, trace);
    Step(lines, w, ignore, np, trace, 0);
    var e := ParseLine(np, LoopLine(s.until, s.cond), w, trace);
    RunRemembers(lines, w, ignore, e.np, e.trace);
    assert e.trace[|trace|].line == np.filepos;
    assert e.trace[..|trace|] == trace;
  }

  // ----- steering to the misplaced statement -----

  /** What is known of the stacks on the way: all frames are in order, and the loop around is the outermost one unless `inner`. */
  predicate Tracked(np: Np, ctx: Context, inner: bool)
  {
    && Live(np, ctx) && Frames(np) && np.lp[0].state.LoopNormal?
    && (ctx.UnderIf? ==> TopLp(np).iendx < np.iendx)
    && (ctx.TopLevel? ==> !inner)
    && (!ctx.TopLevel? && !inner ==> np.lpndx == 1)
  }

  lemma {:induction false} SameTracked(np: Np, q: Np, ctx: Context, inner: bool)
    requires Tracked(np, ctx, inner) && Same(np, q)
    ensures Tracked(q, ctx, inner)
    ensures forall ifs: nat, loops: nat :: Fits(np, ifs, loops) ==> Fits(q, ifs, loops)
  {
  }

  /** Into the branch of an `if` that is taken. */
  lemma {:induction false} TrackedInFrame(np: Np, e: Itef, q: Np, ctx: Context, inner: bool)
    requires Tracked(np, ctx, inner) && np.iendx + 1 < |np.ie| && OnTop(np, e, q)
    requires !e.disabled && (if e.ifcond then e.state.ItefElse? else e.state.ItefThen?)
    ensures Tracked(q, InsideIf(ctx), inner)
    ensures q.iendx == np.iendx + 1 && q.lpndx == np.lpndx && |q.ie| == |np.ie| && |q.lp| == |np.lp|
  {
  }

  /** Past the branch that is not taken. */
  lemma {:induction false} TrackedPast(np: Np, e: Itef, q: Np, ctx: Context, inner: bool)
    requires Tracked(np, ctx, inner) && np.iendx + 1 < |np.ie| && OnTop(np, e, q)
    requires !e.disabled && e.ifcond && e.state.ItefThen?
    ensures Idle(q) && !ItefEnabled(q) && q.fd >= 0
    ensures q.iendx == np.iendx + 1 && q.lpndx == np.lpndx && |q.ie| == |np.ie| && |q.lp| == |np.lp|
    ensures forall q' :: Same(q, q') ==> OnTop(np, e, q')
  {
  }

  /** Into a loop body. */
  lemma {:induction false} TrackedInSlot(np: Np, l: NshControl.Loop, q: Np, ctx: Context, inner: bool)
    requires Tracked(np, ctx, inner) && np.lpndx + 1 < |np.lp|
    requires l.state.LoopDo? && l.iendx == np.iendx && Same(Looped(np, l), q)
    ensures Idle(q) && ItefEnabled(q) && q.fd >= 0
    ensures l.enable ==> Tracked(q, LoopBody, !ctx.TopLevel?)
    ensures !l.enable ==> !CmdEnabled(q)
    ensures q.iendx == np.iendx && q.lpndx == np.lpndx + 1 && |q.ie| == |np.ie| && |q.lp| == |np.lp|
  {
  }

  /** Where a run is after a misplaced statement: it has given up, it has run a command
      the evaluator does not run, or it stands at `end` a frame short. */
  datatype Drift = Apart | Lost(np: Np, trace: seq<Event>)

  ghost predicate Drifts(m: Ended, e: seq<Event>, end: nat, np: Np, d: Drift, lines: seq<seq<Word>>, w: World)
  {
    match d
    case Apart => m.out.flow.Aborted? || Splits(m.out.trace, e, end)
    case Lost(q, t) => Astray(np, q) && q.filepos == end && Sane(q) && m == Run(lines, w, false, q, t, 0)
  }

  lemma {:induction false} DivergeBlock(lines: seq<seq<Word>>, odd: set<int>, b: Block, ctx: Context, inner: bool, ignore: bool, np: Np, trace: seq<Event>)
    returns (d: Drift)
    requires WellFormed(b) && Placed(lines, np.filepos, Lines(b))
    requires Clear(b, ctx, inner, ignore) && !Good(b, ctx) && (ctx.LoopBody? ==> NoDirectLoop(b))
    requires Tracked(np, ctx, inner) && Fits(np, IfDepth(b), LoopDepth(b))
    requires Aimed(odd, Aim(b, np.filepos, ctx), np.filepos, np.filepos + |Lines(b)|)
    ensures inner || ignore ==> d.Apart?
    ensures var w := Steering(lines, odd);
            Drifts(Run(lines, w, ignore, np, trace, 0),
                   EvalBlock(b, np.filepos, !ctx.TopLevel?, w, ignore, trace, np.fail, 0).trace,
                   np.filepos + |Lines(b)|, np, d, lines, w)
    decreases b, 1
  {
    hide Run, Steering, Live, Tracked, Same, Fits, Astray, WellFormed, WellFormedStmt, Good, GoodStmt, IfDepth, LoopDepth, StmtIfDepth, StmtLoopDepth,
      EvalBlock, EvalStmt, Lines, LinesOf, Placed, Clear, ClearStmt, Aim, AimStmt, Splits, NoDirectLoop;
    var w := Steering(lines, odd);
    TrackedIsLive(np, ctx, inner);
    BadParts(b, ctx, inner, ignore, np.filepos);
    PartsOf(b, np);
    PlacedSplit(lines, np.filepos, LinesOf(b.head), Lines(b.tail));
    EvalCons(b, np.filepos, !ctx.TopLevel?, w, ignore, trace, np.fail, 0);
    var mid := np.filepos + |LinesOf(b.head)|;
    var r := EvalStmt(b.head, np.filepos, !ctx.TopLevel?, w, ignore, trace, np.fail, 0);
    var m := Run(lines, w, ignore, np, trace, 0);
    if GoodStmt(b.head, ctx) {
      QuietStmt(lines, odd, b.head, np.filepos, ctx, ignore, trace, np.fail);
      var np1 := SimStmt(lines, w, ignore, b.head, ctx, np, trace, 0);
      SameTracked(np, np1, ctx, inner);
      d := DivergeBlock(lines, odd, b.tail, ctx, inner, ignore, np1, r.trace);
      if d.Lost? {
        SameAstray(np, np1, d.np);
      }
    } else {
      d := DivergeStmt(lines, odd, b.head, ctx, inner, ignore, np, trace);
      if d.Lost? {
        d := LostInBlock(lines, odd, b.tail, np, d.np, d.trace);
      } else if !m.out.flow.Aborted? {
        if r.flow.Normal? {
          EvalStaysInside(b.tail, mid, !ctx.TopLevel?, w, ignore, r.trace, r.fail);
        }
        var r' := EvalBlock(b, np.filepos, !ctx.TopLevel?, w, ignore, trace, np.fail, 0);
        SplitsLater(m.out.trace, r.trace, mid, r'.trace, np.filepos + |Lines(b)|);
      }
    }
  }

  /** A run that lost its way, past the rest of the block. */
  lemma {:induction false} LostInBlock(lines: seq<seq<Word>>, odd: set<int>, b: Block, np: Np, lost: Np, trace: seq<Event>)
    returns (d: Drift)
    requires WellFormed(b) && Placed(lines, lost.filepos, Lines(b)) && Fits(np, IfDepth(b), LoopDepth(b))
    requires Astray(np, lost) && Sane(lost) && Default(odd, lost.filepos, lost.filepos + |Lines(b)|)
    ensures d.Lost? && Astray(np, d.np) && d.np.filepos == lost.filepos + |Lines(b)| && Sane(d.np)
    ensures var w := Steering(lines, odd);
            Run(lines, w, false, lost, trace, 0) == Run(lines, w, false, d.np, d.trace, 0)
  {
    hide Run, Steering, Same, Fits, Astray, WellFormed, IfDepth, LoopDepth, Lines, Placed, Splits, Passing, Default;
    AstrayRoom(np, lost, IfDepth(b), LoopDepth(b));
    var q, t := PassBlock(lines, odd, b, lost, trace);
    AstraySame(np, lost, q);
    AstrayIsSane(np, q);
    d := Lost(q, t);
  }

  lemma {:induction false} TrackedIsLive(np: Np, ctx: Context, inner: bool)
    requires Tracked(np, ctx, inner)
    ensures Sane(np) && Idle(np) && Live(np, ctx) && Same(np, np)
  {
  }

  lemma {:induction false} AstrayIsSane(np: Np, q: Np)
    requires Astray(np, q)
    ensures Sane(q)
  {
  }

  /** A block outside the fragment: its first statement is, or the others are. */
  lemma {:induction false} BadParts(b: Block, ctx: Context, inner: bool, ignore: bool, base: nat)
    requires Clear(b, ctx, inner, ignore) && !Good(b, ctx) && (ctx.LoopBody? ==> NoDirectLoop(b))
    ensures b.Cons? && ClearStmt(b.head, ctx, inner, ignore)
    ensures ctx.LoopBody? ==> !b.head.Loop? && NoDirectLoop(b.tail)
    ensures GoodStmt(b.head, ctx) ==> !(b.head.Break? && ctx.LoopBody?) && Clear(b.tail, ctx, inner, ignore) && !Good(b.tail, ctx)
    ensures Aim(b, base, ctx) ==
            if GoodStmt(b.head, ctx) then Aim(b.tail, base + |LinesOf(b.head)|, ctx) else AimStmt(b.head, base, ctx)
  {
    hide GoodStmt, ClearStmt, LinesOf, Lines, AimStmt;
  }

  lemma {:induction false} DivergeStmt(lines: seq<seq<Word>>, odd: set<int>, s: Stmt, ctx: Context, inner: bool, ignore: bool, np: Np, trace: seq<Event>)
    returns (d: Drift)
    requires WellFormedStmt(s) && Placed(lines, np.filepos, LinesOf(s))
    requires ClearStmt(s, ctx, inner, ignore) && !GoodStmt(s, ctx) && !(ctx.LoopBody? && s.Loop?)
    requires Tracked(np, ctx, inner) && Fits(np, StmtIfDepth(s), StmtLoopDepth(s))
    requires Aimed(odd, AimStmt(s, np.filepos, ctx), np.filepos, np.filepos + |LinesOf(s)|)
    ensures inner || ignore ==> d.Apart?
    ensures var w := Steering(lines, odd);
            Drifts(Run(lines, w, ignore, np, trace, 0),
                   EvalStmt(s, np.filepos, !ctx.TopLevel?, w, ignore, trace, np.fail, 0).trace,
                   np.filepos + |LinesOf(s)|, np, d, lines, w)
    decreases s, 1
  {
    hide Run, EvalBlock, EvalStmt, Astray, Same, Steering, Good, Clear, Aim, IfDepth, LoopDepth, Lines, WellFormed;
    if s.If? {
      d := DivergeIf(lines, odd, s, ctx, inner, ignore, np, trace);
    } else if s.Loop? {
      d := DivergeLoop(lines, odd, s, ctx, inner, ignore, np, trace);
    } else {
      PlacedLast(lines, np.filepos, [WBreak]);
      var q := BreakGoesAstray(lines, Steering(lines, odd), np, trace);
      AstrayIsSane(np, q);
      d := Lost(q, trace);
    }
  }

  /** A run that lost its way in a branch, up to the end of the `if`. */
  lemma {:induction false} LostAtFi(lines: seq<seq<Word>>, w: World, np: Np, q: Np, lost: Np, trace: seq<Event>, end: nat)
    returns (d: Drift)
    requires Sane(np) && np.iendx + 1 == q.iendx && np.lpndx == q.lpndx && |np.ie| == |q.ie|
    requires Astray(q, lost) && Sane(lost) && lost.filepos < |lines| && lines[lost.filepos] == [WFi] && end == lost.filepos + 1
    ensures forall e :: Drifts(Run(lines, w, false, lost, trace, 0), e, end, np, d, lines, w)
  {
    hide Run, Astray, Splits;
    var aborted, q' := AstrayFi(lines, w, np, q, lost, trace);
    if aborted {
      d := Apart;
    } else {
      AstrayIsSane(np, q');
      d := Lost(q', trace);
    }
  }

  /** The same with an `else` branch still to pass. */
  lemma {:induction false} LostAtElse(lines: seq<seq<Word>>, odd: set<int>, s: Stmt, np: Np, q: Np, lost: Np, trace: seq<Event>, end: nat)
    returns (d: Drift)
    requires s.If? && s.hasElse && WellFormed(s.els) && Fits(q, IfDepth(s.els), LoopDepth(s.els))
    requires Sane(np) && np.iendx + 1 == q.iendx && np.lpndx == q.lpndx && |np.ie| == |q.ie|
    requires Astray(q, lost) && Sane(lost) && lost.filepos < |lines| && lines[lost.filepos] == [WElse]
    requires Placed(lines, lost.filepos + 1, Lines(s.els)) && Default(odd, lost.filepos + 1, lost.filepos + 1 + |Lines(s.els)|)
    requires lost.filepos + 1 + |Lines(s.els)| < |lines| && lines[lost.filepos + 1 + |Lines(s.els)|] == [WFi]
    requires end == lost.filepos + 2 + |Lines(s.els)|
    ensures var w := Steering(lines, odd);
            forall e :: Drifts(Run(lines, w, false, lost, trace, 0), e, end, np, d, lines, w)
  {
    hide Run, Astray, Splits, Steering, Lines, IfDepth, LoopDepth, WellFormed, Placed, Fits, Same, Passing;
    var w := Steering(lines, odd);
    var aborted, x := AstrayElse(lines, w, q, lost, trace);
    if aborted {
      d := Apart;
    } else {
      AstrayRoom(q, x, IfDepth(s.els), LoopDepth(s.els));
      var y, t := PassBlock(lines, odd, s.els, x, trace);
      AstraySame(q, x, y);
      AstrayIsSane(q, x);
      AstrayIsSane(q, y);
      d := LostAtFi(lines, w, np, q, y, t, end);
    }
  }

  lemma {:induction false} DivergeIf(lines: seq<seq<Word>>, odd: set<int>, s: Stmt, ctx: Context, inner: bool, ignore: bool, np: Np, trace: seq<Event>)
    returns (d: Drift)
    requires s.If?
    requires WellFormedStmt(s) && Placed(lines, np.filepos, LinesOf(s))
    requires ClearStmt(s, ctx, inner, ignore) && !GoodStmt(s, ctx)
    requires Tracked(np, ctx, inner) && Fits(np, StmtIfDepth(s), StmtLoopDepth(s))
    requires Aimed(odd, AimStmt(s, np.filepos, ctx), np.filepos, np.filepos + |LinesOf(s)|)
    ensures inner || ignore ==> d.Apart?
    ensures var w := Steering(lines, odd);
            Drifts(Run(lines, w, ignore, np, trace, 0),
                   EvalStmt(s, np.filepos, !ctx.TopLevel?, w, ignore, trace, np.fail, 0).trace,
                   np.filepos + |LinesOf(s)|, np, d, lines, w)
    decreases s, 0
  {
    if Good(s.thn, InsideIf(ctx)) {
      d := DivergeElse(lines, odd, s, ctx, inner, ignore, np, trace);
    } else {
      d := DivergeThen(lines, odd, s, ctx, inner, ignore, np, trace);
    }
  }

  lemma {:induction false} DivergeThen(lines: seq<seq<Word>>, odd: set<int>, s: Stmt, ctx: Context, inner: bool, ignore: bool, np: Np, trace: seq<Event>)
    returns (d: Drift)
    requires s.If? && !Good(s.thn, InsideIf(ctx))
    requires WellFormedStmt(s) && Placed(lines, np.filepos, LinesOf(s))
    requires ClearStmt(s, ctx, inner, ignore)
    requires Tracked(np, ctx, inner) && Fits(np, StmtIfDepth(s), StmtLoopDepth(s))
    requires Aimed(odd, AimStmt(s, np.filepos, ctx), np.filepos, np.filepos + |LinesOf(s)|)
    ensures inner || ignore ==> d.Apart?
    ensures var w := Steering(lines, odd);
            Drifts(Run(lines, w, ignore, np, trace, 0),
                   EvalStmt(s, np.filepos, !ctx.TopLevel?, w, ignore, trace, np.fail, 0).trace,
                   np.filepos + |LinesOf(s)|, np, d, lines, w)
    decreases s.thn, 2
  {
    hide Run, EvalBlock, Same, OnTop, Good, WellFormed, WellFormedStmt, Clear, Lines, LinesOf, IfDepth, LoopDepth, StmtIfDepth, StmtLoopDepth,
      Placed, Splits, Aim, Steering, Astray, Tracked;
    var w := Steering(lines, odd);
    TrackedIsLive(np, ctx, inner);
    TrackedEnabled(np, ctx, inner);
    PlacedIf(lines, s, np.filepos);
    IfParts(s, np);
    var e, q := OpenIf(lines, w, ignore, s, np, trace, 0);
    var trace1 := trace + [Event(np.filepos, s.cond, np.fail)];
    SteeringAt(lines, odd, trace, np.filepos, s.cond, np.fail);
    assert w(trace1) == s.inverted;
    TrackedInFrame(np, e, q, ctx, inner);
    d := DivergeBlock(lines, odd, s.thn, InsideIf(ctx), inner, ignore, q, trace1);
    var end := np.filepos + |LinesOf(s)|;
    var m := Run(lines, w, ignore, np, trace, 0);
    var r := EvalBlock(s.thn, np.filepos + 2, !ctx.TopLevel?, w, ignore, trace1, false, 0);
    if d.Lost? {
      if s.hasElse {
        d := LostAtElse(lines, odd, s, np, q, d.np, d.trace, end);
      } else {
        d := LostAtFi(lines, w, np, q, d.np, d.trace, end);
      }
    } else if !m.out.flow.Aborted? {
      SplitsLater(m.out.trace, r.trace, q.filepos + |Lines(s.thn)|, r.trace, end);
    }
  }

  lemma {:induction false} TrackedEnabled(np: Np, ctx: Context, inner: bool)
    requires Tracked(np, ctx, inner)
    ensures Sane(np) && CmdEnabled(np) && ItefEnabled(np) && np.fd >= 0
  {
  }

  lemma {:induction false} DivergeElse(lines: seq<seq<Word>>, odd: set<int>, s: Stmt, ctx: Context, inner: bool, ignore: bool, np: Np, trace: seq<Event>)
    returns (d: Drift)
    requires s.If? && Good(s.thn, InsideIf(ctx))
    requires WellFormedStmt(s) && Placed(lines, np.filepos, LinesOf(s))
    requires ClearStmt(s, ctx, inner, ignore) && !GoodStmt(s, ctx)
    requires Tracked(np, ctx, inner) && Fits(np, StmtIfDepth(s), StmtLoopDepth(s))
    requires Aimed(odd, AimStmt(s, np.filepos, ctx), np.filepos, np.filepos + |LinesOf(s)|)
    ensures inner || ignore ==> d.Apart?
    ensures var w := Steering(lines, odd);
            Drifts(Run(lines, w, ignore, np, trace, 0),
                   EvalStmt(s, np.filepos, !ctx.TopLevel?, w, ignore, trace, np.fail, 0).trace,
                   np.filepos + |LinesOf(s)|, np, d, lines, w)
    decreases s.els, 2
  {
    hide Run, EvalBlock, Same, OnTop, Good, WellFormed, Clear, Lines, LinesOf, IfDepth, LoopDepth, StmtIfDepth, StmtLoopDepth,
      Placed, Splits, Aim, Steering, Astray, Tracked;
    var w := Steering(lines, odd);
    TrackedIsLive(np, ctx, inner);
    TrackedEnabled(np, ctx, inner);
    GoodNil(InsideIf(ctx));
    PlacedIf(lines, s, np.filepos);
    IfParts(s, np);
    var e, q := OpenIf(lines, w, ignore, s, np, trace, 0);
    var trace1 := trace + [Event(np.filepos, s.cond, np.fail)];
    SteeringAt(lines, odd, trace, np.filepos, s.cond, np.fail);
    assert w(trace1) != s.inverted;
    TrackedPast(np, e, q, ctx, inner);
    q := SkipBlock(lines, w, ignore, s.thn, q, trace1, 0);
    q := PassElse(lines, w, ignore, np, e, q, trace1, 0);
    e := e.(state := ItefElse);
    TrackedInFrame(np, e, q, ctx, inner);
    d := DivergeBlock(lines, odd, s.els, InsideIf(ctx), inner, ignore, q, trace1);
    var end := np.filepos + |LinesOf(s)|;
    var m := Run(lines, w, ignore, np, trace, 0);
    var r := EvalBlock(s.els, np.filepos + 3 + |Lines(s.thn)|, !ctx.TopLevel?, w, ignore, trace1, false, 0);
    if d.Lost? {
      d := LostAtFi(lines, w, np, q, d.np, d.trace, end);
    } else if !m.out.flow.Aborted? {
      SplitsLater(m.out.trace, r.trace, q.filepos + |Lines(s.els)|, r.trace, end);
    }
  }

  lemma GoodNil(ctx: Context)
    ensures Good(Nil, ctx)
  {
  }

  lemma {:induction false} DivergeLoop(lines: seq<seq<Word>>, odd: set<int>, s: Stmt, ctx: Context, inner: bool, ignore: bool, np: Np, trace: seq<Event>)
    returns (d: Drift)
    requires s.Loop? && !ctx.LoopBody?
    requires WellFormedStmt(s) && Placed(lines, np.filepos, LinesOf(s))
    requires ClearStmt(s, ctx, inner, ignore) && !GoodStmt(s, ctx)
    requires Tracked(np, ctx, inner) && Fits(np, StmtIfDepth(s), StmtLoopDepth(s))
    requires Aimed(odd, AimStmt(s, np.filepos, ctx), np.filepos, np.filepos + |LinesOf(s)|)
    ensures inner || ignore ==> d.Apart?
    ensures var w := Steering(lines, odd);
            Drifts(Run(lines, w, ignore, np, trace, 0),
                   EvalStmt(s, np.filepos, !ctx.TopLevel?, w, ignore, trace, np.fail, 0).trace,
                   np.filepos + |LinesOf(s)|, np, d, lines, w)
    decreases s, 0
  {
    hide Run, EvalBlock, EvalStmt, Same, Looped, Good, WellFormed, Clear, Lines, IfDepth, LoopDepth, StmtIfDepth, StmtLoopDepth, Placed, Splits,
      Aim, NoDirectLoop, Steering, LinesOf, Astray, Tracked, WellFormedStmt;
    var w := Steering(lines, odd);
    TrackedIsLive(np, ctx, inner);
    TrackedEnabled(np, ctx, inner);
    PlacedLoop(lines, s, np.filepos);
    LoopParts(s, np);
    EvalLoop(s, np.filepos, !ctx.TopLevel?, w, ignore, trace, np.fail, 0);
    var l, q := OpenLoop(lines, w, ignore, s, np, trace, 0);
    TrackedInSlot(np, l, q, ctx, inner);
    var trace1 := trace + [Event(np.filepos, s.cond, np.fail)];
    SteeringAt(lines, odd, trace, np.filepos, s.cond, np.fail);
    var m := Run(lines, w, ignore, np, trace, 0);
    var end := np.filepos + |LinesOf(s)|;
    if !NoDirectLoop(s.body) {
      assert w(trace1) != s.until;
      StoppedLoopRuns(lines, w, ignore, s.body, q, trace1);
      assert trace1[..|trace1|] == trace1;
      assert SplitsAt(m.out.trace, trace1, end, |trace1|);
      SplitsWitness(m.out.trace, trace1, end, |trace1|);
      d := Apart;
    } else {
      assert w(trace1) == s.until;
      d := DivergeBlock(lines, odd, s.body, LoopBody, !ctx.TopLevel?, ignore, q, trace1);
      var r := EvalBlock(s.body, np.filepos + 2, true, w, ignore, trace1, false, 0);
      if d.Lost? {
        TrackedTop(np, ctx, inner);
        var q' := AstrayDone(lines, w, np, q, d.np, d.trace);
        AstrayIsSane(np, q');
        d := Lost(q', d.trace);
      } else if !m.out.flow.Aborted? {
        SplitsLater(m.out.trace, r.trace, q.filepos + |Lines(s.body)|, r.trace, end);
      }
    }
  }

  lemma {:induction false} TrackedTop(np: Np, ctx: Context, inner: bool)
    requires Tracked(np, ctx, inner) && ctx.TopLevel?
    ensures np.lpndx == 0 && !inner
  {
  }

  lemma {:induction false} SplitsWitness(m: seq<Event>, e: seq<Event>, end: nat, n: nat)
    requires SplitsAt(m, e, end, n)
    ensures Splits(m, e, end)
  {
  }

  // ----- the exact fragment -----

  /** The machine and the evaluator agree in every world, with the ignore-errors flag as given. */
  ghost predicate Agrees(b: Block, depth: nat, ignore: bool)
    requires depth > 0
  {
    forall w: World, fail: bool, budget: nat ::
      Run(Lines(b), w, ignore, Start(depth, fail), [], budget).out == EvalBlock(b, 0, false, w, ignore, [], fail, budget)
  }

  lemma {:induction false} OutsideDisagrees(b: Block, depth: nat, ignore: bool)
    requires depth > 0 && WellFormed(b) && IfDepth(b) < depth && LoopDepth(b) < depth
    requires Clear(b, TopLevel, false, ignore) && !Good(b, TopLevel)
    ensures exists w: World ::
              Run(Lines(b), w, ignore, Start(depth, false), [], 0).out != EvalBlock(b, 0, false, w, ignore, [], false, 0)
  {
    hide EvalBlock, Run, Good, Clear, Steering, Splits, Aim, Lines, WellFormed, IfDepth, LoopDepth;
    var lines := Lines(b);
    var odd := Aim(b, 0, TopLevel);
    var w := Steering(lines, odd);
    var np := Start(depth, false);
    assert lines[0..|lines|] == lines;
    var d := DivergeBlock(lines, odd, b, TopLevel, false, ignore, np, []);
    NeverAborted(lines, odd, b, 0, false, ignore, [], false);
    var m, e := Run(lines, w, ignore, np, [], 0), EvalBlock(b, 0, false, w, ignore, [], false, 0);
    if d.Apart? && !m.out.flow.Aborted? {
      SplitsDiffer(m.out.trace, e.trace, |lines|);
    }
    assert m.out != e;
  }

  /** Among these scripts, the fragment is exactly the scripts on which machine and evaluator agree. */
  lemma {:induction false} ExactFragment(b: Block, depth: nat, ignore: bool)
    requires depth > 0 && WellFormed(b) && IfDepth(b) < depth && LoopDepth(b) < depth
    requires Clear(b, TopLevel, false, ignore)
    ensures Agrees(b, depth, ignore) <==> Good(b, TopLevel)
  {
    hide EvalBlock, Run, Good, Clear, Start, Lines, WellFormed, IfDepth, LoopDepth;
    if Good(b, TopLevel) {
      forall w: World, fail: bool, budget: nat
        ensures Run(Lines(b), w, ignore, Start(depth, fail), [], budget).out == EvalBlock(b, 0, false, w, ignore, [], fail, budget)
      {
        ScriptRefinement(b, depth, w, ignore, fail, budget);
      }
    } else {
      OutsideDisagrees(b, depth, ignore);
    }
  }

  // ----- `break` under an `if` -----

  const X := [Text("x")]
  const A := [Text("a")]
  const B := [Text("b")]
  const C := [Text("c")]

  const INNER: Stmt := If(false, B, Cons(Stmt.Break, Nil), false, Nil)
  const LOOP: Stmt := Stmt.Loop(false, A, Cons(INNER, Nil))

  /** if x; then; while a; do; if b; then; break; fi; done; else; c; fi */
  const BREAK_SCRIPT: Block := Cons(If(false, X, Cons(LOOP, Nil), true, Cons(Cmd(C), Nil)), Nil)

  const BREAK_LINES: seq<seq<Word>> :=
    [[WIf] + X, [WThen], [WWhile] + A, [WDo], [WIf] + B, [WThen], [WBreak], [WFi], [WDone], [WElse], C, [WFi]]

  lemma {:induction false} BreakUnderIfPrints()
    ensures Lines(BREAK_SCRIPT) == BREAK_LINES
  {
    assert Lines(Cons(Stmt.Break, Nil)) == [[WBreak]];
    assert LinesOf(INNER) == [[WIf] + B, [WThen], [WBreak], [WFi]];
    assert Lines(Cons(INNER, Nil)) == LinesOf(INNER);
    assert LinesOf(LOOP) == [[WWhile] + A, [WDo], [WIf] + B, [WThen], [WBreak], [WFi], [WDone]];
    assert Lines(Cons(LOOP, Nil)) == LinesOf(LOOP);
    assert Lines(Cons(Cmd(C), Nil)) == [C];
    assert LinesOf(BREAK_SCRIPT.head) == BREAK_LINES;
  }

  /** The machine from the `break` line on. */
  lemma {:induction false} AfterBreak(w: World, np: Np, trace: seq<Event>)
    requires Idle(np) && CmdEnabled(np) && np.filepos == 6
    requires np.iendx == 2 && np.lpndx == 1 && TopLp(np).state.LoopDo? && TopLp(np).iendx == 1
    requires np.ie[0] == Itef(ItefNormal, false, false, false) && np.ie[1].state.ItefThen? && np.lp[0].state.LoopNormal?
    ensures |trace| < |Run(BREAK_LINES, w, true, np, trace, 0).out.trace|
  {
    hide Run, ParseLine;
    var lines := BREAK_LINES;
    BreakDropsFrame(np, w, trace);
    Step(lines, w, true, np, trace, 0);
    var n1 := SetLp(Advance(np), TopLp(np).(enable := false)).(fail := false, iendx := 1);
    FiLine(n1, w, trace);
    Step(lines, w, true, n1, trace, 0);
    var n2 := Advance(n1).(iendx := 0);
    DoneLine(n2, w, trace);
    Step(lines, w, true, n2, trace, 0);
    var n3 := PopLoop(Advance(n2));
    StrayElse(n3, w, trace);
    Step(lines, w, true, n3, trace, 0);
    var n4 := ParseLine(n3, [WElse], w, trace).np;
    CommandLine(n4, C, w, trace);
    Step(lines, w, true, n4, trace, 0);
    var e := ParseLine(n4, C, w, trace);
    RunRemembers(lines, w, true, e.np, e.trace);
  }

  lemma {:induction false} PlainWords()
    ensures Condition(X) && Condition(A) && Condition(B) && PlainCommand(C)
  {
  }

  lemma {:induction false} BreakScriptEval(w: World)
    requires forall t :: !w(t)
    ensures EvalBlock(BREAK_SCRIPT, 0, false, w, true, [], false, 0).trace == [Event(0, X, false), Event(2, A, false), Event(4, B, false)]
  {
    var t1: seq<Event> := [] + [Event(0, X, false)];
    var t2 := t1 + [Event(2, A, false)];
    var t3 := t2 + [Event(4, B, false)];
    assert EvalStmt(INNER, 4, true, w, true, t2, false, 0) == Result(Broke, t3, false, 0);
    assert EvalBlock(Cons(INNER, Nil), 4, true, w, true, t2, false, 0) == Result(Broke, t3, false, 0);
    assert EvalStmt(LOOP, 2, false, w, true, t1, false, 0) == Result(Normal, t3, false, 0);
    assert EvalBlock(Cons(LOOP, Nil), 2, false, w, true, t1, false, 0) == Result(Normal, t3, false, 0);
  }

  /** The evaluator skips the `else` branch; the machine runs it. */
  lemma {:induction false} BreakUnderIfDisagrees(w: World)
    requires forall t :: !w(t)
    ensures EvalBlock(BREAK_SCRIPT, 0, false, w, true, [], false, 0).trace == [Event(0, X, false), Event(2, A, false), Event(4, B, false)]
    ensures |Run(Lines(BREAK_SCRIPT), w, true, Start(3, false), [], 0).out.trace| >= 4
  {
    hide Run, ParseLine, EvalBlock, Lines, LinesOf, Condition, PlainCommand;
    BreakScriptEval(w);
    BreakUnderIfPrints();
    PlainWords();
    var lines := BREAK_LINES;
    BreakScriptParts();
    var np := Start(3, false);
    var e, q := OpenIf(lines, w, true, BREAK_SCRIPT.head, np, [], 0);
    var t1: seq<Event> := [] + [Event(0, X, false)];
    var l, q2 := OpenLoop(lines, w, true, LOOP, q, t1, 0);
    var t2 := t1 + [Event(2, A, false)];
    var e3, q3 := OpenIf(lines, w, true, INNER, q2, t2, 0);
    AfterBreak(w, q3, t2 + [Event(4, B, false)]);
  }

  lemma {:induction false} BreakScriptParts()
    ensures Placed(BREAK_LINES, 0, LinesOf(BREAK_SCRIPT.head)) && Placed(BREAK_LINES, 2, LinesOf(LOOP)) && Placed(BREAK_LINES, 4, LinesOf(INNER))
  {
    hide LinesOf, Lines;
    var lines := BREAK_LINES;
    BreakUnderIfPrints();
    OnlyStmt(BREAK_SCRIPT.head);
    OnlyStmt(LOOP);
    OnlyStmt(INNER);
    assert lines[0..12] == lines;
    PlacedIf(lines, BREAK_SCRIPT.head, 0);
    PlacedLoop(lines, LOOP, 2);
  }

  lemma {:induction false} OnlyStmt(s: Stmt)
    ensures Lines(Cons(s, Nil)) == LinesOf(s)
  {
  }
}
