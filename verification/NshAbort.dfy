/**
What a script leaves behind when a command fails and the ignore-errors flag is
clear. `nsh_script` stops at that command and does not touch the two stacks, so
every `if` and every loop around the command stays open in the session.
`AbortedExactly` counts them.
*/
module NshAbort {
  import opened NshControl
  import opened NshScript
  import opened NshRefinement

  /** How many ifs and loops are around a line. */
  datatype Around = Around(ifs: nat, loops: nat)

  function Opened(b: Block, base: nat, line: int): Around
  {
    match b
    case Nil => Around(0, 0)
    case Cons(s, rest) =>
      if line < base + |LinesOf(s)| then OpenedStmt(s, base, line) else Opened(rest, base + |LinesOf(s)|, line)
  }

  function OpenedStmt(s: Stmt, base: nat, line: int): Around
  {
    match s
    case Cmd(_) => Around(0, 0)
    case Break => Around(0, 0)
    case If(_, _, thn, _, els) =>
      var inner := if line < base + 2 + |Lines(thn)| then Opened(thn, base + 2, line) else Opened(els, base + 3 + |Lines(thn)|, line);
      inner.(ifs := inner.ifs + 1)
    case Loop(_, _, body) =>
      var inner := Opened(body, base + 2, line);
      inner.(loops := inner.loops + 1)
  }

  /** What `np` had is still there, with so many frames and slots on top. */
  ghost predicate Left(np: Np, end: Np, a: Around)
  {
    && Sane(np) && Sane(end) && |end.ie| == |np.ie| && |end.lp| == |np.lp| && end.fd == np.fd
    && end.iendx == np.iendx + a.ifs && end.lpndx == np.lpndx + a.loops
    && (forall i :: 0 <= i <= np.iendx ==> end.ie[i] == np.ie[i])
    && (forall i :: 0 <= i <= np.lpndx ==> end.lp[i] == np.lp[i])
  }

  lemma {:induction false} LeftLater(np: Np, np1: Np, end: Np, a: Around)
    requires Same(np, np1) && Left(np1, end, a)
    ensures Left(np, end, a)
  {
  }

  lemma {:induction false} LeftInIf(np: Np, e: Itef, q: Np, end: Np, a: Around)
    requires Sane(np) && np.iendx + 1 < |np.ie| && OnTop(np, e, q) && Left(q, end, a)
    ensures Left(np, end, a.(ifs := a.ifs + 1))
  {
  }

  lemma {:induction false} LeftInLoop(np: Np, l: NshControl.Loop, q: Np, end: Np, a: Around)
    requires Sane(np) && np.lpndx + 1 < |np.lp| && l.iendx < |np.ie| && Same(Looped(np, l), q) && Left(q, end, a)
    ensures Left(np, end, a.(loops := a.loops + 1))
  {
  }

  /** The command at which a run stopped. */
  function LastLine(trace: seq<Event>): int
  {
    if trace == [] then -1 else trace[|trace| - 1].line
  }

  /** The run stopped inside the lines from `base` to `end`, and left so much open. */
  ghost predicate StoppedIn(np: Np, e: Ended, base: nat, end: nat, a: Around)
  {
    e.out.flow.Aborted? && base <= LastLine(e.out.trace) < end && Left(np, e.np, a)
  }

  lemma {:induction false} AbortBlock(lines: seq<seq<Word>>, w: World, b: Block, ctx: Context, np: Np, trace: seq<Event>, budget: nat)
    requires WellFormed(b) && Placed(lines, np.filepos, Lines(b)) && Good(b, ctx) && Live(np, ctx) && Fits(np, IfDepth(b), LoopDepth(b))
    requires EvalBlock(b, np.filepos, !ctx.TopLevel?, w, false, trace, np.fail, budget).flow.Aborted?
    ensures Sane(np)
    ensures var e := Run(lines, w, false, np, trace, budget);
            StoppedIn(np, e, np.filepos, np.filepos + |Lines(b)|, Opened(b, np.filepos, LastLine(e.out.trace)))
    decreases budget, b, 1
  {
    hide Run, EvalStmt, EvalBlock, Lines, LinesOf, Placed, Live, Same, SwitchedOff, Fits, Left, OpenedStmt, LastLine,
      WellFormed, WellFormedStmt, Good, GoodStmt, IfDepth, LoopDepth, StmtIfDepth, StmtLoopDepth;
    LiveIsSane(np, ctx);
    if b.Nil? {
      EvalNil(np.filepos, !ctx.TopLevel?, w, false, trace, np.fail, budget);
    } else {
      BlockParts(b, ctx, np);
      EvalCons(b, np.filepos, !ctx.TopLevel?, w, false, trace, np.fail, budget);
      PlacedSplit(lines, np.filepos, LinesOf(b.head), Lines(b.tail));
      var r := EvalStmt(b.head, np.filepos, !ctx.TopLevel?, w, false, trace, np.fail, budget);
      if r.flow.Normal? {
        var np1 := SimStmt(lines, w, false, b.head, ctx, np, trace, budget);
        SameKeeps(np, np1, ctx);
        BreakIsNotNormal(b.head, ctx, np.filepos, w, false, trace, np.fail, budget);
        AbortBlock(lines, w, b.tail, ctx, np1, r.trace, r.budget);
        var e := Run(lines, w, false, np, trace, budget);
        LeftLater(np, np1, e.np, Opened(b.tail, np1.filepos, LastLine(e.out.trace)));
      } else {
        AbortStmt(lines, w, b.head, ctx, np, trace, budget);
      }
    }
  }

  lemma {:induction false} AbortStmt(lines: seq<seq<Word>>, w: World, s: Stmt, ctx: Context, np: Np, trace: seq<Event>, budget: nat)
    requires WellFormedStmt(s) && Placed(lines, np.filepos, LinesOf(s)) && GoodStmt(s, ctx) && Live(np, ctx)
    requires Fits(np, StmtIfDepth(s), StmtLoopDepth(s))
    requires EvalStmt(s, np.filepos, !ctx.TopLevel?, w, false, trace, np.fail, budget).flow.Aborted?
    ensures Sane(np)
    ensures var e := Run(lines, w, false, np, trace, budget);
            StoppedIn(np, e, np.filepos, np.filepos + |LinesOf(s)|, OpenedStmt(s, np.filepos, LastLine(e.out.trace)))
    decreases budget, s, 1
  {
    hide Run, EvalBlock, EvalStmt, Good, IfDepth, LoopDepth, Lines, LinesOf, Placed, Live, Fits, StoppedIn, Opened, OpenedStmt;
    LiveIsSane(np, ctx);
    match s
    case Cmd(argv) => AbortCommand(lines, w, argv, ctx, np, trace, budget);
    case Break => BreakGoesOn(np.filepos, ctx, w, trace, np.fail, budget);
    case If(_, _, _, _, _) => AbortIf(lines, w, s, ctx, np, trace, budget);
    case Loop(_, _, _) => AbortLoop(lines, w, s, ctx, np, trace, budget);
  }

  lemma {:induction false} BreakGoesOn(base: nat, ctx: Context, w: World, trace: seq<Event>, fail: bool, budget: nat)
    ensures !EvalStmt(Stmt.Break, base, !ctx.TopLevel?, w, false, trace, fail, budget).flow.Aborted?
  {
  }

  lemma {:induction false} AbortCommand(lines: seq<seq<Word>>, w: World, argv: seq<Word>, ctx: Context, np: Np, trace: seq<Event>, budget: nat)
    requires PlainCommand(argv) && Placed(lines, np.filepos, LinesOf(Cmd(argv))) && Live(np, ctx)
    requires EvalStmt(Cmd(argv), np.filepos, !ctx.TopLevel?, w, false, trace, np.fail, budget).flow.Aborted?
    ensures Sane(np)
    ensures var e := Run(lines, w, false, np, trace, budget);
            StoppedIn(np, e, np.filepos, np.filepos + |LinesOf(Cmd(argv))|, OpenedStmt(Cmd(argv), np.filepos, LastLine(e.out.trace)))
  {
    hide Run, ParseLine, PlainCommand, LoopEnabled, ItefEnabled;
    PlacedLast(lines, np.filepos, argv);
    CommandLine(np, argv, w, trace);
    Step(lines, w, false, np, trace, budget);
  }

  lemma {:induction false} AbortIf(lines: seq<seq<Word>>, w: World, s: Stmt, ctx: Context, np: Np, trace: seq<Event>, budget: nat)
    requires s.If? && WellFormedStmt(s) && Placed(lines, np.filepos, LinesOf(s)) && GoodStmt(s, ctx) && Live(np, ctx)
    requires Fits(np, StmtIfDepth(s), StmtLoopDepth(s))
    requires EvalStmt(s, np.filepos, !ctx.TopLevel?, w, false, trace, np.fail, budget).flow.Aborted?
    ensures Sane(np)
    ensures var e := Run(lines, w, false, np, trace, budget);
            StoppedIn(np, e, np.filepos, np.filepos + |LinesOf(s)|, OpenedStmt(s, np.filepos, LastLine(e.out.trace)))
    decreases budget, s, 0
  {
    hide Run, ParseLine, EvalBlock, Same, SwitchedOff, OnTop, Good, WellFormed, Lines, LinesOf, IfDepth, LoopDepth, Placed, Left, Opened, LastLine;
    LiveIsSane(np, ctx);
    PlacedIf(lines, s, np.filepos);
    var e, q := OpenIf(lines, w, false, s, np, trace, budget);
    var trace1 := trace + [Event(np.filepos, s.cond, np.fail)];
    Branches(s, ctx, np, e, q);
    if w(trace1) == s.inverted {
      AbortBlock(lines, w, s.thn, InsideIf(ctx), q, trace1, budget);
    } else {
      q := SkipBlock(lines, w, false, s.thn, q, trace1, budget);
      if s.hasElse {
        q := PassElse(lines, w, false, np, e, q, trace1, budget);
        e := e.(state := ItefElse);
        Branches(s, ctx, np, e, q);
        AbortBlock(lines, w, s.els, InsideIf(ctx), q, trace1, budget);
      } else {
        EvalNil(np.filepos + 3 + |Lines(s.thn)|, !ctx.TopLevel?, w, false, trace1, false, budget);
      }
    }
    var end := Run(lines, w, false, np, trace, budget);
    var line := LastLine(end.out.trace);
    LeftInIf(np, e, q, end.np, if w(trace1) == s.inverted then Opened(s.thn, np.filepos + 2, line) else Opened(s.els, np.filepos + 3 + |Lines(s.thn)|, line));
  }

  lemma {:induction false} AbortLoop(lines: seq<seq<Word>>, w: World, s: Stmt, ctx: Context, np: Np, trace: seq<Event>, budget: nat)
    requires s.Loop? && WellFormedStmt(s) && Placed(lines, np.filepos, LinesOf(s)) && GoodStmt(s, ctx) && Live(np, ctx)
    requires Fits(np, StmtIfDepth(s), StmtLoopDepth(s))
    requires EvalStmt(s, np.filepos, !ctx.TopLevel?, w, false, trace, np.fail, budget).flow.Aborted?
    ensures Sane(np)
    ensures var e := Run(lines, w, false, np, trace, budget);
            StoppedIn(np, e, np.filepos, np.filepos + |LinesOf(s)|, OpenedStmt(s, np.filepos, LastLine(e.out.trace)))
    decreases budget, s, 0
  {
    hide Run, ParseLine, EvalBlock, EvalStmt, Same, SwitchedOff, Looped, Good, GoodStmt, WellFormed, WellFormedStmt,
      Lines, LinesOf, IfDepth, LoopDepth, StmtIfDepth, StmtLoopDepth, Placed, Live, Fits, Left, Opened, LastLine;
    LiveIsSane(np, ctx);
    LoopReady(s, ctx, np);
    EvalLoop(s, np.filepos, !ctx.TopLevel?, w, false, trace, np.fail, budget);
    PlacedLoop(lines, s, np.filepos);
    var l, q := OpenLoop(lines, w, false, s, np, trace, budget);
    var trace1 := trace + [Event(np.filepos, s.cond, np.fail)];
    LoopInside(s, ctx, np, l, q);
    var r := EvalBlock(s.body, np.filepos + 2, true, w, false, trace1, false, budget);
    var end := Run(lines, w, false, np, trace, budget);
    if r.flow.Normal? {
      var np1 := SimBody(lines, w, false, s, ctx, np, l, q, trace1, budget);
      SameKeeps(np, np1, ctx);
      AbortLoop(lines, w, s, ctx, np1, r.trace, r.budget - 1);
      LeftLater(np, np1, end.np, OpenedStmt(s, np.filepos, LastLine(end.out.trace)));
    } else {
      AbortBlock(lines, w, s.body, LoopBody, q, trace1, budget);
      LeftInLoop(np, l, q, end.np, Opened(s.body, np.filepos + 2, LastLine(end.out.trace)));
    }
  }

  /** A script of the fragment that is given up leaves exactly the ifs and loops around the failed command
      open, over stacks that are otherwise as they were. So they are as before if and only if that command
      stands in no `if` and no loop. */
  lemma {:induction false} AbortedExactly(b: Block, np: Np, w: World, budget: nat)
    requires Ready(np, b) && Run(Lines(b), w, false, np, [], budget).out.flow.Aborted?
    ensures var e := Run(Lines(b), w, false, np, [], budget);
            var a := Opened(b, 0, LastLine(e.out.trace));
            && 0 <= LastLine(e.out.trace) < |Lines(b)|
            && Left(np, e.np, a)
            && (Same(np, e.np) <==> a == Around(0, 0))
  {
    hide Run, EvalBlock, Lines, Live, Good, WellFormed, IfDepth, LoopDepth, Fits, Opened, LastLine;
    var lines := Lines(b);
    LiveIsSane(np, TopLevel);
    assert lines[0..|lines|] == lines;
    SessionRefinement(b, np, w, false, budget);
    AbortBlock(lines, w, b, TopLevel, np, [], budget);
  }

  // ----- an example -----

  const TEST := [Text("a")]
  const FALLS := Cmd([Text("b")])
  const GIVEN_UP := Cons(If(false, TEST, Cons(FALLS, Nil), false, Nil), Nil)

  /** `if a; then; b; fi` where `b` fails: the `if` is still open afterwards. */
  lemma {:induction false} IfStaysOpen(depth: nat)
    requires depth > 1
    ensures var e := Run(Lines(GIVEN_UP), t => |t| == 2, false, Start(depth, false), [], 0);
            e.out.flow.Aborted? && e.np.iendx == 1
  {
    hide Run;
    var w: World := t => |t| == 2;
    GivenUpFits(depth);
    SessionRefinement(GIVEN_UP, Start(depth, false), w, false, 0);
    GivenUpFails(w);
    AbortedExactly(GIVEN_UP, Start(depth, false), w, 0);
  }

  lemma {:induction false} GivenUpFits(depth: nat)
    requires depth > 1
    ensures Ready(Start(depth, false), GIVEN_UP)
  {
    assert IfDepth(Cons(FALLS, Nil)) == 0 && LoopDepth(Cons(FALLS, Nil)) == 0;
    assert IfDepth(GIVEN_UP) == 1 && LoopDepth(GIVEN_UP) == 0;
    assert WellFormed(Cons(FALLS, Nil)) && Good(Cons(FALLS, Nil), TopLevel);
  }

  lemma {:induction false} GivenUpFails(w: World)
    requires forall t :: w(t) <==> |t| == 2
    ensures var r := EvalBlock(GIVEN_UP, 0, false, w, false, [], false, 0); r.flow.Aborted? && LastLine(r.trace) == 2
    ensures Opened(GIVEN_UP, 0, 2) == Around(1, 0)
  {
    var thn := Cons(FALLS, Nil);
    var t1 := [] + [Event(0, TEST, false)];
    assert |Lines(thn)| == 1;
    var r := EvalBlock(thn, 2, false, w, false, t1, false, 0);
    assert EvalStmt(FALLS, 2, false, w, false, t1, false, 0).flow.Aborted?;
    assert r.trace == t1 + [Event(2, FALLS.argv, false)];
    assert Opened(thn, 2, 2) == Around(0, 0);
  }
}
