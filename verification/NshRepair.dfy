/**
The exact fragment of `NshExactness` leaves out scripts in which a loop inside a
loop has a `break` under an `if`. This is why: the `break` of the outer loop can
put right what the `break` of the inner loop spoiled. For every nest of the family
in `NshNest` that stands under an `if` machine and evaluator agree, and
`WiderRefinement` adds the whole family to the fragment of `NshRefinement`.
*/
module NshRepair {
  import opened NshControl
  import opened NshScript
  import opened NshRefinement
  import opened NshAstray
  import opened NshExactness
  import opened NshNest

  // ----- what the outer loop needs -----

  /** A frame in which commands are run. */
  predicate Running(e: Itef)
  {
    (e.state.ItefNormal? && !e.disabled) || Taken(e)
  }

  predicate AtOuter(np: Np)
  {
    Live(np, TopLevel) && np.iendx > 0 && Taken(TopIe(np)) && Running(np.ie[np.iendx - 1])
  }

  lemma {:induction false} OuterParts(m: Pieces, np: Np)
    requires WellFormedStmt(Outer(m)) && Fits(np, StmtIfDepth(Outer(m)), StmtLoopDepth(Outer(m)))
    ensures Condition(m.a) && Condition(m.b) && WellFormed(m.p) && WellFormed(m.q) && WellFormed(m.u) && WellFormed(m.v) && WellFormed(m.w)
    ensures WellFormedStmt(Inner(m)) && WellFormed(IfB(m).thn) && WellFormed(Cons(IfB(m), AfterB(m))) && WellFormed(Outer(m).body)
    ensures np.iendx + 1 < |np.ie| && np.lpndx + 1 < |np.lp|
    ensures np.iendx + IfDepth(m.p) < |np.ie| && np.lpndx + 1 + LoopDepth(m.p) < |np.lp|
    ensures np.iendx + IfDepth(m.w) < |np.ie| && np.lpndx + 1 + LoopDepth(m.w) < |np.lp|
    ensures np.iendx + 1 + IfDepth(m.q) < |np.ie| && np.lpndx + 1 + LoopDepth(m.q) < |np.lp|
    ensures np.iendx + 1 + IfDepth(m.u) < |np.ie| && np.lpndx + 1 + LoopDepth(m.u) < |np.lp|
    ensures np.iendx + 1 + StmtIfDepth(Inner(m)) < |np.ie| && np.lpndx + 1 + StmtLoopDepth(Inner(m)) < |np.lp|
    ensures np.iendx + 1 + IfDepth(IfB(m).thn) < |np.ie| && np.lpndx + 1 + LoopDepth(IfB(m).thn) < |np.lp|
    ensures np.iendx + IfDepth(Cons(IfB(m), AfterB(m))) < |np.ie| && np.lpndx + 1 + LoopDepth(Cons(IfB(m), AfterB(m))) < |np.lp|
    ensures np.iendx + IfDepth(Outer(m).body) < |np.ie| && np.lpndx + 1 + LoopDepth(Outer(m).body) < |np.lp|
  {
    hide WellFormed, WellFormedStmt, IfDepth, LoopDepth, StmtIfDepth, StmtLoopDepth, Outer, IfB, AfterB, Inner, Condition;
    OuterWell(m);
    OuterDepth(m);
  }

  lemma {:induction false} OuterWell(m: Pieces)
    requires WellFormedStmt(Outer(m))
    ensures Condition(m.a) && Condition(m.b) && WellFormed(m.p) && WellFormed(m.q) && WellFormed(m.u) && WellFormed(m.v) && WellFormed(m.w)
    ensures WellFormedStmt(Inner(m)) && WellFormed(IfB(m).thn) && WellFormed(Cons(IfB(m), AfterB(m))) && WellFormed(Outer(m).body)
  {
    hide Condition, IfDepth, LoopDepth, StmtIfDepth, StmtLoopDepth, Lines, NoDirectLoop, Inner;
    AppendParts(m.p, Cons(IfB(m), AfterB(m)));
    AppendParts(m.v, Cons(Stmt.Break, m.w));
    AppendParts(m.q, Cons(Inner(m), m.u));
  }

  lemma {:induction false} OuterDepth(m: Pieces)
    ensures var thn := IfB(m).thn; var rest := Cons(IfB(m), AfterB(m)); var body := Outer(m).body;
            && IfDepth(thn) == Max(IfDepth(m.q), Max(StmtIfDepth(Inner(m)), IfDepth(m.u)))
            && LoopDepth(thn) == Max(LoopDepth(m.q), Max(StmtLoopDepth(Inner(m)), LoopDepth(m.u)))
            && IfDepth(rest) == Max(1 + IfDepth(thn), Max(IfDepth(m.v), IfDepth(m.w)))
            && LoopDepth(rest) == Max(LoopDepth(thn), Max(LoopDepth(m.v), LoopDepth(m.w)))
            && IfDepth(body) == Max(IfDepth(m.p), IfDepth(rest)) && LoopDepth(body) == Max(LoopDepth(m.p), LoopDepth(rest))
            && StmtIfDepth(Outer(m)) == IfDepth(body) && StmtLoopDepth(Outer(m)) == 1 + LoopDepth(body)
  {
    assert IfDepth(Nil) == 0 && LoopDepth(Nil) == 0;
    hide WellFormed, WellFormedStmt, Lines, NoDirectLoop, Inner, IfDepth, LoopDepth, StmtIfDepth, StmtLoopDepth;
    AppendParts(m.p, Cons(IfB(m), AfterB(m)));
    AppendParts(m.v, Cons(Stmt.Break, m.w));
    AppendParts(m.q, Cons(Inner(m), m.u));
    ConsDepth(IfB(m), AfterB(m));
    ConsDepth(Stmt.Break, m.w);
    ConsDepth(Inner(m), m.u);
    StmtDepths(Stmt.Break);
    StmtDepths(IfB(m));
    StmtDepths(Outer(m));
  }

  /** Where the parts of the outer loop stand. */
  lemma {:induction false} OuterLines(lines: seq<seq<Word>>, m: Pieces, base: nat)
    requires Placed(lines, base, LinesOf(Outer(m)))
    ensures var b := base + 2 + |Lines(m.p)|;
            var v := b + |LinesOf(IfB(m))|;
            var brk := v + |Lines(m.v)|;
            var done := brk + 1 + |Lines(m.w)|;
            && Placed(lines, base + 2, Lines(Outer(m).body)) && Placed(lines, base + 2, Lines(m.p))
            && Placed(lines, b, LinesOf(IfB(m))) && Placed(lines, b, Lines(Cons(IfB(m), AfterB(m))))
            && Placed(lines, v, Lines(m.v)) && Placed(lines, brk + 1, Lines(m.w))
            && done < |lines| && lines[brk] == [WBreak] && lines[done] == [WDone]
            && |Lines(Cons(IfB(m), AfterB(m)))| == done - b && |Lines(Outer(m).body)| == done - base - 2
            && |LinesOf(Outer(m))| == done + 1 - base
  {
    hide LinesOf, Lines, Placed, IfB, AfterB, WellFormed, IfDepth, LoopDepth, NoDirectLoop;
    PlacedLoop(lines, Outer(m), base);
    AppendParts(m.p, Cons(IfB(m), AfterB(m)));
    ConsLines(IfB(m), AfterB(m));
    var b := base + 2 + |Lines(m.p)|;
    PlacedSplit(lines, base + 2, Lines(m.p), Lines(Cons(IfB(m), AfterB(m))));
    PlacedSplit(lines, b, LinesOf(IfB(m)), Lines(AfterB(m)));
    LinesAfterB(lines, m, b + |LinesOf(IfB(m))|);
  }

  lemma {:induction false} LinesAfterB(lines: seq<seq<Word>>, m: Pieces, v: nat)
    requires Placed(lines, v, Lines(AfterB(m)))
    ensures var brk := v + |Lines(m.v)|;
            && Placed(lines, v, Lines(m.v)) && brk < |lines| && lines[brk] == [WBreak] && Placed(lines, brk + 1, Lines(m.w))
            && |Lines(AfterB(m))| == |Lines(m.v)| + 1 + |Lines(m.w)|
  {
    hide LinesOf, Lines, Placed, WellFormed, IfDepth, LoopDepth, NoDirectLoop;
    AppendParts(m.v, Cons(Stmt.Break, m.w));
    BreakLines(m.w);
    PlacedSplit(lines, v, Lines(m.v), [[WBreak]] + Lines(m.w));
    PlacedHead(lines, v + |Lines(m.v)|, [WBreak], Lines(m.w));
  }

  /** Where the parts of the `if` of `b` stand. */
  lemma {:induction false} LinesOfB(lines: seq<seq<Word>>, m: Pieces, b: nat)
    requires Placed(lines, b, LinesOf(IfB(m)))
    ensures var c := b + 2 + |Lines(m.q)|;
            var u := c + |LinesOf(Inner(m))|;
            && Placed(lines, b + 2, Lines(IfB(m).thn)) && Placed(lines, b + 2, Lines(m.q)) && Placed(lines, c, LinesOf(Inner(m)))
            && Placed(lines, u, Lines(m.u)) && |Lines(IfB(m).thn)| == u + |Lines(m.u)| - b - 2
            && u + |Lines(m.u)| < |lines| && lines[u + |Lines(m.u)|] == [WFi]
            && |LinesOf(IfB(m))| == u + |Lines(m.u)| + 1 - b
  {
    hide LinesOf, Lines, Placed, Inner;
    PlacedIf(lines, IfB(m), b);
    AppendParts(m.q, Cons(Inner(m), m.u));
    ConsLines(Inner(m), m.u);
    PlacedSplit(lines, b + 2, Lines(m.q), Lines(Cons(Inner(m), m.u)));
    PlacedSplit(lines, b + 2 + |Lines(m.q)|, LinesOf(Inner(m)), Lines(m.u));
  }

  // ----- the `if` of `b` -----

  /** Inside the outer loop. */
  lemma {:induction false} OuterBody(np: Np, l: NshControl.Loop, y: Np)
    requires AtOuter(np) && np.iendx + 1 < |np.ie| && np.lpndx + 1 < |np.lp|
    requires l.state.LoopDo? && l.iendx == np.iendx && Same(Looped(np, l), y)
    ensures Sane(y) && Idle(y) && ItefEnabled(y) && y.fd >= 0 && y.iendx == np.iendx && y.lpndx == np.lpndx + 1 && |y.ie| == |np.ie| && |y.lp| == |np.lp|
    ensures if l.enable then Live(y, LoopBody) else !CmdEnabled(y)
    ensures forall y' :: Same(y, y') ==> Same(Looped(np, l), y')
    ensures forall y' :: SwitchedOff(y, y') ==> Same(Looped(np, l.(enable := false)), y')
  {
  }

  lemma {:induction false} EnterB(np: Np, l: NshControl.Loop, y: Np, e: Itef, x: Np)
    requires AtOuter(np) && np.iendx + 1 < |np.ie| && np.lpndx + 1 < |np.lp|
    requires l.state.LoopDo? && l.enable && l.iendx == np.iendx && Same(Looped(np, l), y)
    requires OnTop(y, e, x) && e.state.ItefThen? && !e.disabled
    ensures !e.ifcond ==> Live(x, UnderIf) && forall x' :: Same(x, x') ==> AtInner(x')
    ensures e.ifcond ==> Idle(x) && !ItefEnabled(x) && x.fd >= 0
    ensures x.iendx == np.iendx + 1 && x.lpndx == np.lpndx + 1 && |x.ie| == |np.ie| && |x.lp| == |np.lp|
    ensures forall x' :: Same(x, x') ==> OnTop(y, e, x')
  {
  }

  /** Behind the inner loop commands are run, with all frames or one short. */
  lemma {:induction false} BehindInner(np: Np, q: Np)
    requires AtInner(np) && (Same(np, q) || Short(np, q))
    ensures Live(q, UnderIf) && q.iendx <= np.iendx && q.lpndx == np.lpndx && |q.ie| == |np.ie| && |q.lp| == |np.lp|
    ensures forall q' :: Same(q, q') ==> Same(np, q') || Short(np, q')
  {
  }

  lemma {:induction false} FromSame(np: Np, np1: Np, q: Np)
    requires Same(np, np1) && (Same(np1, q) || Short(np1, q))
    ensures Same(np, q) || Short(np, q)
  {
  }

  /** `v` is `y` with the top frame closed, its slot untouched. */
  ghost predicate Closed(y: Np, v: Np)
  {
    Short(y, v) && v.ie[y.iendx] == y.ie[y.iendx]
  }

  /** The `fi` of `b`, with all frames or one short. */
  lemma {:induction false} CloseB(lines: seq<seq<Word>>, w: World, ignore: bool, np: Np, l: NshControl.Loop, y: Np, e: Itef, x: Np, x': Np, trace: seq<Event>, budget: nat)
    returns (v: Np)
    requires AtOuter(np) && np.iendx + 1 < |np.ie| && np.lpndx + 1 < |np.lp|
    requires l.state.LoopDo? && l.enable && l.iendx == np.iendx && Same(Looped(np, l), y)
    requires OnTop(y, e, x) && e.state.ItefThen? && !e.disabled && !e.ifcond
    requires (Same(x, x') || Short(x, x')) && x'.filepos < |lines| && lines[x'.filepos] == [WFi]
    ensures (Same(y, v) || Closed(y, v)) && v.fail == x'.fail && v.filepos == x'.filepos + 1
    ensures Run(lines, w, ignore, x', trace, budget) == Run(lines, w, ignore, v, trace, budget)
  {
    hide Run, ParseLine;
    FiLine(x', w, trace);
    Step(lines, w, ignore, x', trace, budget);
    v := ParseLine(x', [WFi], w, trace).np;
  }

  /** Past the `if` of `b`: all frames are there, or one is closed too many, or the run is over. */
  ghost predicate Passes(lines: seq<seq<Word>>, w: World, ignore: bool, start: Np, y: Np, trace: seq<Event>, budget: nat, r: Result, v: Np, end: nat)
    requires Sane(start)
  {
    if r.flow.Normal? then
      && (Same(y, v) || Closed(y, v)) && v.fail == r.fail && v.filepos == end
      && Sane(v) && Run(lines, w, ignore, start, trace, budget) == Run(lines, w, ignore, v, r.trace, r.budget)
    else !r.flow.Broke? && Run(lines, w, ignore, start, trace, budget).out == r
  }

  lemma {:induction false} EitherSane(y: Np, v: Np)
    requires Same(y, v) || Closed(y, v)
    ensures Sane(v)
  {
  }

  /** The branch of `b` that is run. */
  lemma {:induction false} TakenB(lines: seq<seq<Word>>, w: World, ignore: bool, m: Pieces, np: Np, l: NshControl.Loop, y: Np, e: Itef, x: Np, b: nat, trace: seq<Event>, budget: nat)
    returns (v: Np)
    requires AtOuter(np) && Mendable(m) && l.state.LoopDo? && l.enable && l.iendx == np.iendx
    requires WellFormedStmt(Outer(m)) && Fits(np, StmtIfDepth(Outer(m)), StmtLoopDepth(Outer(m))) && Placed(lines, b, LinesOf(IfB(m)))
    requires np.iendx + 1 < |np.ie| && np.lpndx + 1 < |np.lp| && Same(Looped(np, l), y)
    requires OnTop(y, e, x) && e.state.ItefThen? && !e.disabled && !e.ifcond && x.filepos == b + 2 && !x.fail
    ensures Sane(x)
    ensures Passes(lines, w, ignore, x, y, trace, budget, EvalBlock(IfB(m).thn, b + 2, true, w, ignore, trace, false, budget), v, b + |LinesOf(IfB(m))|)
  {
    hide Run, EvalStmt, EvalBlock, LinesOf, Lines, Placed, WellFormed, WellFormedStmt, IfDepth, LoopDepth, StmtIfDepth, StmtLoopDepth,
      Same, AtInner, AtOuter, Live, Good, Looped, Short, OnTop, Fits, Inner, Closed;
    LinesOfB(lines, m, b);
    OuterParts(m, np);
    EnterB(np, l, y, e, x);
    LiveEnabled(x, UnderIf);
    EvalAppend(m.q, Cons(Inner(m), m.u), b + 2, true, w, ignore, trace, false, budget);
    FitsOf(x, m.q);
    var x1 := SimBlock(lines, w, ignore, m.q, UnderIf, x, trace, budget);
    var r := EvalBlock(m.q, b + 2, true, w, ignore, trace, false, budget);
    v := x1;
    if r.flow.Normal? {
      var c := b + 2 + |Lines(m.q)|;
      EvalCons(Cons(Inner(m), m.u), c, true, w, ignore, r.trace, r.fail, r.budget);
      InnerFits(x, x1, m);
      var x2 := InnerLoop(lines, w, ignore, m, x1, r.trace, r.budget);
      var r2 := EvalStmt(Inner(m), c, true, w, ignore, r.trace, r.fail, r.budget);
      if r2.flow.Normal? {
        BehindInner(x1, x2);
        FitsOf(x2, m.u);
        var x3 := SimBlock(lines, w, ignore, m.u, UnderIf, x2, r2.trace, r2.budget);
        var r3 := EvalBlock(m.u, c + |LinesOf(Inner(m))|, true, w, ignore, r2.trace, r2.fail, r2.budget);
        if r3.flow.Normal? {
          FromSame(x, x1, x3);
          v := CloseB(lines, w, ignore, np, l, y, e, x, x3, r3.trace, r3.budget);
          EitherSane(y, v);
        }
      }
    }
  }

  lemma {:induction false} InnerFits(x: Np, x1: Np, m: Pieces)
    requires Same(x, x1) && x.iendx + StmtIfDepth(Inner(m)) < |x.ie| && x.lpndx + StmtLoopDepth(Inner(m)) < |x.lp|
    ensures Fits(x1, StmtIfDepth(Inner(m)), StmtLoopDepth(Inner(m)))
    ensures x1.iendx == x.iendx && x1.lpndx == x.lpndx && |x1.ie| == |x.ie| && |x1.lp| == |x.lp|
  {
  }

  /** The whole `if` of `b`. */
  lemma {:induction false} PassB(lines: seq<seq<Word>>, w: World, ignore: bool, m: Pieces, np: Np, l: NshControl.Loop, y: Np, trace: seq<Event>, budget: nat)
    returns (v: Np)
    requires AtOuter(np) && Mendable(m) && l.state.LoopDo? && l.enable && l.iendx == np.iendx
    requires WellFormedStmt(Outer(m)) && Fits(np, StmtIfDepth(Outer(m)), StmtLoopDepth(Outer(m))) && Placed(lines, y.filepos, LinesOf(IfB(m)))
    requires np.iendx + 1 < |np.ie| && np.lpndx + 1 < |np.lp| && Same(Looped(np, l), y)
    ensures Sane(y)
    ensures Passes(lines, w, ignore, y, y, trace, budget, EvalStmt(IfB(m), y.filepos, true, w, ignore, trace, y.fail, budget),
                   v, y.filepos + |LinesOf(IfB(m))|)
  {
    hide Run, EvalStmt, EvalBlock, LinesOf, Lines, Placed, WellFormed, WellFormedStmt, IfDepth, LoopDepth, StmtIfDepth, StmtLoopDepth,
      Same, AtInner, AtOuter, Live, Good, Looped, Short, OnTop, Fits, Inner, Closed;
    OuterBody(np, l, y);
    LiveEnabled(y, LoopBody);
    OuterParts(m, np);
    LinesOfB(lines, m, y.filepos);
    EvalIf(IfB(m), y.filepos, true, w, ignore, trace, y.fail, budget);
    var e, x := OpenIf(lines, w, ignore, IfB(m), y, trace, budget);
    var trace1 := trace + [Event(y.filepos, m.b, y.fail)];
    if w(trace1) == m.bInverted {
      v := TakenB(lines, w, ignore, m, np, l, y, e, x, y.filepos, trace1, budget);
    } else {
      EnterB(np, l, y, e, x);
      EvalNil(y.filepos + 3 + |Lines(IfB(m).thn)|, true, w, ignore, trace1, false, budget);
      FitsOf(x, IfB(m).thn);
      var x1 := SkipBlock(lines, w, ignore, IfB(m).thn, x, trace1, budget);
      v := PassFi(lines, w, ignore, y, e, x1, trace1, budget);
      SameIsSane(y, v);
    }
  }

  // ----- commands, the outer `break`, and the end -----

  /** Commands are run in any state that runs them, and touch no slot. */
  lemma {:induction false} RunCommands(lines: seq<seq<Word>>, w: World, ignore: bool, b: Block, np: Np, trace: seq<Event>, budget: nat)
    returns (np': Np)
    requires CommandsOnly(b) && WellFormed(b) && Placed(lines, np.filepos, Lines(b)) && Idle(np) && CmdEnabled(np)
    ensures var r := EvalBlock(b, np.filepos, true, w, ignore, trace, np.fail, budget);
            if r.flow.Normal? then
              && np'.ie == np.ie && np'.lp == np.lp && np'.iendx == np.iendx && np'.lpndx == np.lpndx && np'.fd == np.fd
              && np'.fail == r.fail && np'.filepos == np.filepos + |Lines(b)|
              && Sane(np') && Run(lines, w, ignore, np, trace, budget) == Run(lines, w, ignore, np', r.trace, r.budget)
            else !r.flow.Broke? && Run(lines, w, ignore, np, trace, budget).out == r
    decreases b
  {
    hide Run, ParseLine;
    if b.Nil? {
      np' := np;
    } else {
      var argv := b.head.argv;
      PlacedSplit(lines, np.filepos, LinesOf(b.head), Lines(b.tail));
      PlacedLast(lines, np.filepos, argv);
      CommandLine(np, argv, w, trace);
      Step(lines, w, ignore, np, trace, budget);
      var p := ParseLine(np, argv, w, trace);
      np' := p.np;
      if !p.error || ignore {
        np' := RunCommands(lines, w, ignore, b.tail, p.np, p.trace, budget);
      }
    }
  }

  /** Behind the `if` of `b` commands are run. */
  lemma {:induction false} BehindB(np: Np, l: NshControl.Loop, y: Np, v: Np)
    requires AtOuter(np) && np.iendx + 1 < |np.ie| && np.lpndx + 1 < |np.lp|
    requires l.state.LoopDo? && l.enable && l.iendx == np.iendx && Same(Looped(np, l), y)
    requires Same(y, v) || Closed(y, v)
    ensures Idle(v) && CmdEnabled(v)
  {
  }

  lemma {:induction false} Untouched(y: Np, v: Np, v': Np)
    requires Same(y, v) || Closed(y, v)
    requires Sane(v') && v'.ie == v.ie && v'.lp == v.lp && v'.iendx == v.iendx && v'.lpndx == v.lpndx && v'.fd == v.fd
    ensures Same(y, v') || Closed(y, v')
  {
  }

  /** The outer `break` puts the if-index right, whether or not a frame was lost. */
  lemma {:induction false} BreakRepairs(lines: seq<seq<Word>>, w: World, ignore: bool, np: Np, l: NshControl.Loop, y: Np, v: Np, trace: seq<Event>, budget: nat)
    returns (v': Np)
    requires AtOuter(np) && np.iendx + 1 < |np.ie| && np.lpndx + 1 < |np.lp|
    requires l.state.LoopDo? && l.enable && l.iendx == np.iendx && Same(Looped(np, l), y)
    requires (Same(y, v) || Closed(y, v)) && v.filepos < |lines| && lines[v.filepos] == [WBreak]
    ensures Same(Looped(np, l.(enable := false)), v') && !v'.fail && v'.filepos == v.filepos + 1
    ensures Run(lines, w, ignore, v, trace, budget) == Run(lines, w, ignore, v', trace, budget)
  {
    hide Run, ParseLine;
    BreakDropsFrame(v, w, trace);
    Step(lines, w, ignore, v, trace, budget);
    v' := ParseLine(v, [WBreak], w, trace).np;
  }

  /** The rest of an outer body that has been left, and its `done`. */
  lemma {:induction false} LeaveOuter(lines: seq<seq<Word>>, w: World, ignore: bool, np: Np, l: NshControl.Loop, y: Np, rest: Block, trace: seq<Event>, budget: nat)
    returns (np': Np)
    requires AtOuter(np) && np.iendx + 1 < |np.ie| && np.lpndx + 1 < |np.lp|
    requires l.state.LoopDo? && !l.enable && l.iendx == np.iendx && Same(Looped(np, l), y) && l.topoffs <= y.filepos
    requires WellFormed(rest) && NoDirectLoop(rest) && Placed(lines, y.filepos, Lines(rest))
    requires np.iendx + IfDepth(rest) < |np.ie| && np.lpndx + 1 + LoopDepth(rest) < |np.lp|
    requires y.filepos + |Lines(rest)| < |lines| && lines[y.filepos + |Lines(rest)|] == [WDone]
    ensures Same(np, np') && np'.fail == y.fail && np'.filepos == y.filepos + |Lines(rest)| + 1
    ensures Run(lines, w, ignore, y, trace, budget) == Run(lines, w, ignore, np', trace, budget)
  {
    hide Run, Lines, Placed, WellFormed, IfDepth, LoopDepth, NoDirectLoop, Same, AtOuter, Looped;
    OuterBody(np, l, y);
    OuterState(np);
    var y1 := SkipOff(lines, w, ignore, rest, y, trace, budget);
    np' := PassDone(lines, w, ignore, np, l, y1, trace, budget);
  }

  lemma {:induction false} OuterState(np: Np)
    requires AtOuter(np)
    ensures Sane(np) && Idle(np) && ItefEnabled(np) && np.fd >= 0 && Live(np, TopLevel)
  {
  }

  /** From the `if` of `b` to the end of the outer loop. */
  lemma {:induction false} OuterRest(lines: seq<seq<Word>>, w: World, ignore: bool, m: Pieces, np: Np, l: NshControl.Loop, y: Np, trace: seq<Event>, budget: nat)
    returns (np': Np)
    requires AtOuter(np) && Mendable(m) && l == NshControl.Loop(LoopDo, true, np.iendx, np.filepos)
    requires WellFormedStmt(Outer(m)) && Fits(np, StmtIfDepth(Outer(m)), StmtLoopDepth(Outer(m))) && Placed(lines, np.filepos, LinesOf(Outer(m)))
    requires np.iendx + 1 < |np.ie| && np.lpndx + 1 < |np.lp| && Same(Looped(np, l), y) && y.filepos == np.filepos + 2 + |Lines(m.p)|
    ensures Sane(y)
    ensures var r := EvalBlock(Cons(IfB(m), AfterB(m)), y.filepos, true, w, ignore, trace, y.fail, budget);
            if r.flow.Broke? then
              && Same(np, np') && np'.fail == r.fail && np'.filepos == np.filepos + |LinesOf(Outer(m))|
              && Run(lines, w, ignore, y, trace, budget) == Run(lines, w, ignore, np', r.trace, r.budget)
            else !r.flow.Normal? && Run(lines, w, ignore, y, trace, budget).out == r
  {
    hide Run, EvalStmt, EvalBlock, LinesOf, Lines, Placed, WellFormed, WellFormedStmt, IfDepth, LoopDepth, StmtIfDepth, StmtLoopDepth,
      Same, AtOuter, Live, Good, Looped, Fits, IfB, Closed, NoDirectLoop;
    OuterBody(np, l, y);
    OuterParts(m, np);
    OuterLines(lines, m, np.filepos);
    MendableParts(m);
    var b := y.filepos;
    EvalCons(Cons(IfB(m), AfterB(m)), b, true, w, ignore, trace, y.fail, budget);
    var v := PassB(lines, w, ignore, m, np, l, y, trace, budget);
    var r := EvalStmt(IfB(m), b, true, w, ignore, trace, y.fail, budget);
    np' := np;
    if r.flow.Normal? {
      BehindB(np, l, y, v);
      EvalAppend(m.v, Cons(Stmt.Break, m.w), v.filepos, true, w, ignore, r.trace, r.fail, r.budget);
      var v1 := RunCommands(lines, w, ignore, m.v, v, r.trace, r.budget);
      var r2 := EvalBlock(m.v, v.filepos, true, w, ignore, r.trace, r.fail, r.budget);
      if r2.flow.Normal? {
        EvalBreak(m.w, v1.filepos, w, ignore, r2.trace, r2.fail, r2.budget);
        Untouched(y, v, v1);
        var v2 := BreakRepairs(lines, w, ignore, np, l, y, v1, r2.trace, r2.budget);
        np' := LeaveOuter(lines, w, ignore, np, l.(enable := false), v2, m.w, r2.trace, r2.budget);
      }
    }
  }

  /** The one pass through the outer body: it ends in a `break`. */
  lemma {:induction false} OuterPass(lines: seq<seq<Word>>, w: World, ignore: bool, m: Pieces, np: Np, l: NshControl.Loop, y: Np, trace: seq<Event>, budget: nat)
    returns (np': Np)
    requires AtOuter(np) && Mendable(m) && l == NshControl.Loop(LoopDo, true, np.iendx, np.filepos)
    requires WellFormedStmt(Outer(m)) && Fits(np, StmtIfDepth(Outer(m)), StmtLoopDepth(Outer(m))) && Placed(lines, np.filepos, LinesOf(Outer(m)))
    requires np.iendx + 1 < |np.ie| && np.lpndx + 1 < |np.lp| && Same(Looped(np, l), y) && y.filepos == np.filepos + 2 && !y.fail
    ensures Sane(y)
    ensures var r := EvalBlock(Outer(m).body, y.filepos, true, w, ignore, trace, false, budget);
            if r.flow.Broke? then
              && Same(np, np') && np'.fail == r.fail && np'.filepos == np.filepos + |LinesOf(Outer(m))|
              && Run(lines, w, ignore, y, trace, budget) == Run(lines, w, ignore, np', r.trace, r.budget)
            else !r.flow.Normal? && Run(lines, w, ignore, y, trace, budget).out == r
  {
    hide Run, EvalStmt, EvalBlock, LinesOf, Lines, Placed, WellFormed, WellFormedStmt, IfDepth, LoopDepth, StmtIfDepth, StmtLoopDepth,
      Same, SwitchedOff, AtOuter, Live, Good, Looped, Fits, IfB, AfterB, NoDirectLoop;
    OuterBody(np, l, y);
    OuterParts(m, np);
    OuterLines(lines, m, np.filepos);
    MendableParts(m);
    EvalAppend(m.p, Cons(IfB(m), AfterB(m)), np.filepos + 2, true, w, ignore, trace, false, budget);
    FitsOf(y, m.p);
    var y1 := SimBlock(lines, w, ignore, m.p, LoopBody, y, trace, budget);
    var r := EvalBlock(m.p, np.filepos + 2, true, w, ignore, trace, false, budget);
    np' := np;
    if r.flow.Normal? {
      np' := OuterRest(lines, w, ignore, m, np, l, y1, r.trace, r.budget);
    } else if r.flow.Broke? {
      np' := LeaveOuter(lines, w, ignore, np, l.(enable := false), y1, Cons(IfB(m), AfterB(m)), r.trace, r.budget);
    }
  }

  /** The outer loop: machine and evaluator agree, and all frames are there afterwards. */
  lemma {:induction false} OuterLoop(lines: seq<seq<Word>>, w: World, ignore: bool, m: Pieces, np: Np, trace: seq<Event>, budget: nat)
    returns (np': Np)
    requires AtOuter(np) && Mendable(m) && Placed(lines, np.filepos, LinesOf(Outer(m)))
    requires WellFormedStmt(Outer(m)) && Fits(np, StmtIfDepth(Outer(m)), StmtLoopDepth(Outer(m)))
    ensures Sane(np)
    ensures var r := EvalStmt(Outer(m), np.filepos, false, w, ignore, trace, np.fail, budget);
            !r.flow.Broke? && Follows(lines, w, ignore, np, trace, budget, r, np', np.filepos + |LinesOf(Outer(m))|)
  {
    hide Run, EvalStmt, EvalBlock, LinesOf, Lines, Placed, WellFormed, WellFormedStmt, IfDepth, LoopDepth, StmtIfDepth, StmtLoopDepth,
      Same, SwitchedOff, AtOuter, Live, Good, Looped, Fits, IfB, AfterB, NoDirectLoop;
    OuterState(np);
    OuterParts(m, np);
    OuterLines(lines, m, np.filepos);
    MendableParts(m);
    EvalLoop(Outer(m), np.filepos, false, w, ignore, trace, np.fail, budget);
    var l, y := OpenLoop(lines, w, ignore, Outer(m), np, trace, budget);
    OuterBody(np, l, y);
    var trace1 := trace + [Event(np.filepos, m.a, np.fail)];
    if w(trace1) != m.outerUntil {
      np' := LeaveOuter(lines, w, ignore, np, l, y, Outer(m).body, trace1, budget);
    } else {
      np' := OuterPass(lines, w, ignore, m, np, l, y, trace1, budget);
    }
  }

  // ----- the wider fragment -----

  /** The fragment with the nests of the family added, wherever an `if` and no loop is around them. */
  ghost predicate Wider(b: Block, under: bool)
  {
    b.Cons? ==> WiderStmt(b.head, under) && Wider(b.tail, under)
  }

  ghost predicate WiderStmt(s: Stmt, under: bool)
  {
    match s
    case Cmd(_) => true
    case Break => true
    case If(_, _, thn, _, els) => Wider(thn, true) && Wider(els, true)
    case Loop(_, _, _) => GoodStmt(s, TopLevel) || (under && Mended(s))
  }

  /** Every script of the fragment is in the wider one. */
  lemma {:induction false} GoodIsWider(b: Block, under: bool)
    requires Good(b, TopLevel)
    ensures Wider(b, under)
    decreases b
  {
    if b.Cons? {
      if b.head.If? {
        GoodIsWider(b.head.thn, true);
        GoodIsWider(b.head.els, true);
      }
      GoodIsWider(b.tail, under);
    }
  }

  /** Outside loops, in branches that are run all the way down. */
  predicate Straight(np: Np, under: bool)
  {
    && Live(np, TopLevel) && (under ==> np.iendx > 0)
    && Running(np.ie[0]) && forall i :: 0 < i <= np.iendx ==> Taken(np.ie[i])
  }

  lemma {:induction false} SameStraight(np: Np, q: Np, under: bool)
    requires Straight(np, under) && Same(np, q)
    ensures Straight(q, under)
    ensures forall ifs: nat, loops: nat :: Fits(np, ifs, loops) ==> Fits(q, ifs, loops)
    ensures forall q' :: Same(q, q') ==> Same(np, q')
  {
  }

  lemma {:induction false} StraightIsLive(np: Np, under: bool)
    requires Straight(np, under)
    ensures Sane(np) && Live(np, TopLevel) && Idle(np) && CmdEnabled(np) && np.fd >= 0 && Same(np, np)
    ensures under ==> AtOuter(np)
  {
  }

  lemma {:induction false} StraightInFrame(np: Np, under: bool, e: Itef, x: Np)
    requires Straight(np, under) && np.iendx + 1 < |np.ie| && OnTop(np, e, x) && Taken(e)
    ensures Straight(x, true) && x.iendx == np.iendx + 1 && x.lpndx == np.lpndx && |x.ie| == |np.ie| && |x.lp| == |np.lp|
    ensures forall x' :: Same(x, x') ==> OnTop(np, e, x')
  {
  }

  lemma {:induction false} StraightPast(np: Np, under: bool, e: Itef, x: Np)
    requires Straight(np, under) && np.iendx + 1 < |np.ie| && OnTop(np, e, x)
    requires (e.state.ItefThen? || e.state.ItefElse?) && !Taken(e)
    ensures Idle(x) && !ItefEnabled(x) && x.fd >= 0 && x.iendx == np.iendx + 1 && x.lpndx == np.lpndx && |x.ie| == |np.ie| && |x.lp| == |np.lp|
    ensures forall x' :: Same(x, x') ==> OnTop(np, e, x')
  {
  }

  lemma {:induction false} WiderBlock(lines: seq<seq<Word>>, w: World, ignore: bool, b: Block, under: bool, np: Np, trace: seq<Event>, budget: nat)
    returns (np': Np)
    requires WellFormed(b) && Placed(lines, np.filepos, Lines(b)) && Wider(b, under)
    requires Straight(np, under) && Fits(np, IfDepth(b), LoopDepth(b))
    ensures Sane(np)
    ensures var r := EvalBlock(b, np.filepos, false, w, ignore, trace, np.fail, budget);
            !r.flow.Broke? && Follows(lines, w, ignore, np, trace, budget, r, np', np.filepos + |Lines(b)|)
    decreases b, 1
  {
    hide Run, EvalStmt, EvalBlock, Lines, LinesOf, Placed, Live, Straight, Same, SwitchedOff, Fits,
      WellFormed, WellFormedStmt, WiderStmt, IfDepth, LoopDepth, StmtIfDepth, StmtLoopDepth;
    StraightIsLive(np, under);
    if b.Nil? {
      np' := np;
      NoLines();
      EvalNil(np.filepos, false, w, ignore, trace, np.fail, budget);
    } else {
      PartsOf(b, np);
      EvalCons(b, np.filepos, false, w, ignore, trace, np.fail, budget);
      PlacedSplit(lines, np.filepos, LinesOf(b.head), Lines(b.tail));
      var r := EvalStmt(b.head, np.filepos, false, w, ignore, trace, np.fail, budget);
      var np1 := WiderStep(lines, w, ignore, b.head, under, np, trace, budget);
      np' := np1;
      if r.flow.Normal? {
        SameStraight(np, np1, under);
        np' := WiderBlock(lines, w, ignore, b.tail, under, np1, r.trace, r.budget);
      }
    }
  }

  lemma {:induction false} WiderStep(lines: seq<seq<Word>>, w: World, ignore: bool, s: Stmt, under: bool, np: Np, trace: seq<Event>, budget: nat)
    returns (np': Np)
    requires WellFormedStmt(s) && Placed(lines, np.filepos, LinesOf(s)) && WiderStmt(s, under)
    requires Straight(np, under) && Fits(np, StmtIfDepth(s), StmtLoopDepth(s))
    ensures Sane(np)
    ensures var r := EvalStmt(s, np.filepos, false, w, ignore, trace, np.fail, budget);
            !r.flow.Broke? && Follows(lines, w, ignore, np, trace, budget, r, np', np.filepos + |LinesOf(s)|)
    decreases s, 1
  {
    hide Run, EvalStmt, EvalBlock, Lines, LinesOf, Placed, Live, Straight, Same, SwitchedOff, Fits, WellFormedStmt, StmtIfDepth, StmtLoopDepth, Wider, AtOuter;
    StraightIsLive(np, under);
    if s.If? {
      np' := WiderIf(lines, w, ignore, s, under, np, trace, budget);
    } else if GoodStmt(s, TopLevel) {
      np' := SimStmt(lines, w, ignore, s, TopLevel, np, trace, budget);
    } else {
      var m :| Mendable(m) && s == Outer(m);
      np' := OuterLoop(lines, w, ignore, m, np, trace, budget);
    }
  }

  lemma {:induction false} WiderIf(lines: seq<seq<Word>>, w: World, ignore: bool, s: Stmt, under: bool, np: Np, trace: seq<Event>, budget: nat)
    returns (np': Np)
    requires s.If? && WellFormedStmt(s) && Placed(lines, np.filepos, LinesOf(s)) && WiderStmt(s, under)
    requires Straight(np, under) && Fits(np, StmtIfDepth(s), StmtLoopDepth(s))
    ensures Sane(np)
    ensures var r := EvalStmt(s, np.filepos, false, w, ignore, trace, np.fail, budget);
            !r.flow.Broke? && Follows(lines, w, ignore, np, trace, budget, r, np', np.filepos + |LinesOf(s)|)
    decreases s, 0
  {
    hide Run, EvalStmt, EvalBlock, Lines, LinesOf, Placed, Live, Straight, Same, SwitchedOff, Fits, OnTop,
      WellFormed, WellFormedStmt, IfDepth, LoopDepth, StmtIfDepth, StmtLoopDepth, Wider;
    StraightIsLive(np, under);
    PlacedIf(lines, s, np.filepos);
    IfParts(s, np);
    NoElse(s);
    EvalIf(s, np.filepos, false, w, ignore, trace, np.fail, budget);
    var e, x := OpenIf(lines, w, ignore, s, np, trace, budget);
    var trace1 := trace + [Event(np.filepos, s.cond, np.fail)];
    if w(trace1) == s.inverted {
      np' := WiderThen(lines, w, ignore, s, under, np, e, x, trace1, budget);
    } else {
      np' := WiderElse(lines, w, ignore, s, under, np, e, x, trace1, budget);
    }
  }

  lemma {:induction false} NoElse(s: Stmt)
    requires s.If? && WellFormedStmt(s)
    ensures s.hasElse || s.els.Nil?
  {
  }

  /** The `then` part is run, the `else` part passed over. */
  lemma {:induction false} WiderThen(lines: seq<seq<Word>>, w: World, ignore: bool, s: Stmt, under: bool, np: Np, e: Itef, x: Np, trace: seq<Event>, budget: nat)
    returns (np': Np)
    requires s.If? && WellFormedStmt(s) && Placed(lines, np.filepos, LinesOf(s)) && Wider(s.thn, true)
    requires Straight(np, under) && Fits(np, StmtIfDepth(s), StmtLoopDepth(s)) && np.iendx + 1 < |np.ie|
    requires OnTop(np, e, x) && e.state.ItefThen? && Taken(e) && x.filepos == np.filepos + 2
    ensures Sane(x)
    ensures var r := EvalBlock(s.thn, np.filepos + 2, false, w, ignore, trace, x.fail, budget);
            && !r.flow.Broke?
            && if r.flow.Normal? then
                 && Same(np, np') && np'.fail == r.fail && np'.filepos == np.filepos + |LinesOf(s)|
                 && Run(lines, w, ignore, x, trace, budget) == Run(lines, w, ignore, np', r.trace, r.budget)
               else Run(lines, w, ignore, x, trace, budget).out == r
    decreases s.thn, 2
  {
    hide Run, EvalBlock, Lines, LinesOf, Placed, Live, Straight, Same, SwitchedOff, Fits, OnTop,
      WellFormed, WellFormedStmt, IfDepth, LoopDepth, StmtIfDepth, StmtLoopDepth, Wider;
    StraightIsLive(np, under);
    PlacedIf(lines, s, np.filepos);
    IfParts(s, np);
    StraightInFrame(np, under, e, x);
    FitsOf(x, s.thn);
    var x1 := WiderBlock(lines, w, ignore, s.thn, true, x, trace, budget);
    var r := EvalBlock(s.thn, np.filepos + 2, false, w, ignore, trace, x.fail, budget);
    np' := x1;
    if r.flow.Normal? {
      if s.hasElse {
        var x2 := PassElse(lines, w, ignore, np, e, x1, r.trace, r.budget);
        var e1 := e.(state := ItefElse);
        StraightPast(np, under, e1, x2);
        FitsOf(x2, s.els);
        var x3 := SkipBlock(lines, w, ignore, s.els, x2, r.trace, r.budget);
        np' := PassFi(lines, w, ignore, np, e1, x3, r.trace, r.budget);
      } else {
        np' := PassFi(lines, w, ignore, np, e, x1, r.trace, r.budget);
      }
    }
  }

  /** The `then` part is passed over, the `else` part run. */
  lemma {:induction false} WiderElse(lines: seq<seq<Word>>, w: World, ignore: bool, s: Stmt, under: bool, np: Np, e: Itef, x: Np, trace: seq<Event>, budget: nat)
    returns (np': Np)
    requires s.If? && WellFormedStmt(s) && Placed(lines, np.filepos, LinesOf(s)) && Wider(s.els, true)
    requires Straight(np, under) && Fits(np, StmtIfDepth(s), StmtLoopDepth(s)) && np.iendx + 1 < |np.ie|
    requires OnTop(np, e, x) && e.state.ItefThen? && !e.disabled && e.ifcond && x.filepos == np.filepos + 2
    ensures Sane(x)
    ensures var r := EvalBlock(s.els, np.filepos + 3 + |Lines(s.thn)|, false, w, ignore, trace, x.fail, budget);
            && !r.flow.Broke?
            && if r.flow.Normal? then
                 && Same(np, np') && np'.fail == r.fail && np'.filepos == np.filepos + |LinesOf(s)|
                 && Run(lines, w, ignore, x, trace, budget) == Run(lines, w, ignore, np', r.trace, r.budget)
               else Run(lines, w, ignore, x, trace, budget).out == r
    decreases s.els, 2
  {
    hide Run, EvalBlock, Lines, LinesOf, Placed, Live, Straight, Same, SwitchedOff, Fits, OnTop,
      WellFormed, WellFormedStmt, IfDepth, LoopDepth, StmtIfDepth, StmtLoopDepth, Wider;
    StraightIsLive(np, under);
    PlacedIf(lines, s, np.filepos);
    IfParts(s, np);
    NoElse(s);
    StraightPast(np, under, e, x);
    FitsOf(x, s.thn);
    var x1 := SkipBlock(lines, w, ignore, s.thn, x, trace, budget);
    var at := np.filepos + 3 + |Lines(s.thn)|;
    if s.hasElse {
      var x2 := PassElse(lines, w, ignore, np, e, x1, trace, budget);
      var e1 := e.(state := ItefElse);
      StraightInFrame(np, under, e1, x2);
      FitsOf(x2, s.els);
      var x3 := WiderBlock(lines, w, ignore, s.els, true, x2, trace, budget);
      var r := EvalBlock(s.els, at, false, w, ignore, trace, x.fail, budget);
      np' := x3;
      if r.flow.Normal? {
        np' := PassFi(lines, w, ignore, np, e1, x3, r.trace, r.budget);
      }
    } else {
      EvalNil(at, false, w, ignore, trace, x.fail, budget);
      np' := PassFi(lines, w, ignore, np, e, x1, trace, budget);
    }
  }

  /** On every script of the wider fragment machine and evaluator agree in every world. */
  lemma {:induction false} WiderRefinement(b: Block, depth: nat, ignore: bool)
    requires depth > 0 && WellFormed(b) && Wider(b, false) && IfDepth(b) < depth && LoopDepth(b) < depth
    ensures Agrees(b, depth, ignore)
  {
    hide Run, EvalBlock, Lines, WellFormed, Wider, IfDepth, LoopDepth, Start;
    forall w: World, fail: bool, budget: nat
      ensures Run(Lines(b), w, ignore, Start(depth, fail), [], budget).out == EvalBlock(b, 0, false, w, ignore, [], fail, budget)
    {
      WiderRuns(b, depth, w, ignore, fail, budget);
    }
  }

  lemma {:induction false} StartIsStraight(depth: nat, fail: bool)
    requires depth > 0
    ensures var np := Start(depth, fail);
            Straight(np, false) && np.filepos == 0 && np.fail == fail && np.iendx == 0 && np.lpndx == 0 && |np.ie| == |np.lp| == depth
  {
  }

  lemma {:induction false} WiderRuns(b: Block, depth: nat, w: World, ignore: bool, fail: bool, budget: nat)
    requires depth > 0 && WellFormed(b) && Wider(b, false) && IfDepth(b) < depth && LoopDepth(b) < depth
    ensures Run(Lines(b), w, ignore, Start(depth, fail), [], budget).out == EvalBlock(b, 0, false, w, ignore, [], fail, budget)
  {
    hide Run, EvalBlock, Lines, WellFormed, Wider, IfDepth, LoopDepth, Start, Straight, Same, SwitchedOff;
    StartIsStraight(depth, fail);
    var np, lines := Start(depth, fail), Lines(b);
    assert lines[0..|lines|] == lines;
    FitsOf(np, b);
    var np' := WiderBlock(lines, w, ignore, b, false, np, [], budget);
    var r := EvalBlock(b, 0, false, w, ignore, [], fail, budget);
    if r.flow.Normal? {
      SameIsSane(np, np');
      RunAtEnd(lines, w, ignore, np', r.trace, r.budget);
    }
  }

  // ----- the smallest of the family -----

  const SMALLEST := Pieces(
    false, [Text("a")], Nil,
    false, [Text("b")], Nil,
    false, [Text("c")], Nil,
    false, [Text("d")], Nil, Nil, false, Nil,
    Nil, Nil, Nil, Nil)

  /** if z; then; while a; do; if b; then; while c; do; if d; then; break; fi; done; fi; break; done; fi */
  const REPAIRED: Block := Cons(If(false, [Text("z")], Cons(Outer(SMALLEST), Nil), false, Nil), Nil)

  /** The wider fragment is wider: machine and evaluator agree on a script outside the fragment. */
  lemma {:induction false} OutsideYetAgrees(depth: nat, ignore: bool)
    requires depth > 3
    ensures !Good(REPAIRED, TopLevel) && Wider(REPAIRED, false) && Agrees(REPAIRED, depth, ignore)
  {
    hide Agrees, Wider, Good, WellFormed, IfDepth, LoopDepth;
    SmallestIsWider();
    SmallestDepths();
    NotGood();
    WiderRefinement(REPAIRED, depth, ignore);
  }

  lemma {:induction false} SmallestIsWider()
    ensures Wider(REPAIRED, false)
  {
    hide Outer, Wider;
    assert Mendable(SMALLEST);
    UnderAnIf([Text("z")], SMALLEST);
  }

  /** A nest of the family under an `if`. */
  lemma {:induction false} UnderAnIf(cond: seq<Word>, m: Pieces)
    requires Mendable(m)
    ensures Wider(Cons(If(false, cond, Cons(Outer(m), Nil), false, Nil), Nil), false)
  {
    hide Mendable;
    var s := Outer(m);
    assert Mended(s);
    assert s.Loop? && WiderStmt(s, true);
    OneWider(s, cond);
  }

  lemma {:induction false} OneWider(s: Stmt, cond: seq<Word>)
    requires WiderStmt(s, true)
    ensures Wider(Cons(If(false, cond, Cons(s, Nil), false, Nil), Nil), false)
  {
    assert Wider(Cons(s, Nil), true);
  }

  lemma {:induction false} SmallestDepths()
    ensures WellFormed(REPAIRED) && IfDepth(REPAIRED) == 3 && LoopDepth(REPAIRED) == 2
  {
    hide IsKeyword, IfB;
    var m := SMALLEST;
    SmallestInside();
    PlainLetters();
    assert AfterB(m) == Cons(Stmt.Break, Nil);
    assert StmtIfDepth(Outer(m)) == 2 && StmtLoopDepth(Outer(m)) == 2 && WellFormedStmt(Outer(m));
  }

  lemma {:induction false} SmallestInside()
    ensures var m := SMALLEST; StmtIfDepth(IfB(m)) == 2 && StmtLoopDepth(IfB(m)) == 1 && WellFormedStmt(IfB(m))
  {
    hide IsKeyword;
    var m := SMALLEST;
    PlainLetters();
    assert StmtIfDepth(IfD(m)) == 1 && StmtLoopDepth(IfD(m)) == 0 && WellFormedStmt(IfD(m));
    assert StmtIfDepth(Inner(m)) == 1 && StmtLoopDepth(Inner(m)) == 1 && WellFormedStmt(Inner(m));
  }

  lemma {:induction false} PlainLetters()
    ensures !IsKeyword("a") && !IsKeyword("b") && !IsKeyword("c") && !IsKeyword("d") && !IsKeyword("z")
  {
  }

  lemma {:induction false} NotGood()
    ensures !Good(REPAIRED, TopLevel)
  {
    var m := SMALLEST;
    assert !Good(IfD(m).thn, UnderIf);
    assert !GoodStmt(IfD(m), LoopBody);
    assert !Good(Inner(m).body, LoopBody);
    assert !GoodStmt(Inner(m), UnderIf);
    assert !Good(IfB(m).thn, UnderIf);
    assert !GoodStmt(IfB(m), LoopBody);
    assert !Good(Outer(m).body, LoopBody);
    assert !GoodStmt(Outer(m), TopLevel);
    assert !Good(REPAIRED.head.thn, TopLevel);
  }
}
