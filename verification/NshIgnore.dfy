/**
With the ignore-errors flag set, `ExactFragment` leaves out every `break` under an
`if` of a loop. This is why: the stray `fi` that follows such a `break` is then
only an error that sets `$?`, and a later command may clear it again. The script
below is outside the fragment. With the flag clear machine and evaluator differ
on it in some world; with the flag set they agree in every world.
*/
module NshIgnore {
  import opened NshControl
  import opened NshScript
  import opened NshRefinement
  import opened NshAstray
  import opened NshExactness

  /** while a; do; if b; then; break; fi; done; break */
  const CLEARED: Block := Cons(LOOP, Cons(Stmt.Break, Nil))

  const CLEARED_LINES: seq<seq<Word>> :=
    [[WWhile] + A, [WDo], [WIf] + B, [WThen], [WBreak], [WFi], [WDone], [WBreak]]

  /** At the top of the script, with nothing open. */
  predicate AtTop(np: Np)
  {
    && Live(np, TopLevel) && np.iendx == 0 && np.ie[0] == Itef(ItefNormal, false, false, false)
    && |np.ie| > 1 && |np.lp| > 1
  }

  lemma {:induction false} TopIsLive(np: Np)
    requires AtTop(np)
    ensures Sane(np) && Idle(np) && CmdEnabled(np) && ItefEnabled(np) && np.fd >= 0 && np.iendx == 0 && np.lpndx == 0 && |np.ie| > 1 && |np.lp| > 1
    ensures forall q :: Same(np, q) ==> AtTop(q)
  {
  }

  lemma {:induction false} Prints()
    ensures Lines(CLEARED) == CLEARED_LINES && |LinesOf(LOOP)| == 7
    ensures Placed(CLEARED_LINES, 0, LinesOf(LOOP)) && Placed(CLEARED_LINES, 2, LinesOf(INNER)) && Placed(CLEARED_LINES, 4, Lines(INNER.thn))
    ensures Lines(Cons(INNER, Nil)) == LinesOf(INNER) && |LinesOf(INNER)| == 4 && Lines(INNER.thn) == [[WBreak]]
  {
    assert Lines(INNER.thn) == [[WBreak]];
    assert LinesOf(INNER) == [[WIf] + B, [WThen], [WBreak], [WFi]];
    assert Lines(Cons(INNER, Nil)) == LinesOf(INNER);
    assert LinesOf(LOOP) == CLEARED_LINES[..7];
    assert Lines(Cons(Stmt.Break, Nil)) == [[WBreak]];
    assert CLEARED_LINES[0..7] == CLEARED_LINES[..7];
    assert CLEARED_LINES[2..6] == LinesOf(INNER);
    assert CLEARED_LINES[4..5] == [[WBreak]];
  }

  lemma {:induction false} Depths()
    ensures WellFormed(Cons(INNER, Nil)) && WellFormed(INNER.thn) && NoDirectLoop(Cons(INNER, Nil))
    ensures IfDepth(Cons(INNER, Nil)) == 1 && LoopDepth(Cons(INNER, Nil)) == 0 && IfDepth(INNER.thn) == 0 && LoopDepth(INNER.thn) == 0
    ensures WellFormed(CLEARED) && IfDepth(CLEARED) == 1 && LoopDepth(CLEARED) == 1
  {
    hide Condition;
    PlainWords();
    assert WellFormed(INNER.thn) && IfDepth(INNER.thn) == 0 && LoopDepth(INNER.thn) == 0;
    assert StmtIfDepth(INNER) == 1 && StmtLoopDepth(INNER) == 0 && WellFormedStmt(INNER);
    assert WellFormed(Cons(INNER, Nil));
    assert StmtIfDepth(LOOP) == 1 && StmtLoopDepth(LOOP) == 1 && WellFormedStmt(LOOP);
    assert WellFormed(Cons(Stmt.Break, Nil)) && IfDepth(Cons(Stmt.Break, Nil)) == 0 && LoopDepth(Cons(Stmt.Break, Nil)) == 0;
  }

  // ----- the evaluator -----

  lemma {:induction false} EvalInner(base: nat, w: World, trace: seq<Event>, budget: nat)
    ensures var t := trace + [Event(base, B, false)];
            EvalBlock(Cons(INNER, Nil), base, true, w, true, trace, false, budget) ==
            if w(t) then Result(Normal, t, false, budget) else Result(Broke, t, false, budget)
  {
    var t := trace + [Event(base, B, false)];
    assert EvalBlock(INNER.thn, base + 2, true, w, true, t, false, budget) == Result(Broke, t, false, budget);
    assert EvalBlock(INNER.els, base + 3 + |Lines(INNER.thn)|, true, w, true, t, false, budget) == Result(Normal, t, false, budget);
    assert EvalStmt(INNER, base, true, w, true, trace, false, budget) == if w(t) then Result(Normal, t, false, budget) else Result(Broke, t, false, budget);
  }

  lemma {:induction false} EvalCleared(w: World, fail: bool, budget: nat)
    ensures var r := EvalStmt(LOOP, 0, false, w, true, [], fail, budget);
            EvalBlock(CLEARED, 0, false, w, true, [], fail, budget) ==
            if r.flow.Normal? then Result(Normal, r.trace, false, r.budget) else r
  {
    hide EvalStmt, LinesOf;
    var r := EvalStmt(LOOP, 0, false, w, true, [], fail, budget);
    EvalCons(CLEARED, 0, false, w, true, [], fail, budget);
    if r.flow.Normal? {
      EvalLastBreak(|LinesOf(LOOP)|, w, r.trace, r.fail, r.budget);
    }
  }

  lemma {:induction false} EvalLastBreak(base: nat, w: World, trace: seq<Event>, fail: bool, budget: nat)
    ensures EvalBlock(Cons(Stmt.Break, Nil), base, false, w, true, trace, fail, budget) == Result(Normal, trace, false, budget)
  {
  }

  // ----- the machine -----

  /** A `fi` with no frame is an error that empties the if stack. */
  lemma {:induction false} StrayFiSets(np: Np, w: World, trace: seq<Event>)
    requires Idle(np) && TopIe(np).state.ItefNormal?
    ensures var e := ParseLine(np, [WFi], w, trace);
            e.trace == trace && e.np == ItefError(Advance(np), Syntax).np.(fail := true)
  {
  }

  /** Out of the loop by its `break`: the stray `fi` only sets `$?`. */
  lemma {:induction false} BreakAndFi(w: World, np: Np, l: NshControl.Loop, q: Np, e: Itef, x: Np, trace: seq<Event>, budget: nat)
    returns (np': Np)
    requires AtTop(np) && l == NshControl.Loop(LoopDo, true, 0, 0) && Same(Looped(np, l), q)
    requires q.iendx + 1 < |q.ie| && OnTop(q, e, x) && e.state.ItefThen? && !e.disabled && !e.ifcond && x.filepos == 4
    ensures Same(np, np') && np'.filepos == 7
    ensures Run(CLEARED_LINES, w, true, x, trace, budget) == Run(CLEARED_LINES, w, true, np', trace, budget)
  {
    hide Run, ParseLine;
    var lines := CLEARED_LINES;
    BreakDropsFrame(x, w, trace);
    Step(lines, w, true, x, trace, budget);
    var n1 := ParseLine(x, [WBreak], w, trace).np;
    StrayFiSets(n1, w, trace);
    Step(lines, w, true, n1, trace, budget);
    var n2 := ParseLine(n1, [WFi], w, trace).np;
    DoneLine(n2, w, trace);
    Step(lines, w, true, n2, trace, budget);
    np' := ParseLine(n2, [WDone], w, trace).np;
  }

  lemma {:induction false} InBody(np: Np, l: NshControl.Loop, q: Np)
    requires AtTop(np) && l.state.LoopDo? && l.iendx == 0 && Same(Looped(np, l), q)
    ensures Idle(q) && ItefEnabled(q) && q.fd >= 0 && q.iendx == 0 && q.lpndx == 1 && |q.ie| == |np.ie| && |q.lp| == |np.lp|
    ensures CmdEnabled(q) == l.enable
    ensures forall q' :: Same(q, q') ==> Same(Looped(np, l), q')
  {
  }

  /** The loop, through all its passes: commands, order and budget are the evaluator's, `$?` may not be. */
  lemma {:induction false} LoopFollows(w: World, np: Np, trace: seq<Event>, budget: nat)
    returns (np': Np)
    requires AtTop(np) && np.filepos == 0
    ensures Sane(np)
    ensures var r := EvalStmt(LOOP, 0, false, w, true, trace, np.fail, budget);
            if r.flow.Normal? then
              Same(np, np') && Sane(np') && np'.filepos == 7 &&
              Run(CLEARED_LINES, w, true, np, trace, budget) == Run(CLEARED_LINES, w, true, np', r.trace, r.budget)
            else Run(CLEARED_LINES, w, true, np, trace, budget).out == r
    decreases budget
  {
    hide Run, EvalStmt, EvalBlock, Lines, LinesOf, Placed, Same, Looped, OnTop, AtTop, WellFormed, IfDepth, LoopDepth, NoDirectLoop, Condition;
    var lines := CLEARED_LINES;
    TopIsLive(np);
    Prints();
    Depths();
    PlainWords();
    EvalLoop(LOOP, 0, false, w, true, trace, np.fail, budget);
    var l, q := OpenLoop(lines, w, true, LOOP, np, trace, budget);
    InBody(np, l, q);
    var trace1 := trace + [Event(0, A, np.fail)];
    if w(trace1) {
      q := SkipOff(lines, w, true, Cons(INNER, Nil), q, trace1, budget);
      np' := PassDone(lines, w, true, np, l, q, trace1, budget);
      SameIsSane(np, np');
    } else {
      EvalInner(2, w, trace1, budget);
      var e, x := OpenIf(lines, w, true, INNER, q, trace1, budget);
      var trace2 := trace1 + [Event(2, B, false)];
      if w(trace2) {
        InFrame(q, e, x);
        var x1 := SkipBlock(lines, w, true, INNER.thn, x, trace2, budget);
        var q1 := PassFi(lines, w, true, q, e, x1, trace2, budget);
        np' := PassDone(lines, w, true, np, l, q1, trace2, budget);
        if budget > 0 {
          np' := LoopAgain(w, np, np', trace2, budget);
        }
      } else {
        np' := BreakAndFi(w, np, l, q, e, x, trace2, budget);
        SameIsSane(np, np');
      }
    }
  }

  lemma {:induction false} LoopAgain(w: World, np: Np, np1: Np, trace: seq<Event>, budget: nat)
    returns (np': Np)
    requires AtTop(np1) && Same(np, np1) && np1.filepos == 0 && budget > 0
    ensures Sane(np1)
    ensures var r := EvalStmt(LOOP, 0, false, w, true, trace, np1.fail, budget - 1);
            if r.flow.Normal? then
              Same(np, np') && Sane(np') && np'.filepos == 7 &&
              Run(CLEARED_LINES, w, true, np1, trace, budget - 1) == Run(CLEARED_LINES, w, true, np', r.trace, r.budget)
            else Run(CLEARED_LINES, w, true, np1, trace, budget - 1).out == r
    decreases budget, 0
  {
    hide Run, EvalStmt, AtTop;
    np' := LoopFollows(w, np1, trace, budget - 1);
  }

  /** The last `break` clears `$?`. */
  lemma {:induction false} LastBreak(w: World, np: Np, trace: seq<Event>, budget: nat)
    requires AtTop(np) && np.filepos == 7
    ensures Sane(np) && Run(CLEARED_LINES, w, true, np, trace, budget).out == Result(Normal, trace, false, budget)
  {
    hide Run, ParseLine;
    BreakLine(np, w, trace);
    Step(CLEARED_LINES, w, true, np, trace, budget);
    RunAtEnd(CLEARED_LINES, w, true, ParseLine(np, [WBreak], w, trace).np, trace, budget);
  }

  lemma {:induction false} ClearedRuns(depth: nat, w: World, fail: bool, budget: nat)
    requires depth > 1
    ensures Run(Lines(CLEARED), w, true, Start(depth, fail), [], budget).out == EvalBlock(CLEARED, 0, false, w, true, [], fail, budget)
  {
    var np := Start(depth, fail);
    assert AtTop(np) && np.filepos == 0 && np.fail == fail;
    hide Run, EvalStmt, EvalBlock, Lines, LinesOf, Same, AtTop, Start;
    Prints();
    TopIsLive(np);
    EvalCleared(w, fail, budget);
    var np' := LoopFollows(w, np, [], budget);
    var r := EvalStmt(LOOP, 0, false, w, true, [], fail, budget);
    if r.flow.Normal? {
      LastBreak(w, np', r.trace, r.budget);
    }
  }

  /** With the flag set the fragment is not necessary, with the flag clear it is: the same script agrees
      and disagrees. */
  lemma {:induction false} IgnoringYetAgrees(depth: nat)
    requires depth > 1
    ensures !Good(CLEARED, TopLevel) && Clear(CLEARED, TopLevel, false, false)
    ensures Agrees(CLEARED, depth, true) && !Agrees(CLEARED, depth, false)
  {
    ClearedIsClear();
    Depths();
    hide Run, EvalBlock, Good, Clear, Start, Lines, WellFormed, IfDepth, LoopDepth;
    ExactFragment(CLEARED, depth, false);
    forall w: World, fail: bool, budget: nat
      ensures Run(Lines(CLEARED), w, true, Start(depth, fail), [], budget).out == EvalBlock(CLEARED, 0, false, w, true, [], fail, budget)
    {
      ClearedRuns(depth, w, fail, budget);
    }
  }

  lemma {:induction false} ClearedIsClear()
    ensures !Good(CLEARED, TopLevel) && Clear(CLEARED, TopLevel, false, false)
  {
    assert !Good(INNER.thn, UnderIf) && Clear(INNER.thn, UnderIf, false, false);
    assert !GoodStmt(INNER, LoopBody) && ClearStmt(INNER, LoopBody, false, false);
    assert !Good(LOOP.body, LoopBody) && Clear(LOOP.body, LoopBody, false, false);
    assert !GoodStmt(LOOP, TopLevel) && ClearStmt(LOOP, TopLevel, false, false);
  }
}
