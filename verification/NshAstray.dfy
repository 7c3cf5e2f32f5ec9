/**
What becomes of a session that has lost an if frame, as it does when `break`
stands under an `if`. Told that every loop is to stop, the machine passes any
block, whatever its shape, and ends with the stacks it began with. It therefore
meets every later `else` and `fi` with a frame too few, and cannot reach the end
of the script without a syntax error.
*/
module NshAstray {
  import opened NshControl
  import opened NshScript
  import opened NshRefinement

  // ----- a world that steers -----

  predicate HasCondition(line: seq<Word>)
  {
    line != [] && (line[0].WIf? || line[0].WWhile? || line[0].WUntil?)
  }

  /** Commands succeed, conditions too except those of `while`; for conditions on the
      lines in `odd` it is the other way round. By default no loop is entered. */
  ghost function Steering(lines: seq<seq<Word>>, odd: set<int>): (w: World)
  {
    (trace: seq<Event>) =>
      trace != [] &&
      var p := trace[|trace| - 1].line;
      0 <= p < |lines| && HasCondition(lines[p]) && lines[p][0].WWhile? != (p in odd)
  }

  lemma {:induction false} SteeringAt(lines: seq<seq<Word>>, odd: set<int>, trace: seq<Event>, p: nat, argv: seq<Word>, fail: bool)
    requires p < |lines|
    ensures Steering(lines, odd)(trace + [Event(p, argv, fail)]) ==
            (HasCondition(lines[p]) && lines[p][0].WWhile? != (p in odd))
  {
    var t := trace + [Event(p, argv, fail)];
    assert t[|t| - 1].line == p;
  }

  /** None of the lines from `base` to `end` is in `odd`. */
  ghost predicate Default(odd: set<int>, base: nat, end: nat)
  {
    forall p :: base <= p < end ==> p !in odd
  }

  // ----- passing a block -----

  /** Between commands, and not inside a loop that is still running. */
  predicate Passing(np: Np)
  {
    Idle(np) && np.fd >= 0 && (TopLp(np).state.LoopDo? ==> !TopLp(np).enable)
  }

  lemma {:induction false} SamePassing(np: Np, q: Np)
    requires Passing(np) && Same(np, q)
    ensures Passing(q)
    ensures forall ifs: nat, loops: nat :: Fits(np, ifs, loops) ==> Fits(q, ifs, loops)
    ensures forall q' :: Same(q, q') ==> Same(np, q')
  {
  }

  /** With every loop told to stop, the machine passes any block and gives the stacks back. */
  lemma {:induction false} PassBlock(lines: seq<seq<Word>>, odd: set<int>, b: Block, np: Np, trace: seq<Event>)
    returns (np': Np, trace': seq<Event>)
    requires WellFormed(b) && Placed(lines, np.filepos, Lines(b))
    requires Passing(np) && Fits(np, IfDepth(b), LoopDepth(b))
    requires Default(odd, np.filepos, np.filepos + |Lines(b)|)
    ensures Same(np, np') && np'.filepos == np.filepos + |Lines(b)|
    ensures Run(lines, Steering(lines, odd), false, np, trace, 0) == Run(lines, Steering(lines, odd), false, np', trace', 0)
    decreases b
  {
    hide Run, Steering, WellFormed, WellFormedStmt, Lines, LinesOf, Placed, IfDepth, LoopDepth, StmtIfDepth, StmtLoopDepth, Fits, Same, Passing;
    PassingIsSane(np);
    if b.Nil? {
      SameRefl(np);
      NoLines();
      np', trace' := np, trace;
    } else {
      PartsOf(b, np);
      PlacedSplit(lines, np.filepos, LinesOf(b.head), Lines(b.tail));
      np', trace' := PassStmt(lines, odd, b.head, np, trace);
      SamePassing(np, np');
      np', trace' := PassBlock(lines, odd, b.tail, np', trace');
    }
  }

  lemma {:induction false} PassingIsSane(np: Np)
    requires Passing(np)
    ensures Sane(np) && Idle(np) && np.fd >= 0
  {
  }

  lemma {:induction false} PassStmt(lines: seq<seq<Word>>, odd: set<int>, s: Stmt, np: Np, trace: seq<Event>)
    returns (np': Np, trace': seq<Event>)
    requires WellFormedStmt(s) && Placed(lines, np.filepos, LinesOf(s))
    requires Passing(np) && Fits(np, StmtIfDepth(s), StmtLoopDepth(s))
    requires Default(odd, np.filepos, np.filepos + |LinesOf(s)|)
    ensures Same(np, np') && np'.filepos == np.filepos + |LinesOf(s)|
    ensures Run(lines, Steering(lines, odd), false, np, trace, 0) == Run(lines, Steering(lines, odd), false, np', trace', 0)
    decreases s, 1
  {
    hide Run, ParseLine, Steering, WellFormed, Lines, IfDepth, LoopDepth;
    var w := Steering(lines, odd);
    match s
    case Cmd(argv) =>
      PlacedLast(lines, np.filepos, argv);
      CommandLine(np, argv, w, trace);
      SteeringAt(lines, odd, trace, np.filepos, argv, np.fail);
      Step(lines, w, false, np, trace, 0);
      np', trace' := ParseLine(np, argv, w, trace).np, ParseLine(np, argv, w, trace).trace;
    case Break =>
      PlacedLast(lines, np.filepos, [WBreak]);
      BreakLine(np, w, trace);
      Step(lines, w, false, np, trace, 0);
      np', trace' := ParseLine(np, [WBreak], w, trace).np, trace;
    case If(_, _, _, _, _) =>
      np', trace' := PassIf(lines, odd, s, np, trace);
    case Loop(_, _, _) =>
      np', trace' := PassLoop(lines, odd, s, np, trace);
  }

  lemma {:induction false} PassingInFrame(np: Np, e: Itef, q: Np)
    requires Passing(np) && np.iendx + 1 < |np.ie|
    requires OnTop(np, e, q) && (e.state.ItefThen? || e.state.ItefElse?)
    ensures Passing(q) && q.iendx == np.iendx + 1 && q.lpndx == np.lpndx && |q.ie| == |np.ie| && |q.lp| == |np.lp|
    ensures forall q' :: Same(q, q') ==> OnTop(np, e, q')
  {
    InFrame(np, e, q);
  }

  lemma {:induction false} PassIf(lines: seq<seq<Word>>, odd: set<int>, s: Stmt, np: Np, trace: seq<Event>)
    returns (np': Np, trace': seq<Event>)
    requires s.If?
    requires WellFormedStmt(s) && Placed(lines, np.filepos, LinesOf(s))
    requires Passing(np) && Fits(np, StmtIfDepth(s), StmtLoopDepth(s))
    requires Default(odd, np.filepos, np.filepos + |LinesOf(s)|)
    ensures Same(np, np') && np'.filepos == np.filepos + |LinesOf(s)|
    ensures Run(lines, Steering(lines, odd), false, np, trace, 0) == Run(lines, Steering(lines, odd), false, np', trace', 0)
    decreases s, 0
  {
    hide Run, Steering, WellFormed, WellFormedStmt, Lines, LinesOf, Placed, IfDepth, LoopDepth, StmtIfDepth, StmtLoopDepth, Same, OnTop, Passing, CmdEnabled;
    PassingIsSane(np);
    PlacedIf(lines, s, np.filepos);
    IfParts(s, np);
    var w := Steering(lines, odd);
    var e, q := OpenIf(lines, w, false, s, np, trace, 0);
    trace' := if CmdEnabled(np) then trace + [Event(np.filepos, s.cond, np.fail)] else trace;
    PassingInFrame(np, e, q);
    q, trace' := PassBlock(lines, odd, s.thn, q, trace');
    if s.hasElse {
      q := PassElse(lines, w, false, np, e, q, trace', 0);
      e := e.(state := ItefElse);
      PassingInFrame(np, e, q);
      q, trace' := PassBlock(lines, odd, s.els, q, trace');
    }
    np' := PassFi(lines, w, false, np, e, q, trace', 0);
  }

  /** A loop that is told to stop, or that is passed over. */
  lemma {:induction false} EnterStopped(lines: seq<seq<Word>>, odd: set<int>, s: Stmt, np: Np, trace: seq<Event>)
    returns (l: NshControl.Loop, q: Np, trace': seq<Event>)
    requires s.Loop? && Condition(s.cond) && Placed(lines, np.filepos, LinesOf(s))
    requires Passing(np) && np.lpndx + 1 < |np.lp|
    requires np.filepos !in odd
    ensures l == NshControl.Loop(LoopDo, false, np.iendx, np.filepos)
    ensures Same(Looped(np, l), q) && Passing(q) && q.filepos == np.filepos + 2
    ensures Run(lines, Steering(lines, odd), false, np, trace, 0) == Run(lines, Steering(lines, odd), false, q, trace', 0)
  {
    hide Run, Steering, LinesOf, Placed;
    var w := Steering(lines, odd);
    PlacedLoop(lines, s, np.filepos);
    SteeringAt(lines, odd, trace, np.filepos, s.cond, np.fail);
    if ItefEnabled(np) {
      l, q := OpenLoop(lines, w, false, s, np, trace, 0);
      trace' := trace + [Event(np.filepos, s.cond, np.fail)];
    } else {
      l, q := SkipLoopOpens(lines, w, false, s, np, trace, 0);
      trace' := trace;
    }
  }

  lemma {:induction false} LoopParts(s: Stmt, np: Np)
    requires s.Loop? && WellFormedStmt(s) && Fits(np, StmtIfDepth(s), StmtLoopDepth(s))
    ensures Condition(s.cond) && WellFormed(s.body) && np.lpndx + 1 < |np.lp|
    ensures np.iendx + IfDepth(s.body) < |np.ie| && np.lpndx + 1 + LoopDepth(s.body) < |np.lp|
  {
  }

  lemma {:induction false} InSlot(np: Np, l: NshControl.Loop, q: Np)
    requires Sane(np) && np.lpndx + 1 < |np.lp| && l.iendx < |np.ie| && Same(Looped(np, l), q)
    ensures q.iendx == np.iendx && q.lpndx == np.lpndx + 1 && |q.ie| == |np.ie| && |q.lp| == |np.lp|
    ensures forall q' :: Same(q, q') ==> Same(Looped(np, l), q')
  {
  }

  lemma {:induction false} PassLoop(lines: seq<seq<Word>>, odd: set<int>, s: Stmt, np: Np, trace: seq<Event>)
    returns (np': Np, trace': seq<Event>)
    requires s.Loop?
    requires WellFormedStmt(s) && Placed(lines, np.filepos, LinesOf(s))
    requires Passing(np) && Fits(np, StmtIfDepth(s), StmtLoopDepth(s))
    requires Default(odd, np.filepos, np.filepos + |LinesOf(s)|)
    ensures Same(np, np') && np'.filepos == np.filepos + |LinesOf(s)|
    ensures Run(lines, Steering(lines, odd), false, np, trace, 0) == Run(lines, Steering(lines, odd), false, np', trace', 0)
    decreases s, 0
  {
    hide Run, Steering, WellFormed, WellFormedStmt, Lines, LinesOf, Placed, IfDepth, LoopDepth, StmtIfDepth, StmtLoopDepth, Same, Passing, Looped;
    PassingIsSane(np);
    PlacedLoop(lines, s, np.filepos);
    LoopParts(s, np);
    var l, q;
    l, q, trace' := EnterStopped(lines, odd, s, np, trace);
    InSlot(np, l, q);
    q, trace' := PassBlock(lines, odd, s.body, q, trace');
    np' := PassDone(lines, Steering(lines, odd), false, np, l, q, trace', 0);
  }

  // ----- a frame too few -----

  /** Slot 0 is idle and every open frame is past its condition. */
  predicate Frames(np: Np)
    requires Sane(np)
  {
    && np.ie[0].state.ItefNormal?
    && forall i :: 0 < i <= np.iendx ==> np.ie[i].state.ItefThen? || np.ie[i].state.ItefElse?
  }

  /** Where `np` should be, but with fewer frames; a loop that is still open has stopped. */
  ghost predicate Astray(np: Np, q: Np)
  {
    && Sane(np) && Passing(q) && Frames(q)
    && |q.ie| == |np.ie| && q.iendx < np.iendx && q.lpndx == np.lpndx <= 1
    && q.lp[0].state.LoopNormal? && (q.lpndx == 1 ==> TopLp(q).state.LoopDo?)
  }

  lemma {:induction false} AstraySame(np: Np, q: Np, q': Np)
    requires Astray(np, q) && Same(q, q')
    ensures Astray(np, q')
  {
  }

  lemma {:induction false} SameAstray(np: Np, np1: Np, q: Np)
    requires Astray(np1, q) && Same(np, np1)
    ensures Astray(np, q)
  {
  }

  lemma {:induction false} AstrayRoom(np: Np, q: Np, ifs: nat, loops: nat)
    requires Astray(np, q) && Fits(np, ifs, loops)
    ensures Passing(q) && Fits(q, ifs, loops)
  {
  }

  /** `break` under an `if`: the loop stops, and its ifs are forgotten. */
  lemma {:induction false} BreakDropsFrame(np: Np, w: World, trace: seq<Event>)
    requires Idle(np) && CmdEnabled(np) && TopLp(np).state.LoopDo?
    requires !np.ie[TopLp(np).iendx].state.ItefIf?
    ensures ParseLine(np, [WBreak], w, trace) ==
            Executed(SetLp(Advance(np), TopLp(np).(enable := false)).(fail := false, iendx := TopLp(np).iendx), trace, false, Ok)
  {
  }

  lemma {:induction false} BreakGoesAstray(lines: seq<seq<Word>>, w: World, np: Np, trace: seq<Event>)
    returns (q: Np)
    requires Idle(np) && CmdEnabled(np) && np.fd >= 0 && Frames(np)
    requires np.lpndx == 1 && TopLp(np).state.LoopDo? && np.lp[0].state.LoopNormal? && TopLp(np).iendx < np.iendx
    requires np.filepos < |lines| && lines[np.filepos] == [WBreak]
    ensures Astray(np, q) && q.filepos == np.filepos + 1
    ensures Run(lines, w, false, np, trace, 0) == Run(lines, w, false, q, trace, 0)
  {
    hide Run, ParseLine;
    BreakDropsFrame(np, w, trace);
    Step(lines, w, false, np, trace, 0);
    q := ParseLine(np, [WBreak], w, trace).np;
  }

  /** `else` with no `then` before it is a syntax error, and leaves no frame open. */
  lemma {:induction false} StrayElse(np: Np, w: World, trace: seq<Event>)
    requires Idle(np) && !TopIe(np).state.ItefThen?
    ensures var e := ParseLine(np, [WElse], w, trace);
            && e.trace == trace && e.error && e.verdict.Syntax?
            && e.np == ItefError(Advance(np), Syntax).np.(fail := true)
  {
  }

  lemma {:induction false} StrayFi(np: Np, w: World, trace: seq<Event>)
    requires Idle(np) && TopIe(np).state.ItefNormal?
    ensures ParseLine(np, [WFi], w, trace).error
  {
  }

  /** A later `else`: an error, or it changes a frame that is not its own. */
  lemma {:induction false} AstrayElse(lines: seq<seq<Word>>, w: World, np: Np, q: Np, trace: seq<Event>)
    returns (aborted: bool, q': Np)
    requires Astray(np, q) && q.filepos < |lines| && lines[q.filepos] == [WElse]
    ensures if aborted then Run(lines, w, false, q, trace, 0).out.flow.Aborted?
            else
              && Astray(np, q') && q'.filepos == q.filepos + 1
              && Run(lines, w, false, q, trace, 0) == Run(lines, w, false, q', trace, 0)
  {
    hide Run, ParseLine;
    Step(lines, w, false, q, trace, 0);
    aborted := !TopIe(q).state.ItefThen?;
    q' := q;
    if aborted {
      StrayElse(q, w, trace);
    } else {
      ElseLine(q, w, trace);
      q' := ParseLine(q, [WElse], w, trace).np;
    }
  }

  /** A later `fi`: an error, or it closes a frame that is not its own. */
  lemma {:induction false} AstrayFi(lines: seq<seq<Word>>, w: World, np: Np, inner: Np, q: Np, trace: seq<Event>)
    returns (aborted: bool, q': Np)
    requires Sane(np) && np.iendx + 1 == inner.iendx && np.lpndx == inner.lpndx && |np.ie| == |inner.ie|
    requires Astray(inner, q) && q.filepos < |lines| && lines[q.filepos] == [WFi]
    ensures if aborted then Run(lines, w, false, q, trace, 0).out.flow.Aborted?
            else
              && Astray(np, q') && q'.filepos == q.filepos + 1
              && Run(lines, w, false, q, trace, 0) == Run(lines, w, false, q', trace, 0)
  {
    hide Run, ParseLine;
    Step(lines, w, false, q, trace, 0);
    aborted := q.iendx == 0;
    q' := q;
    if aborted {
      StrayFi(q, w, trace);
    } else {
      FiLine(q, w, trace);
      q' := ParseLine(q, [WFi], w, trace).np;
    }
  }

  /** The end of the loop that was left by `break`. */
  lemma {:induction false} AstrayDone(lines: seq<seq<Word>>, w: World, np: Np, inner: Np, q: Np, trace: seq<Event>)
    returns (q': Np)
    requires Sane(np) && np.lpndx == 0 && inner.lpndx == 1 && inner.iendx == np.iendx && |np.ie| == |inner.ie|
    requires Astray(inner, q) && q.filepos < |lines| && lines[q.filepos] == [WDone]
    ensures Astray(np, q') && q'.filepos == q.filepos + 1
    ensures Run(lines, w, false, q, trace, 0) == Run(lines, w, false, q', trace, 0)
  {
    hide Run, ParseLine;
    Step(lines, w, false, q, trace, 0);
    DoneLine(q, w, trace);
    q' := ParseLine(q, [WDone], w, trace).np;
  }
}
