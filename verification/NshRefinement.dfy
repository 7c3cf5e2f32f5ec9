/**
The machine and the evaluator agree: the simulation proof, block by block.
*/
module NshRefinement {
  import opened NshControl
  import opened NshScript

  // ----- where a block stands in the script -----

  ghost predicate Placed(lines: seq<seq<Word>>, base: nat, piece: seq<seq<Word>>)
  {
    base + |piece| <= |lines| && lines[base..base + |piece|] == piece
  }

  lemma {:induction false} PlacedSplit(lines: seq<seq<Word>>, base: nat, a: seq<seq<Word>>, b: seq<seq<Word>>)
    requires Placed(lines, base, a + b)
    ensures Placed(lines, base, a)
    ensures Placed(lines, base + |a|, b)
  {
    assert lines[base..base + |a|] == (a + b)[..|a|];
    assert lines[base + |a|..base + |a| + |b|] == (a + b)[|a|..];
  }

  lemma {:induction false} PlacedHead(lines: seq<seq<Word>>, base: nat, line: seq<Word>, b: seq<seq<Word>>)
    requires Placed(lines, base, [line] + b)
    ensures base < |lines| && lines[base] == line
    ensures Placed(lines, base + 1, b)
  {
    PlacedSplit(lines, base, [line], b);
    assert lines[base..base + 1][0] == line;
  }

  lemma {:induction false} PlacedEnds(lines: seq<seq<Word>>, base: nat, block: seq<seq<Word>>)
    requires Placed(lines, base, block)
    ensures base + |block| <= |lines|
  {
  }

  lemma {:induction false} PlacedLast(lines: seq<seq<Word>>, base: nat, line: seq<Word>)
    requires Placed(lines, base, [line])
    ensures base < |lines| && lines[base] == line
  {
    assert lines[base..base + 1][0] == line;
  }

  // ----- the fragment -----

  /** What encloses a block: no loop; a loop body with no `if` between; an `if` inside a loop. */
  datatype Context = TopLevel | LoopBody | UnderIf

  function InsideIf(ctx: Context): Context
  {
    if ctx.TopLevel? then TopLevel else UnderIf
  }

  predicate NoDirectLoop(b: Block)
  {
    b.Cons? ==> !b.head.Loop? && NoDirectLoop(b.tail)
  }

  /** No loop stands directly in a loop body and no `break` stands under an `if` of a loop body.
      What follows a `break` in a loop body is never run, so there only the loops matter. */
  predicate Good(b: Block, ctx: Context)
  {
    match b
    case Nil => true
    case Cons(s, rest) =>
      && GoodStmt(s, ctx)
      && (if s.Break? && ctx.LoopBody? then NoDirectLoop(rest) else Good(rest, ctx))
  }

  predicate GoodStmt(s: Stmt, ctx: Context)
  {
    match s
    case Cmd(_) => true
    case Break => !ctx.UnderIf?
    case If(_, _, thn, _, els) => Good(thn, InsideIf(ctx)) && Good(els, InsideIf(ctx))
    case Loop(_, _, body) => !ctx.LoopBody? && Good(body, LoopBody)
  }

  // ----- states -----

  /** The same stacks up to their tops; slots above a top are scratch. */
  ghost predicate Same(a: Np, b: Np)
  {
    && Sane(a) && Sane(b)
    && |a.ie| == |b.ie|
    && a.iendx == b.iendx && a.lpndx == b.lpndx && a.fd == b.fd
    && (forall i :: 0 <= i <= a.iendx ==> a.ie[i] == b.ie[i])
    && (forall i :: 0 <= i <= a.lpndx ==> a.lp[i] == b.lp[i])
  }

  /** The same stacks, but the innermost loop has been switched off by `break`. */
  ghost predicate SwitchedOff(a: Np, b: Np)
  {
    Sane(a) && Same(SetLp(a, TopLp(a).(enable := false)), b)
  }

  /** Room on both stacks for the block. */
  predicate Fits(np: Np, ifs: nat, loops: nat)
  {
    np.iendx + ifs < |np.ie| && np.lpndx + loops < |np.lp|
  }

  /** `np` is about to run, not skip, a block in context `ctx`. */
  predicate Live(np: Np, ctx: Context)
  {
    && Idle(np) && CmdEnabled(np) && np.fd >= 0
    && match ctx
       case TopLevel => np.lpndx == 0 && TopLp(np).state.LoopNormal?
       case LoopBody => TopLp(np).state.LoopDo? && TopLp(np).iendx == np.iendx
       case UnderIf => TopLp(np).state.LoopDo?
  }

  /** One line of the machine. */
  lemma {:induction false} Step(lines: seq<seq<Word>>, w: World, ignore: bool, np: Np, trace: seq<Event>, budget: nat)
    requires Sane(np) && np.filepos < |lines|
    ensures var e := ParseLine(np, lines[np.filepos], w, trace);
            Run(lines, w, ignore, np, trace, budget) ==
            if e.error && !ignore then Ended(Result(Aborted, e.trace, e.np.fail, budget), e.np)
            else if e.np.filepos > np.filepos then Run(lines, w, ignore, e.np, e.trace, budget)
            else if budget == 0 then Ended(Result(Spent, e.trace, e.np.fail, 0), e.np)
            else Run(lines, w, ignore, e.np, e.trace, budget - 1)
  {
    hide ParseLine;
  }

  // ----- the keyword lines of an `if` -----

  /** `q` is `np` with the if frame `e` on top. */
  ghost predicate OnTop(np: Np, e: Itef, q: Np)
    requires Sane(np) && np.iendx + 1 < |np.ie|
  {
    Same(Framed(np, e), q)
  }

  lemma {:induction false} OpenIf(lines: seq<seq<Word>>, w: World, ignore: bool, s: Stmt, np: Np, trace: seq<Event>, budget: nat)
    returns (e: Itef, np': Np)
    requires s.If? && Condition(s.cond) && Placed(lines, np.filepos, LinesOf(s))
    requires Idle(np) && np.iendx + 1 < |np.ie|
    ensures e.state.ItefThen? && e.disabled == !CmdEnabled(np)
    ensures OnTop(np, e, np') && np'.filepos == np.filepos + 2
    ensures var trace1 := trace + [Event(np.filepos, s.cond, np.fail)];
            if CmdEnabled(np) then
              && np'.fail == false && e.ifcond == (s.inverted != w(trace1))
              && Run(lines, w, ignore, np, trace, budget) == Run(lines, w, ignore, np', trace1, budget)
            else
              && np'.fail == np.fail
              && Run(lines, w, ignore, np, trace, budget) == Run(lines, w, ignore, np', trace, budget)
  {
    hide Run, ParseLine, LinesOf, Lines, Placed, IfLine, LoopEnabled, ItefEnabled;
    PlacedIf(lines, s, np.filepos);
    IfLineStep(np, s.inverted, s.cond, w, trace);
    Step(lines, w, ignore, np, trace, budget);
    var p := ParseLine(np, IfLine(s.inverted, s.cond), w, trace);
    ThenLine(p.np, w, p.trace);
    Step(lines, w, ignore, p.np, p.trace, budget);
    e := TopIe(p.np).(state := ItefThen);
    np' := SetIe(Advance(p.np), e);
  }

  lemma {:induction false} PassElse(lines: seq<seq<Word>>, w: World, ignore: bool, np: Np, e: Itef, q: Np, trace: seq<Event>, budget: nat)
    returns (q': Np)
    requires Idle(np) && np.iendx + 1 < |np.ie|
    requires OnTop(np, e, q) && e.state.ItefThen?
    requires q.filepos < |lines| && lines[q.filepos] == [WElse]
    ensures OnTop(np, e.(state := ItefElse), q') && q'.fail == q.fail && q'.filepos == q.filepos + 1
    ensures Run(lines, w, ignore, q, trace, budget) == Run(lines, w, ignore, q', trace, budget)
  {
    hide Run, ParseLine;
    ElseLine(q, w, trace);
    Step(lines, w, ignore, q, trace, budget);
    q' := SetIe(Advance(q), TopIe(q).(state := ItefElse));
  }

  lemma {:induction false} PassFi(lines: seq<seq<Word>>, w: World, ignore: bool, np: Np, e: Itef, q: Np, trace: seq<Event>, budget: nat)
    returns (q': Np)
    requires Idle(np) && np.iendx + 1 < |np.ie|
    requires OnTop(np, e, q) && (e.state.ItefThen? || e.state.ItefElse?)
    requires q.filepos < |lines| && lines[q.filepos] == [WFi]
    ensures Same(np, q') && q'.fail == q.fail && q'.filepos == q.filepos + 1
    ensures Run(lines, w, ignore, q, trace, budget) == Run(lines, w, ignore, q', trace, budget)
  {
    hide Run, ParseLine;
    FiLine(q, w, trace);
    Step(lines, w, ignore, q, trace, budget);
    q' := Advance(q).(iendx := q.iendx - 1);
  }

  /** What a block inside the frame needs to know about it. */
  lemma {:induction false} InFrame(np: Np, e: Itef, q: Np)
    requires Idle(np) && np.iendx + 1 < |np.ie|
    requires OnTop(np, e, q) && (e.state.ItefThen? || e.state.ItefElse?)
    ensures Idle(q) && q.iendx == np.iendx + 1 && q.lpndx == np.lpndx && q.fd == np.fd && |q.ie| == |np.ie|
    ensures LoopEnabled(q) == LoopEnabled(np) && TopLp(q) == TopLp(np)
    ensures ItefEnabled(q) == (!e.disabled && (if e.state.ItefThen? then !e.ifcond else e.ifcond))
    ensures forall q' :: Same(q, q') ==> OnTop(np, e, q')
  {
  }

  // ----- skipping -----

  /** In an untaken branch a block of any shape runs nothing, asks for no jump,
      leaves `$?` alone and restores both stacks. */
  lemma {:induction false} SkipBlock(lines: seq<seq<Word>>, w: World, ignore: bool, b: Block, np: Np, trace: seq<Event>, budget: nat)
    returns (np': Np)
    requires WellFormed(b) && Placed(lines, np.filepos, Lines(b))
    requires Idle(np) && !ItefEnabled(np) && np.fd >= 0
    requires Fits(np, IfDepth(b), LoopDepth(b))
    ensures Same(np, np') && np'.fail == np.fail
    ensures np'.filepos == np.filepos + |Lines(b)|
    ensures Run(lines, w, ignore, np, trace, budget) == Run(lines, w, ignore, np', trace, budget)
    decreases b
  {
    hide Run, ParseLine;
    if b.Nil? {
      np' := np;
    } else {
      PlacedSplit(lines, np.filepos, LinesOf(b.head), Lines(b.tail));
      var np1 := SkipStmt(lines, w, ignore, b.head, np, trace, budget);
      np' := SkipBlock(lines, w, ignore, b.tail, np1, trace, budget);
    }
  }

  lemma {:induction false} SkipStmt(lines: seq<seq<Word>>, w: World, ignore: bool, s: Stmt, np: Np, trace: seq<Event>, budget: nat)
    returns (np': Np)
    requires WellFormedStmt(s) && Placed(lines, np.filepos, LinesOf(s))
    requires Idle(np) && !ItefEnabled(np) && np.fd >= 0
    requires Fits(np, StmtIfDepth(s), StmtLoopDepth(s))
    ensures Same(np, np') && np'.fail == np.fail
    ensures np'.filepos == np.filepos + |LinesOf(s)|
    ensures Run(lines, w, ignore, np, trace, budget) == Run(lines, w, ignore, np', trace, budget)
    decreases s, 1
  {
    hide Run, ParseLine, Lines, WellFormed, IfDepth, LoopDepth, Placed, Same;
    match s
    case Cmd(argv) =>
      np' := SkipLine(lines, w, ignore, s, np, trace, budget);
    case Break =>
      np' := SkipLine(lines, w, ignore, s, np, trace, budget);
    case If(_, _, _, _, _) =>
      np' := SkipIf(lines, w, ignore, s, np, trace, budget);
    case Loop(_, _, _) =>
      np' := SkipLoop(lines, w, ignore, s, np, trace, budget);
  }

  /** A command or a `break` that is passed over. */
  lemma {:induction false} SkipLine(lines: seq<seq<Word>>, w: World, ignore: bool, s: Stmt, np: Np, trace: seq<Event>, budget: nat)
    returns (np': Np)
    requires (s.Cmd? || s.Break?) && WellFormedStmt(s) && Placed(lines, np.filepos, LinesOf(s))
    requires Idle(np) && !CmdEnabled(np)
    ensures Same(np, np') && np'.fail == np.fail
    ensures np'.filepos == np.filepos + |LinesOf(s)|
    ensures Run(lines, w, ignore, np, trace, budget) == Run(lines, w, ignore, np', trace, budget)
  {
    hide Run, ParseLine, LoopEnabled, ItefEnabled;
    var line := if s.Cmd? then s.argv else [WBreak];
    PlacedLast(lines, np.filepos, line);
    if s.Cmd? {
      CommandLine(np, line, w, trace);
    } else {
      BreakLine(np, w, trace);
    }
    Step(lines, w, ignore, np, trace, budget);
    np' := Advance(np);
  }

  /** The body of a loop that is passed over, and its slot. */
  lemma {:induction false} SkipLoopOpens(lines: seq<seq<Word>>, w: World, ignore: bool, s: Stmt, np: Np, trace: seq<Event>, budget: nat)
    returns (l: NshControl.Loop, q: Np)
    requires s.Loop? && Condition(s.cond) && Placed(lines, np.filepos, LinesOf(s))
    requires Idle(np) && !ItefEnabled(np) && np.lpndx + 1 < |np.lp| && np.fd >= 0
    ensures l == NshControl.Loop(LoopDo, false, np.iendx, np.filepos)
    ensures Same(Looped(np, l), q) && q.fail == np.fail && q.filepos == np.filepos + 2
    ensures Run(lines, w, ignore, np, trace, budget) == Run(lines, w, ignore, q, trace, budget)
  {
    hide Run, ParseLine;
    PlacedLoop(lines, s, np.filepos);
    LoopLineStep(np, s.until, s.cond, w, trace);
    Step(lines, w, ignore, np, trace, budget);
    var np1 := Looped(Advance(np), NshControl.Loop(LoopKind(s.until), false, np.iendx, np.filepos));
    DoLine(np1, w, trace);
    Step(lines, w, ignore, np1, trace, budget);
    l := TopLp(np1).(state := LoopDo);
    q := SetLp(Advance(np1), l);
  }

  lemma {:induction false} SkipLoop(lines: seq<seq<Word>>, w: World, ignore: bool, s: Stmt, np: Np, trace: seq<Event>, budget: nat)
    returns (np': Np)
    requires s.Loop?
    requires WellFormedStmt(s) && Placed(lines, np.filepos, LinesOf(s))
    requires Idle(np) && !ItefEnabled(np) && np.fd >= 0
    requires Fits(np, StmtIfDepth(s), StmtLoopDepth(s))
    ensures Same(np, np') && np'.fail == np.fail
    ensures np'.filepos == np.filepos + |LinesOf(s)|
    ensures Run(lines, w, ignore, np, trace, budget) == Run(lines, w, ignore, np', trace, budget)
    decreases s, 0
  {
    hide Run, ParseLine;
    PlacedLoop(lines, s, np.filepos);
    var l, q := SkipLoopOpens(lines, w, ignore, s, np, trace, budget);
    q := SkipBlock(lines, w, ignore, s.body, q, trace, budget);
    np' := PassDone(lines, w, ignore, np, l, q, trace, budget);
  }

  lemma {:induction false} SkipIf(lines: seq<seq<Word>>, w: World, ignore: bool, s: Stmt, np: Np, trace: seq<Event>, budget: nat)
    returns (np': Np)
    requires s.If?
    requires WellFormedStmt(s) && Placed(lines, np.filepos, LinesOf(s))
    requires Idle(np) && !CmdEnabled(np) && np.fd >= 0
    requires Fits(np, StmtIfDepth(s), StmtLoopDepth(s))
    ensures Same(np, np') && np'.fail == np.fail
    ensures np'.filepos == np.filepos + |LinesOf(s)|
    ensures Run(lines, w, ignore, np, trace, budget) == Run(lines, w, ignore, np', trace, budget)
    decreases s, 0
  {
    hide Run, ParseLine, WellFormed, WellFormedStmt, Lines, LinesOf, IfDepth, LoopDepth, StmtIfDepth, StmtLoopDepth, Placed;
    PlacedIf(lines, s, np.filepos);
    IfParts(s, np);
    var e, q := OpenIf(lines, w, ignore, s, np, trace, budget);
    InFrame(np, e, q);
    q := SkipBlock(lines, w, ignore, s.thn, q, trace, budget);
    if s.hasElse {
      q := PassElse(lines, w, ignore, np, e, q, trace, budget);
      e := e.(state := ItefElse);
      InFrame(np, e, q);
      q := SkipBlock(lines, w, ignore, s.els, q, trace, budget);
    }
    np' := PassFi(lines, w, ignore, np, e, q, trace, budget);
  }

  /** What a branch needs of the tree and of the stacks. */
  lemma {:induction false} IfParts(s: Stmt, np: Np)
    requires s.If? && WellFormedStmt(s) && Fits(np, StmtIfDepth(s), StmtLoopDepth(s))
    ensures np.iendx + 1 < |np.ie| && Condition(s.cond) && WellFormed(s.thn) && WellFormed(s.els)
    ensures np.iendx + 1 + IfDepth(s.thn) < |np.ie| && np.lpndx + LoopDepth(s.thn) < |np.lp|
    ensures np.iendx + 1 + IfDepth(s.els) < |np.ie| && np.lpndx + LoopDepth(s.els) < |np.lp|
  {
  }

  /** The line of `else`, or of `fi` when there is no `else`. */
  function ElseAt(s: Stmt, base: nat): nat
    requires s.If?
  {
    base + 2 + |Lines(s.thn)|
  }

  function IfTail(s: Stmt): seq<seq<Word>>
    requires s.If?
  {
    if s.hasElse then [[WElse]] + (Lines(s.els) + [[WFi]]) else [[WFi]]
  }

  lemma {:induction false} IfLinesShape(s: Stmt)
    requires s.If?
    ensures LinesOf(s) == [IfLine(s.inverted, s.cond)] + ([[WThen]] + (Lines(s.thn) + IfTail(s)))
  {
  }

  lemma {:induction false} LoopLinesShape(s: Stmt)
    requires s.Loop?
    ensures LinesOf(s) == [LoopLine(s.until, s.cond)] + ([[WDo]] + (Lines(s.body) + [[WDone]]))
  {
  }

  lemma {:induction false} PlacedIf(lines: seq<seq<Word>>, s: Stmt, base: nat)
    requires s.If? && Placed(lines, base, LinesOf(s))
    ensures base + |LinesOf(s)| <= |lines|
    ensures lines[base] == IfLine(s.inverted, s.cond)
    ensures lines[base + 1] == [WThen]
    ensures Placed(lines, base + 2, Lines(s.thn))
    ensures s.hasElse ==>
              && |LinesOf(s)| == 4 + |Lines(s.thn)| + |Lines(s.els)|
              && lines[ElseAt(s, base)] == [WElse]
              && Placed(lines, ElseAt(s, base) + 1, Lines(s.els))
              && lines[ElseAt(s, base) + 1 + |Lines(s.els)|] == [WFi]
    ensures !s.hasElse ==> |LinesOf(s)| == 3 + |Lines(s.thn)| && lines[ElseAt(s, base)] == [WFi]
  {
    hide LinesOf, Lines, IfLine, Placed;
    var tail := IfTail(s);
    IfLinesShape(s);
    PlacedEnds(lines, base, LinesOf(s));
    PlacedHead(lines, base, IfLine(s.inverted, s.cond), [[WThen]] + (Lines(s.thn) + tail));
    PlacedHead(lines, base + 1, [WThen], Lines(s.thn) + tail);
    PlacedSplit(lines, base + 2, Lines(s.thn), tail);
    if s.hasElse {
      PlacedHead(lines, ElseAt(s, base), [WElse], Lines(s.els) + [[WFi]]);
      PlacedSplit(lines, ElseAt(s, base) + 1, Lines(s.els), [[WFi]]);
      PlacedLast(lines, ElseAt(s, base) + 1 + |Lines(s.els)|, [WFi]);
    } else {
      PlacedLast(lines, ElseAt(s, base), [WFi]);
    }
  }

  lemma {:induction false} PlacedLoop(lines: seq<seq<Word>>, s: Stmt, base: nat)
    requires s.Loop? && Placed(lines, base, LinesOf(s))
    ensures |LinesOf(s)| == 3 + |Lines(s.body)|
    ensures base + |LinesOf(s)| <= |lines|
    ensures lines[base] == LoopLine(s.until, s.cond)
    ensures lines[base + 1] == [WDo]
    ensures Placed(lines, base + 2, Lines(s.body))
    ensures lines[base + 2 + |Lines(s.body)|] == [WDone]
  {
    hide LinesOf, Lines, LoopLine, Placed;
    LoopLinesShape(s);
    PlacedEnds(lines, base, LinesOf(s));
    PlacedHead(lines, base, LoopLine(s.until, s.cond), [[WDo]] + (Lines(s.body) + [[WDone]]));
    PlacedHead(lines, base + 1, [WDo], Lines(s.body) + [[WDone]]);
    PlacedSplit(lines, base + 2, Lines(s.body), [[WDone]]);
    PlacedLast(lines, base + 2 + |Lines(s.body)|, [WDone]);
  }

  /** In a loop body that is switched off, a block without direct loops runs nothing. */
  lemma {:induction false} SkipOff(lines: seq<seq<Word>>, w: World, ignore: bool, b: Block, np: Np, trace: seq<Event>, budget: nat)
    returns (np': Np)
    requires WellFormed(b) && Placed(lines, np.filepos, Lines(b))
    requires NoDirectLoop(b)
    requires Idle(np) && !CmdEnabled(np) && np.fd >= 0
    requires Fits(np, IfDepth(b), LoopDepth(b))
    ensures Same(np, np') && np'.fail == np.fail
    ensures np'.filepos == np.filepos + |Lines(b)|
    ensures Run(lines, w, ignore, np, trace, budget) == Run(lines, w, ignore, np', trace, budget)
    decreases b
  {
    hide Run, ParseLine, WellFormed, Lines, LinesOf, IfDepth, LoopDepth, StmtIfDepth, StmtLoopDepth, WellFormedStmt, Placed, Same, Fits, ItefEnabled, LoopEnabled;
    if b.Nil? {
      np' := np;
      SameRefl(np);
      NoLines();
    } else {
      PartsOf(b, np);
      PlacedSplit(lines, np.filepos, LinesOf(b.head), Lines(b.tail));
      var np1;
      if b.head.If? {
        np1 := SkipIf(lines, w, ignore, b.head, np, trace, budget);
      } else {
        np1 := SkipLine(lines, w, ignore, b.head, np, trace, budget);
      }
      StillOff(np, np1);
      np' := SkipOff(lines, w, ignore, b.tail, np1, trace, budget);
    }
  }

  lemma {:induction false} StillOff(np: Np, q: Np)
    requires Idle(np) && Same(np, q)
    ensures Idle(q) && CmdEnabled(q) == CmdEnabled(np) && q.fd == np.fd
    ensures forall ifs: nat, loops: nat :: Fits(np, ifs, loops) ==> Fits(q, ifs, loops)
    ensures forall q' :: Same(q, q') ==> Same(np, q')
  {
  }

  lemma {:induction false} PartsOf(b: Block, np: Np)
    requires b.Cons? && WellFormed(b) && Fits(np, IfDepth(b), LoopDepth(b))
    ensures WellFormedStmt(b.head) && WellFormed(b.tail)
    ensures Fits(np, StmtIfDepth(b.head), StmtLoopDepth(b.head)) && Fits(np, IfDepth(b.tail), LoopDepth(b.tail))
    ensures Lines(b) == LinesOf(b.head) + Lines(b.tail)
  {
  }

  lemma {:induction false} GoodBodyHasNoLoop(b: Block)
    requires Good(b, LoopBody)
    ensures NoDirectLoop(b)
  {
    if b.Cons? && !b.head.Break? {
      GoodBodyHasNoLoop(b.tail);
    }
  }

  // ----- running -----

  lemma {:induction false} SameKeeps(np: Np, q: Np, ctx: Context)
    requires Same(np, q)
    ensures Live(np, ctx) ==> Live(q, ctx)
    ensures forall ifs: nat, loops: nat :: Fits(np, ifs, loops) ==> Fits(q, ifs, loops)
    ensures forall q' :: Same(q, q') ==> Same(np, q')
    ensures forall q' :: SwitchedOff(q, q') ==> SwitchedOff(np, q')
  {
  }

  lemma {:induction false} OffKeeps(np: Np, q: Np)
    requires Live(np, LoopBody) && SwitchedOff(np, q)
    ensures Idle(q) && !CmdEnabled(q) && q.fd >= 0
    ensures forall ifs: nat, loops: nat :: Fits(np, ifs, loops) ==> Fits(q, ifs, loops)
    ensures forall q' :: Same(q, q') ==> SwitchedOff(np, q')
  {
  }

  /** The machine at `np` goes on from `np'` with what the evaluator's result `r` says. */
  ghost predicate Follows(lines: seq<seq<Word>>, w: World, ignore: bool, np: Np, trace: seq<Event>, budget: nat,
                          r: Result, np': Np, end: nat)
    requires Sane(np)
  {
    if r.flow.Normal? || r.flow.Broke? then
      && (if r.flow.Normal? then Same(np, np') else SwitchedOff(np, np'))
      && np'.fail == r.fail && np'.filepos == end
      && Run(lines, w, ignore, np, trace, budget) == Run(lines, w, ignore, np', r.trace, r.budget)
    else
      Run(lines, w, ignore, np, trace, budget).out == r
  }

  lemma {:induction false} SimBlock(lines: seq<seq<Word>>, w: World, ignore: bool, b: Block, ctx: Context, np: Np, trace: seq<Event>, budget: nat)
    returns (np': Np)
    requires WellFormed(b) && Placed(lines, np.filepos, Lines(b))
    requires Good(b, ctx) && Live(np, ctx)
    requires Fits(np, IfDepth(b), LoopDepth(b))
    ensures var r := EvalBlock(b, np.filepos, !ctx.TopLevel?, w, ignore, trace, np.fail, budget);
            && Follows(lines, w, ignore, np, trace, budget, r, np', np.filepos + |Lines(b)|)
            && (r.flow.Broke? ==> ctx.LoopBody?)
    decreases budget, b, 1
  {
    hide Run, ParseLine, EvalStmt, EvalBlock, Lines, LinesOf, Placed, Live, Same, SwitchedOff, Fits,
      WellFormed, WellFormedStmt, Good, GoodStmt, IfDepth, LoopDepth, StmtIfDepth, StmtLoopDepth;
    if b.Nil? {
      np' := np;
      LiveIsSane(np, ctx);
      SameRefl(np);
      EvalNil(np.filepos, !ctx.TopLevel?, w, ignore, trace, np.fail, budget);
    } else {
      BlockParts(b, ctx, np);
      EvalCons(b, np.filepos, !ctx.TopLevel?, w, ignore, trace, np.fail, budget);
      PlacedSplit(lines, np.filepos, LinesOf(b.head), Lines(b.tail));
      var r1 := EvalStmt(b.head, np.filepos, !ctx.TopLevel?, w, ignore, trace, np.fail, budget);
      var np1 := SimStmt(lines, w, ignore, b.head, ctx, np, trace, budget);
      if r1.flow.Normal? {
        SameKeeps(np, np1, ctx);
        BreakIsNotNormal(b.head, ctx, np.filepos, w, ignore, trace, np.fail, budget);
        np' := SimBlock(lines, w, ignore, b.tail, ctx, np1, r1.trace, r1.budget);
      } else if r1.flow.Broke? {
        OffKeeps(np, np1);
        np' := SkipOff(lines, w, ignore, b.tail, np1, r1.trace, r1.budget);
      } else {
        np' := np1;
      }
    }
  }

  /** A block is its first statement and the others. */
  lemma {:induction false} BlockParts(b: Block, ctx: Context, np: Np)
    requires b.Cons? && WellFormed(b) && Good(b, ctx) && Fits(np, IfDepth(b), LoopDepth(b))
    ensures WellFormedStmt(b.head) && WellFormed(b.tail)
    ensures GoodStmt(b.head, ctx)
    ensures if b.head.Break? && ctx.LoopBody? then NoDirectLoop(b.tail) else Good(b.tail, ctx)
    ensures Fits(np, StmtIfDepth(b.head), StmtLoopDepth(b.head)) && Fits(np, IfDepth(b.tail), LoopDepth(b.tail))
    ensures Lines(b) == LinesOf(b.head) + Lines(b.tail)
  {
  }

  lemma {:induction false} EvalNil(base: nat, inLoop: bool, w: World, ignore: bool, trace: seq<Event>, fail: bool, budget: nat)
    ensures EvalBlock(Nil, base, inLoop, w, ignore, trace, fail, budget) == Result(Normal, trace, fail, budget)
    ensures Lines(Nil) == []
  {
  }

  lemma {:induction false} EvalCons(b: Block, base: nat, inLoop: bool, w: World, ignore: bool, trace: seq<Event>, fail: bool, budget: nat)
    requires b.Cons?
    ensures var r := EvalStmt(b.head, base, inLoop, w, ignore, trace, fail, budget);
            EvalBlock(b, base, inLoop, w, ignore, trace, fail, budget) ==
            if !r.flow.Normal? then r
            else EvalBlock(b.tail, base + |LinesOf(b.head)|, inLoop, w, ignore, r.trace, r.fail, r.budget)
  {
    hide EvalStmt, LinesOf;
  }

  lemma {:induction false} SameRefl(np: Np)
    requires Sane(np)
    ensures Same(np, np)
  {
  }

  lemma {:induction false} LiveIsSane(np: Np, ctx: Context)
    requires Live(np, ctx)
    ensures Sane(np)
  {
  }

  lemma {:induction false} NoLines()
    ensures Lines(Nil) == []
  {
  }

  lemma {:induction false} BreakIsNotNormal(s: Stmt, ctx: Context, base: nat, w: World, ignore: bool, trace: seq<Event>, fail: bool, budget: nat)
    requires EvalStmt(s, base, !ctx.TopLevel?, w, ignore, trace, fail, budget).flow.Normal?
    ensures !(s.Break? && ctx.LoopBody?)
  {
  }

  lemma {:induction false} SimCommand(lines: seq<seq<Word>>, w: World, ignore: bool, argv: seq<Word>, ctx: Context, np: Np, trace: seq<Event>, budget: nat)
    returns (np': Np)
    requires PlainCommand(argv) && Placed(lines, np.filepos, LinesOf(Cmd(argv))) && Live(np, ctx)
    ensures Sane(np)
    ensures var r := EvalStmt(Cmd(argv), np.filepos, !ctx.TopLevel?, w, ignore, trace, np.fail, budget);
            !r.flow.Broke? && Follows(lines, w, ignore, np, trace, budget, r, np', np.filepos + |LinesOf(Cmd(argv))|)
  {
    hide Run, ParseLine, PlainCommand, LoopEnabled, ItefEnabled;
    PlacedLast(lines, np.filepos, argv);
    CommandLine(np, argv, w, trace);
    Step(lines, w, ignore, np, trace, budget);
    np' := ParseLine(np, argv, w, trace).np;
  }

  lemma {:induction false} SimBreak(lines: seq<seq<Word>>, w: World, ignore: bool, ctx: Context, np: Np, trace: seq<Event>, budget: nat)
    returns (np': Np)
    requires !ctx.UnderIf? && Placed(lines, np.filepos, LinesOf(Stmt.Break)) && Live(np, ctx)
    ensures Sane(np)
    ensures var r := EvalStmt(Stmt.Break, np.filepos, !ctx.TopLevel?, w, ignore, trace, np.fail, budget);
            && Follows(lines, w, ignore, np, trace, budget, r, np', np.filepos + |LinesOf(Stmt.Break)|)
            && (r.flow.Broke? ==> ctx.LoopBody?)
  {
    hide Run, ParseLine;
    PlacedLast(lines, np.filepos, [WBreak]);
    BreakLine(np, w, trace);
    Step(lines, w, ignore, np, trace, budget);
    np' := ParseLine(np, [WBreak], w, trace).np;
  }

  lemma {:induction false} SimStmt(lines: seq<seq<Word>>, w: World, ignore: bool, s: Stmt, ctx: Context, np: Np, trace: seq<Event>, budget: nat)
    returns (np': Np)
    requires WellFormedStmt(s) && Placed(lines, np.filepos, LinesOf(s))
    requires GoodStmt(s, ctx) && Live(np, ctx)
    requires Fits(np, StmtIfDepth(s), StmtLoopDepth(s))
    ensures var r := EvalStmt(s, np.filepos, !ctx.TopLevel?, w, ignore, trace, np.fail, budget);
            && Follows(lines, w, ignore, np, trace, budget, r, np', np.filepos + |LinesOf(s)|)
            && (r.flow.Broke? ==> ctx.LoopBody? && s.Break?)
    decreases budget, s, 1
  {
    hide Run, ParseLine, EvalBlock, EvalStmt, Good, IfDepth, LoopDepth, Lines, LinesOf, Placed, Same, SwitchedOff, Live, Fits;
    match s
    case Cmd(argv) =>
      np' := SimCommand(lines, w, ignore, argv, ctx, np, trace, budget);
    case Break =>
      np' := SimBreak(lines, w, ignore, ctx, np, trace, budget);
    case If(_, _, _, _, _) =>
      np' := SimIf(lines, w, ignore, s, ctx, np, trace, budget);
    case Loop(_, _, _) =>
      np' := SimLoop(lines, w, ignore, s, ctx, np, trace, budget);
  }

  /** What the branches of an `if` inherit. */
  lemma {:induction false} Branches(s: Stmt, ctx: Context, np: Np, e: Itef, q: Np)
    requires s.If?
    requires WellFormedStmt(s) && Live(np, ctx)
    requires Fits(np, StmtIfDepth(s), StmtLoopDepth(s))
    requires OnTop(np, e, q) && (e.state.ItefThen? || e.state.ItefElse?) && !e.disabled
    ensures np.iendx + 1 < |np.ie|
    ensures Condition(s.cond) && WellFormed(s.thn) && WellFormed(s.els) && (s.hasElse || s.els.Nil?)
    ensures Fits(q, IfDepth(s.thn), LoopDepth(s.thn)) && Fits(q, IfDepth(s.els), LoopDepth(s.els))
    ensures Idle(q) && q.fd >= 0
    ensures if e.state.ItefThen? == e.ifcond then !ItefEnabled(q) else Live(q, InsideIf(ctx))
    ensures forall q' :: Same(q, q') ==> OnTop(np, e, q')
  {
    InFrame(np, e, q);
  }

  lemma {:induction false} SimIf(lines: seq<seq<Word>>, w: World, ignore: bool, s: Stmt, ctx: Context, np: Np, trace: seq<Event>, budget: nat)
    returns (np': Np)
    requires s.If?
    requires WellFormedStmt(s) && Placed(lines, np.filepos, LinesOf(s))
    requires GoodStmt(s, ctx) && Live(np, ctx)
    requires Fits(np, StmtIfDepth(s), StmtLoopDepth(s))
    ensures var r := EvalStmt(s, np.filepos, !ctx.TopLevel?, w, ignore, trace, np.fail, budget);
            && Follows(lines, w, ignore, np, trace, budget, r, np', np.filepos + |LinesOf(s)|)
            && !r.flow.Broke?
    decreases budget, s, 0
  {
    hide Run, ParseLine, EvalBlock, Same, SwitchedOff, OnTop, Good, WellFormed, Lines, LinesOf, IfDepth, LoopDepth, Placed;
    PlacedIf(lines, s, np.filepos);
    var e, q := OpenIf(lines, w, ignore, s, np, trace, budget);
    var trace1 := trace + [Event(np.filepos, s.cond, np.fail)];
    if w(trace1) == s.inverted {
      np' := SimThen(lines, w, ignore, s, ctx, np, e, q, trace1, budget);
    } else {
      np' := SimElse(lines, w, ignore, s, ctx, np, e, q, trace1, budget);
    }
  }

  lemma {:induction false} SimThen(lines: seq<seq<Word>>, w: World, ignore: bool, s: Stmt, ctx: Context,
                                   np: Np, e: Itef, q: Np, trace: seq<Event>, budget: nat)
    returns (np': Np)
    requires s.If?
    requires WellFormedStmt(s) && Placed(lines, np.filepos, LinesOf(s))
    requires GoodStmt(s, ctx) && Live(np, ctx)
    requires Fits(np, StmtIfDepth(s), StmtLoopDepth(s))
    requires OnTop(np, e, q) && e == Itef(ItefThen, false, false, e.inverted)
    requires q.filepos == np.filepos + 2
    ensures var r := EvalBlock(s.thn, np.filepos + 2, !ctx.TopLevel?, w, ignore, trace, q.fail, budget);
            && !r.flow.Broke?
            && if r.flow.Normal? then
                 && Same(np, np') && np'.fail == r.fail && np'.filepos == np.filepos + |LinesOf(s)|
                 && Run(lines, w, ignore, q, trace, budget) == Run(lines, w, ignore, np', r.trace, r.budget)
               else Run(lines, w, ignore, q, trace, budget).out == r
    decreases budget, s.thn, 2
  {
    hide Run, ParseLine, EvalBlock, EvalStmt, Same, SwitchedOff, OnTop, Good, WellFormed, Lines, LinesOf, IfDepth, LoopDepth, StmtIfDepth, StmtLoopDepth;
    PlacedIf(lines, s, np.filepos);
    Branches(s, ctx, np, e, q);
    var r := EvalBlock(s.thn, q.filepos, !ctx.TopLevel?, w, ignore, trace, q.fail, budget);
    np' := SimBlock(lines, w, ignore, s.thn, InsideIf(ctx), q, trace, budget);
    if r.flow.Normal? {
      var f := e;
      if s.hasElse {
        np' := PassElse(lines, w, ignore, np, e, np', r.trace, r.budget);
        f := e.(state := ItefElse);
        Branches(s, ctx, np, f, np');
        np' := SkipBlock(lines, w, ignore, s.els, np', r.trace, r.budget);
      }
      np' := PassFi(lines, w, ignore, np, f, np', r.trace, r.budget);
    }
  }

  lemma {:induction false} SimElse(lines: seq<seq<Word>>, w: World, ignore: bool, s: Stmt, ctx: Context,
                                   np: Np, e: Itef, q: Np, trace: seq<Event>, budget: nat)
    returns (np': Np)
    requires s.If?
    requires WellFormedStmt(s) && Placed(lines, np.filepos, LinesOf(s))
    requires GoodStmt(s, ctx) && Live(np, ctx)
    requires Fits(np, StmtIfDepth(s), StmtLoopDepth(s))
    requires OnTop(np, e, q) && e == Itef(ItefThen, false, true, e.inverted)
    requires q.filepos == np.filepos + 2
    ensures var r := EvalBlock(s.els, np.filepos + 3 + |Lines(s.thn)|, !ctx.TopLevel?, w, ignore, trace, q.fail, budget);
            && !r.flow.Broke?
            && if r.flow.Normal? then
                 && Same(np, np') && np'.fail == r.fail && np'.filepos == np.filepos + |LinesOf(s)|
                 && Run(lines, w, ignore, q, trace, budget) == Run(lines, w, ignore, np', r.trace, r.budget)
               else Run(lines, w, ignore, q, trace, budget).out == r
    decreases budget, s.els, 2
  {
    hide Run, ParseLine, EvalStmt, Same, SwitchedOff, OnTop, Good, WellFormed, Lines, LinesOf, IfDepth, LoopDepth, StmtIfDepth, StmtLoopDepth;
    PlacedIf(lines, s, np.filepos);
    Branches(s, ctx, np, e, q);
    np' := SkipBlock(lines, w, ignore, s.thn, q, trace, budget);
    if s.hasElse {
      np' := PassElse(lines, w, ignore, np, e, np', trace, budget);
      var f := e.(state := ItefElse);
      Branches(s, ctx, np, f, np');
      var r := EvalBlock(s.els, np'.filepos, !ctx.TopLevel?, w, ignore, trace, np'.fail, budget);
      np' := SimBlock(lines, w, ignore, s.els, InsideIf(ctx), np', trace, budget);
      if r.flow.Normal? {
        np' := PassFi(lines, w, ignore, np, f, np', r.trace, r.budget);
      }
    } else {
      np' := PassFi(lines, w, ignore, np, e, np', trace, budget);
    }
  }

  /** The `while`/`until` line and the `do` line. */
  lemma {:induction false} OpenLoop(lines: seq<seq<Word>>, w: World, ignore: bool, s: Stmt, np: Np, trace: seq<Event>, budget: nat)
    returns (l: NshControl.Loop, q: Np)
    requires s.Loop? && Condition(s.cond) && Placed(lines, np.filepos, LinesOf(s))
    requires Idle(np) && ItefEnabled(np) && np.lpndx + 1 < |np.lp| && np.fd >= 0
    ensures var trace1 := trace + [Event(np.filepos, s.cond, np.fail)];
            && l == NshControl.Loop(LoopDo, w(trace1) == s.until, np.iendx, np.filepos)
            && Same(Looped(np, l), q) && !q.fail && q.filepos == np.filepos + 2
            && Run(lines, w, ignore, np, trace, budget) == Run(lines, w, ignore, q, trace1, budget)
  {
    hide Run, ParseLine;
    PlacedLoop(lines, s, np.filepos);
    LoopLineStep(np, s.until, s.cond, w, trace);
    Step(lines, w, ignore, np, trace, budget);
    var p := ParseLine(np, LoopLine(s.until, s.cond), w, trace);
    DoLine(p.np, w, p.trace);
    Step(lines, w, ignore, p.np, p.trace, budget);
    l := TopLp(p.np).(state := LoopDo);
    q := SetLp(Advance(p.np), l);
  }

  /** The `done` line: leave the loop, or go back to its first line. */
  lemma {:induction false} PassDone(lines: seq<seq<Word>>, w: World, ignore: bool, np: Np, l: NshControl.Loop, q: Np, trace: seq<Event>, budget: nat)
    returns (q': Np)
    requires Sane(np) && np.lpndx + 1 < |np.lp|
    requires l.state.LoopDo? && l.iendx < |np.ie| && Same(Looped(np, l), q)
    requires q.filepos < |lines| && lines[q.filepos] == [WDone]
    requires l.topoffs <= q.filepos
    ensures Same(np, q') && q'.fail == q.fail
    ensures q'.filepos == if l.enable then l.topoffs else q.filepos + 1
    ensures Run(lines, w, ignore, q, trace, budget) ==
            if !l.enable then Run(lines, w, ignore, q', trace, budget)
            else if budget == 0 then Ended(Result(Spent, trace, q.fail, 0), q')
            else Run(lines, w, ignore, q', trace, budget - 1)
  {
    hide Run, ParseLine;
    DoneLine(q, w, trace);
    Step(lines, w, ignore, q, trace, budget);
    q' := PopLoop(Advance(q));
  }

  /** What the body of a loop inherits. */
  lemma {:induction false} LoopInside(s: Stmt, ctx: Context, np: Np, l: NshControl.Loop, q: Np)
    requires s.Loop?
    requires WellFormedStmt(s) && Live(np, ctx)
    requires Fits(np, StmtIfDepth(s), StmtLoopDepth(s))
    requires l.state.LoopDo? && l.iendx == np.iendx && Same(Looped(np, l), q)
    ensures np.lpndx + 1 < |np.lp|
    ensures WellFormed(s.body)
    ensures Fits(q, IfDepth(s.body), LoopDepth(s.body))
    ensures Idle(q) && ItefEnabled(q) && q.fd >= 0
    ensures if l.enable then Live(q, LoopBody) else !CmdEnabled(q)
    ensures forall q' :: Same(q, q') ==> Same(Looped(np, l), q')
    ensures forall q' :: SwitchedOff(q, q') ==> Same(Looped(np, l.(enable := false)), q')
  {
  }

  lemma {:induction false} LoopReady(s: Stmt, ctx: Context, np: Np)
    requires s.Loop? && WellFormedStmt(s) && GoodStmt(s, ctx) && Live(np, ctx)
    requires Fits(np, StmtIfDepth(s), StmtLoopDepth(s))
    ensures Condition(s.cond) && WellFormed(s.body) && Good(s.body, LoopBody)
    ensures Idle(np) && ItefEnabled(np) && np.lpndx + 1 < |np.lp| && np.fd >= 0
  {
  }

  lemma {:induction false} EvalLoop(s: Stmt, base: nat, inLoop: bool, w: World, ignore: bool, trace: seq<Event>, fail: bool, budget: nat)
    requires s.Loop?
    ensures var trace1 := trace + [Event(base, s.cond, fail)];
            var r := EvalBlock(s.body, base + 2, true, w, ignore, trace1, false, budget);
            EvalStmt(s, base, inLoop, w, ignore, trace, fail, budget) ==
            if w(trace1) != s.until then Result(Normal, trace1, false, budget)
            else match r.flow
              case Normal => if r.budget == 0 then r.(flow := Spent) else EvalStmt(s, base, inLoop, w, ignore, r.trace, r.fail, r.budget - 1)
              case Broke => r.(flow := Normal)
              case _ => r
  {
    hide EvalBlock;
  }

  lemma {:induction false} SimLoop(lines: seq<seq<Word>>, w: World, ignore: bool, s: Stmt, ctx: Context, np: Np, trace: seq<Event>, budget: nat)
    returns (np': Np)
    requires s.Loop?
    requires WellFormedStmt(s) && Placed(lines, np.filepos, LinesOf(s))
    requires GoodStmt(s, ctx) && Live(np, ctx)
    requires Fits(np, StmtIfDepth(s), StmtLoopDepth(s))
    ensures var r := EvalStmt(s, np.filepos, !ctx.TopLevel?, w, ignore, trace, np.fail, budget);
            && Follows(lines, w, ignore, np, trace, budget, r, np', np.filepos + |LinesOf(s)|)
            && !r.flow.Broke?
    decreases budget, s, 0
  {
    hide Run, ParseLine, EvalBlock, EvalStmt, Same, SwitchedOff, Looped, Good, GoodStmt, WellFormed, WellFormedStmt,
      Lines, LinesOf, IfDepth, LoopDepth, StmtIfDepth, StmtLoopDepth, Placed, Live, Fits;
    LoopReady(s, ctx, np);
    EvalLoop(s, np.filepos, !ctx.TopLevel?, w, ignore, trace, np.fail, budget);
    PlacedLoop(lines, s, np.filepos);
    var l, q := OpenLoop(lines, w, ignore, s, np, trace, budget);
    var trace1 := trace + [Event(np.filepos, s.cond, np.fail)];
    if w(trace1) != s.until {
      LoopInside(s, ctx, np, l, q);
      GoodBodyHasNoLoop(s.body);
      q := SkipOff(lines, w, ignore, s.body, q, trace1, budget);
      np' := PassDone(lines, w, ignore, np, l, q, trace1, budget);
    } else {
      var r := EvalBlock(s.body, np.filepos + 2, true, w, ignore, trace1, false, budget);
      np' := SimBody(lines, w, ignore, s, ctx, np, l, q, trace1, budget);
      if r.flow.Normal? && r.budget > 0 {
        SameKeeps(np, np', ctx);
        np' := SimLoop(lines, w, ignore, s, ctx, np', r.trace, r.budget - 1);
      }
    }
  }

  /** One pass through a loop body, up to and including `done`. */
  lemma {:induction false} SimBody(lines: seq<seq<Word>>, w: World, ignore: bool, s: Stmt, ctx: Context,
                                   np: Np, l: NshControl.Loop, q: Np, trace: seq<Event>, budget: nat)
    returns (np': Np)
    requires s.Loop?
    requires WellFormedStmt(s) && Placed(lines, np.filepos, LinesOf(s))
    requires GoodStmt(s, ctx) && Live(np, ctx)
    requires Fits(np, StmtIfDepth(s), StmtLoopDepth(s))
    requires l == NshControl.Loop(LoopDo, true, np.iendx, np.filepos) && Same(Looped(np, l), q)
    requires q.filepos == np.filepos + 2
    ensures var r := EvalBlock(s.body, np.filepos + 2, true, w, ignore, trace, q.fail, budget);
            match r.flow
            case Normal =>
              && Same(np, np') && np'.fail == r.fail && np'.filepos == np.filepos
              && if r.budget == 0 then Run(lines, w, ignore, q, trace, budget).out == r.(flow := Spent)
                 else Run(lines, w, ignore, q, trace, budget) == Run(lines, w, ignore, np', r.trace, r.budget - 1)
            case Broke =>
              && Same(np, np') && np'.fail == r.fail && np'.filepos == np.filepos + |LinesOf(s)|
              && Run(lines, w, ignore, q, trace, budget) == Run(lines, w, ignore, np', r.trace, r.budget)
            case _ => Run(lines, w, ignore, q, trace, budget).out == r
    decreases budget, s.body, 2
  {
    hide Run, ParseLine, EvalBlock, EvalStmt, Same, SwitchedOff, Looped, Good, WellFormed, Lines, LinesOf, IfDepth, LoopDepth, Placed;
    PlacedLoop(lines, s, np.filepos);
    LoopInside(s, ctx, np, l, q);
    var r := EvalBlock(s.body, q.filepos, true, w, ignore, trace, q.fail, budget);
    np' := SimBlock(lines, w, ignore, s.body, LoopBody, q, trace, budget);
    if r.flow.Normal? || r.flow.Broke? {
      np' := PassDone(lines, w, ignore, np, l.(enable := r.flow.Normal?), np', r.trace, r.budget);
    }
  }

  // ----- whole scripts -----

  /** The session state when a script starts: nothing open, a script file at its first line. */
  function Start(depth: nat, fail: bool): (np: Np)
    requires depth > 0
    ensures Live(np, TopLevel) && np.filepos == 0 && np.fail == fail
  {
    Np(seq(depth, _ => Itef(ItefNormal, false, false, false)), 0,
       seq(depth, _ => NshControl.Loop(LoopNormal, false, 0, 0)), 0,
       fail, false, 3, 0, 0, 0)
  }

  /** The session is between commands, at the first line of a script in the
      fragment whose nesting fits what is left of the two stacks. */
  predicate Ready(np: Np, b: Block)
  {
    && Live(np, TopLevel) && np.filepos == 0
    && WellFormed(b) && Good(b, TopLevel) && Fits(np, IfDepth(b), LoopDepth(b))
  }

  lemma {:induction false} ReadyIsSane(np: Np, b: Block)
    requires Ready(np, b)
    ensures Sane(np)
  {
  }

  /** The two-stack machine with seek-back runs exactly the commands the evaluator runs, and leaves both
      stacks as they were when it gets to the end of the script. */
  lemma {:induction false} SessionRefinement(b: Block, np: Np, w: World, ignore: bool, budget: nat)
    requires Ready(np, b)
    ensures var end := Run(Lines(b), w, ignore, np, [], budget);
            && end.out == EvalBlock(b, 0, false, w, ignore, [], np.fail, budget)
            && (end.out.flow.Normal? ==> Same(np, end.np) && end.np.filepos == |Lines(b)|)
  {
    hide Run, EvalBlock, Lines, Live, Same, SwitchedOff, Good, WellFormed, IfDepth, LoopDepth, Fits;
    var lines := Lines(b);
    LiveIsSane(np, TopLevel);
    assert lines[0..|lines|] == lines;
    var np' := SimBlock(lines, w, ignore, b, TopLevel, np, [], budget);
    var r := EvalBlock(b, 0, false, w, ignore, [], np.fail, budget);
    if r.flow.Normal? {
      SameIsSane(np, np');
      RunAtEnd(lines, w, ignore, np', r.trace, r.budget);
    }
  }

  lemma {:induction false} SameIsSane(np: Np, q: Np)
    requires Same(np, q)
    ensures Sane(q)
  {
  }

  lemma {:induction false} RunAtEnd(lines: seq<seq<Word>>, w: World, ignore: bool, np: Np, trace: seq<Event>, budget: nat)
    requires Sane(np) && np.filepos >= |lines|
    ensures Run(lines, w, ignore, np, trace, budget) == Ended(Result(Normal, trace, np.fail, budget), np)
  {
    hide ParseLine;
  }

  /** A script in the fragment whose nesting fits the two stacks. */
  predicate Accepted(b: Block, depth: nat)
  {
    WellFormed(b) && Good(b, TopLevel) && IfDepth(b) < depth && LoopDepth(b) < depth
  }

  /** The same for a fresh session. */
  lemma {:induction false} ScriptRefinement(b: Block, depth: nat, w: World, ignore: bool, fail: bool, budget: nat)
    requires depth > 0 && Accepted(b, depth)
    ensures Run(Lines(b), w, ignore, Start(depth, fail), [], budget).out ==
            EvalBlock(b, 0, false, w, ignore, [], fail, budget)
  {
    hide Run, EvalBlock;
    SessionRefinement(b, Start(depth, fail), w, ignore, budget);
  }
}
