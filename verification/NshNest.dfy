/**
Nests of two loops with a `break` under an `if` of the inner one. `Pieces` is the
family: the outer body holds an `if` with an inner loop in it, whose body holds
an `if` with a `break`; and the outer body comes to a `break` of its own. Every
other part is any block of the fragment. `InnerLoop` follows the inner loop
through all its passes: it is left with all frames, or one frame short.
*/
module NshNest {
  import opened NshControl
  import opened NshScript
  import opened NshRefinement
  import opened NshAstray
  import opened NshExactness

  // ----- blocks one after the other -----

  function Append(a: Block, b: Block): Block
  {
    match a
    case Nil => b
    case Cons(s, rest) => Cons(s, Append(rest, b))
  }

  lemma {:induction false} AppendParts(a: Block, b: Block)
    ensures Lines(Append(a, b)) == Lines(a) + Lines(b)
    ensures WellFormed(Append(a, b)) <==> WellFormed(a) && WellFormed(b)
    ensures IfDepth(Append(a, b)) == Max(IfDepth(a), IfDepth(b)) && LoopDepth(Append(a, b)) == Max(LoopDepth(a), LoopDepth(b))
    ensures NoDirectLoop(Append(a, b)) <==> NoDirectLoop(a) && NoDirectLoop(b)
    decreases a
  {
    hide LinesOf, WellFormedStmt, StmtIfDepth, StmtLoopDepth;
    if a.Cons? {
      AppendParts(a.tail, b);
    }
  }

  lemma {:induction false} EvalAppend(a: Block, b: Block, base: nat, inLoop: bool, w: World, ignore: bool, trace: seq<Event>, fail: bool, budget: nat)
    ensures var r := EvalBlock(a, base, inLoop, w, ignore, trace, fail, budget);
            EvalBlock(Append(a, b), base, inLoop, w, ignore, trace, fail, budget) ==
            if !r.flow.Normal? then r
            else EvalBlock(b, base + |Lines(a)|, inLoop, w, ignore, r.trace, r.fail, r.budget)
    decreases a
  {
    hide EvalStmt, LinesOf;
    if a.Cons? {
      var r := EvalStmt(a.head, base, inLoop, w, ignore, trace, fail, budget);
      if r.flow.Normal? {
        EvalAppend(a.tail, b, base + |LinesOf(a.head)|, inLoop, w, ignore, r.trace, r.fail, r.budget);
      }
    }
  }

  lemma {:induction false} EvalIf(s: Stmt, base: nat, inLoop: bool, w: World, ignore: bool, trace: seq<Event>, fail: bool, budget: nat)
    requires s.If?
    ensures var trace1 := trace + [Event(base, s.cond, fail)];
            EvalStmt(s, base, inLoop, w, ignore, trace, fail, budget) ==
            if w(trace1) == s.inverted then EvalBlock(s.thn, base + 2, inLoop, w, ignore, trace1, false, budget)
            else EvalBlock(s.els, base + 3 + |Lines(s.thn)|, inLoop, w, ignore, trace1, false, budget)
  {
    hide EvalBlock, Lines;
  }

  lemma {:induction false} EvalBreak(rest: Block, base: nat, w: World, ignore: bool, trace: seq<Event>, fail: bool, budget: nat)
    ensures EvalBlock(Cons(Stmt.Break, rest), base, true, w, ignore, trace, fail, budget) == Result(Broke, trace, false, budget)
    ensures Lines(Cons(Stmt.Break, rest)) == [[WBreak]] + Lines(rest)
  {
  }

  // ----- the family -----

  predicate CommandsOnly(b: Block)
  {
    b.Cons? ==> b.head.Cmd? && CommandsOnly(b.tail)
  }

  /** The parts of a nest, in the order in which they stand:
      while a; do; p; if b; then; q; while c; do; r; if d; then; s; break; x; else; els; fi; t; done; u; fi; v; break; w; done */
  datatype Pieces = Pieces(
    outerUntil: bool, a: seq<Word>, p: Block,
    bInverted: bool, b: seq<Word>, q: Block,
    innerUntil: bool, c: seq<Word>, r: Block,
    dInverted: bool, d: seq<Word>, s: Block, x: Block, hasElse: bool, els: Block,
    t: Block, u: Block, v: Block, w: Block)

  function IfD(m: Pieces): Stmt
  {
    If(m.dInverted, m.d, Append(m.s, Cons(Stmt.Break, m.x)), m.hasElse, m.els)
  }

  function Inner(m: Pieces): Stmt
  {
    Stmt.Loop(m.innerUntil, m.c, Append(m.r, Cons(IfD(m), m.t)))
  }

  function IfB(m: Pieces): Stmt
  {
    If(m.bInverted, m.b, Append(m.q, Cons(Inner(m), m.u)), false, Nil)
  }

  function AfterB(m: Pieces): Block
  {
    Append(m.v, Cons(Stmt.Break, m.w))
  }

  function Outer(m: Pieces): Stmt
  {
    Stmt.Loop(m.outerUntil, m.a, Append(m.p, Cons(IfB(m), AfterB(m))))
  }

  /** All that is run is in the fragment; what is never run has no direct loop; between the
      inner nest and the outer `break` stand only commands. */
  predicate Mendable(m: Pieces)
  {
    && Good(m.p, LoopBody) && Good(m.q, UnderIf) && Good(m.r, LoopBody) && Good(m.s, UnderIf)
    && Good(m.els, UnderIf) && Good(m.t, LoopBody) && Good(m.u, UnderIf)
    && NoDirectLoop(m.x) && NoDirectLoop(m.w) && CommandsOnly(m.v)
  }

  ghost predicate Mended(s: Stmt)
  {
    exists m :: Mendable(m) && s == Outer(m)
  }

  lemma {:induction false} CommandsHaveNoLoop(b: Block)
    requires CommandsOnly(b)
    ensures NoDirectLoop(b)
    decreases b
  {
    if b.Cons? {
      CommandsHaveNoLoop(b.tail);
    }
  }

  // ----- what the inner loop needs -----

  lemma {:induction false} InnerParts(m: Pieces, np: Np)
    requires WellFormedStmt(Inner(m)) && Fits(np, StmtIfDepth(Inner(m)), StmtLoopDepth(Inner(m)))
    ensures Condition(m.c) && Condition(m.d) && WellFormed(m.r) && WellFormed(m.s) && WellFormed(m.x) && WellFormed(m.els) && WellFormed(m.t)
    ensures m.hasElse || m.els.Nil?
    ensures np.iendx + 1 < |np.ie| && np.lpndx + 1 < |np.lp|
    ensures np.iendx + IfDepth(m.r) < |np.ie| && np.lpndx + 1 + LoopDepth(m.r) < |np.lp|
    ensures np.iendx + IfDepth(m.t) < |np.ie| && np.lpndx + 1 + LoopDepth(m.t) < |np.lp|
    ensures np.iendx + 1 + IfDepth(m.s) < |np.ie| && np.lpndx + 1 + LoopDepth(m.s) < |np.lp|
    ensures np.iendx + 1 + IfDepth(m.x) < |np.ie| && np.lpndx + 1 + LoopDepth(m.x) < |np.lp|
    ensures np.iendx + 1 + IfDepth(m.els) < |np.ie| && np.lpndx + 1 + LoopDepth(m.els) < |np.lp|
    ensures np.iendx + 1 + IfDepth(IfD(m).thn) < |np.ie| && np.lpndx + 1 + LoopDepth(IfD(m).thn) < |np.lp|
    ensures WellFormed(IfD(m).thn) && WellFormed(Cons(IfD(m), m.t))
    ensures np.iendx + IfDepth(Cons(IfD(m), m.t)) < |np.ie| && np.lpndx + 1 + LoopDepth(Cons(IfD(m), m.t)) < |np.lp|
  {
    hide WellFormed, WellFormedStmt, IfDepth, LoopDepth, StmtIfDepth, StmtLoopDepth, Inner, IfD, Condition;
    InnerWell(m);
    InnerDepth(m);
  }

  lemma {:induction false} InnerWell(m: Pieces)
    requires WellFormedStmt(Inner(m))
    ensures Condition(m.c) && Condition(m.d) && WellFormed(m.r) && WellFormed(m.s) && WellFormed(m.x) && WellFormed(m.els) && WellFormed(m.t)
    ensures (m.hasElse || m.els.Nil?) && WellFormed(IfD(m).thn) && WellFormed(Cons(IfD(m), m.t))
  {
    hide Condition, IfDepth, LoopDepth, StmtIfDepth, StmtLoopDepth, Lines, NoDirectLoop;
    AppendParts(m.r, Cons(IfD(m), m.t));
    AppendParts(m.s, Cons(Stmt.Break, m.x));
  }

  lemma {:induction false} InnerDepth(m: Pieces)
    ensures var thn := IfD(m).thn; var rest := Cons(IfD(m), m.t);
            && IfDepth(thn) == Max(IfDepth(m.s), IfDepth(m.x)) && LoopDepth(thn) == Max(LoopDepth(m.s), LoopDepth(m.x))
            && IfDepth(rest) == Max(1 + Max(IfDepth(thn), IfDepth(m.els)), IfDepth(m.t))
            && LoopDepth(rest) == Max(Max(LoopDepth(thn), LoopDepth(m.els)), LoopDepth(m.t))
            && StmtIfDepth(Inner(m)) == Max(IfDepth(m.r), IfDepth(rest)) && StmtLoopDepth(Inner(m)) == 1 + Max(LoopDepth(m.r), LoopDepth(rest))
  {
    hide WellFormed, WellFormedStmt, Lines, NoDirectLoop, IfDepth, LoopDepth, StmtIfDepth, StmtLoopDepth;
    AppendParts(m.r, Cons(IfD(m), m.t));
    AppendParts(m.s, Cons(Stmt.Break, m.x));
    ConsDepth(Stmt.Break, m.x);
    ConsDepth(IfD(m), m.t);
    StmtDepths(Stmt.Break);
    StmtDepths(IfD(m));
    StmtDepths(Inner(m));
  }

  lemma {:induction false} ConsDepth(s: Stmt, b: Block)
    ensures IfDepth(Cons(s, b)) == Max(StmtIfDepth(s), IfDepth(b)) && LoopDepth(Cons(s, b)) == Max(StmtLoopDepth(s), LoopDepth(b))
  {
  }

  lemma {:induction false} StmtDepths(s: Stmt)
    ensures s.Break? ==> StmtIfDepth(s) == 0 && StmtLoopDepth(s) == 0
    ensures s.If? ==> StmtIfDepth(s) == 1 + Max(IfDepth(s.thn), IfDepth(s.els)) && StmtLoopDepth(s) == Max(LoopDepth(s.thn), LoopDepth(s.els))
    ensures s.Loop? ==> StmtIfDepth(s) == IfDepth(s.body) && StmtLoopDepth(s) == 1 + LoopDepth(s.body)
  {
  }

  /** Where the parts of the inner loop stand. */
  lemma {:induction false} InnerLines(lines: seq<seq<Word>>, m: Pieces, base: nat)
    requires Placed(lines, base, LinesOf(Inner(m)))
    ensures var d := base + 2 + |Lines(m.r)|;
            var t := d + |LinesOf(IfD(m))|;
            && Placed(lines, base + 2, Lines(m.r)) && Placed(lines, d, LinesOf(IfD(m))) && Placed(lines, d, Lines(Cons(IfD(m), m.t)))
            && Placed(lines, t, Lines(m.t)) && |Lines(Cons(IfD(m), m.t))| == |LinesOf(IfD(m))| + |Lines(m.t)|
            && t + |Lines(m.t)| < |lines| && lines[t + |Lines(m.t)|] == [WDone]
            && |LinesOf(Inner(m))| == t + |Lines(m.t)| + 1 - base
  {
    hide LinesOf, Lines, Placed;
    PlacedLoop(lines, Inner(m), base);
    AppendParts(m.r, Cons(IfD(m), m.t));
    ConsLines(IfD(m), m.t);
    PlacedSplit(lines, base + 2, Lines(m.r), Lines(Cons(IfD(m), m.t)));
    PlacedSplit(lines, base + 2 + |Lines(m.r)|, LinesOf(IfD(m)), Lines(m.t));
  }

  /** Where the parts of the `if` of `d` stand. */
  lemma {:induction false} LinesOfD(lines: seq<seq<Word>>, m: Pieces, d: nat)
    requires Placed(lines, d, LinesOf(IfD(m)))
    ensures var brk := d + 2 + |Lines(m.s)|;
            var after := brk + 1 + |Lines(m.x)|;
            && Placed(lines, d + 2, Lines(IfD(m).thn)) && |Lines(IfD(m).thn)| == |Lines(m.s)| + 1 + |Lines(m.x)|
            && Placed(lines, d + 2, Lines(m.s))
            && brk < |lines| && lines[brk] == [WBreak] && Placed(lines, brk + 1, Lines(m.x))
            && after < |lines|
            && if m.hasElse then
                 && lines[after] == [WElse] && Placed(lines, after + 1, Lines(m.els))
                 && |LinesOf(IfD(m))| == after + 2 + |Lines(m.els)| - d && after + 1 + |Lines(m.els)| < |lines|
                 && lines[after + 1 + |Lines(m.els)|] == [WFi]
               else lines[after] == [WFi] && |LinesOf(IfD(m))| == after + 1 - d
  {
    hide LinesOf, Lines, Placed;
    PlacedIf(lines, IfD(m), d);
    AppendParts(m.s, Cons(Stmt.Break, m.x));
    BreakLines(m.x);
    PlacedSplit(lines, d + 2, Lines(m.s), [[WBreak]] + Lines(m.x));
    PlacedHead(lines, d + 2 + |Lines(m.s)|, [WBreak], Lines(m.x));
  }

  lemma {:induction false} ConsLines(s: Stmt, b: Block)
    ensures Lines(Cons(s, b)) == LinesOf(s) + Lines(b)
  {
  }

  lemma {:induction false} BreakLines(b: Block)
    ensures Lines(Cons(Stmt.Break, b)) == [[WBreak]] + Lines(b)
  {
  }

  /** The frame below, and above it the frame of `b`, both of branches that are taken. */
  predicate AtInner(np: Np)
  {
    && Live(np, UnderIf) && np.lpndx == 1 && np.iendx > 1
    && TopIe(np).state.ItefThen? && !TopIe(np).disabled && !TopIe(np).ifcond
    && Taken(np.ie[np.iendx - 1])
  }

  /** A frame whose branch is being run. */
  predicate Taken(e: Itef)
  {
    !e.disabled && if e.ifcond then e.state.ItefElse? else e.state.ItefThen?
  }

  /** `q` is `np` with the top frame closed. */
  ghost predicate Short(np: Np, q: Np)
  {
    Sane(np) && np.iendx > 0 && Same(np.(iendx := np.iendx - 1), q)
  }

  // ----- the `break` of the inner loop and what follows it -----

  /** In the body of the inner loop with the frame of `d` on top. */
  ghost predicate InD(np: Np, l: NshControl.Loop, e: Itef, x: Np)
  {
    && AtInner(np) && np.iendx + 1 < |np.ie| && np.lpndx + 1 < |np.lp|
    && l.state.LoopDo? && l.enable && l.iendx == np.iendx
    && OnTop(Looped(np, l), e, x) && e.state.ItefThen? && !e.disabled && !e.ifcond
  }

  lemma {:induction false} InnerBreak(lines: seq<seq<Word>>, w: World, ignore: bool, np: Np, l: NshControl.Loop, e: Itef, x: Np, trace: seq<Event>, budget: nat)
    returns (q: Np)
    requires InD(np, l, e, x) && x.filepos < |lines| && lines[x.filepos] == [WBreak]
    ensures Same(Looped(np, l.(enable := false)), q) && !q.fail && q.filepos == x.filepos + 1
    ensures Run(lines, w, ignore, x, trace, budget) == Run(lines, w, ignore, q, trace, budget)
  {
    hide Run, ParseLine;
    BreakDropsFrame(x, w, trace);
    Step(lines, w, ignore, x, trace, budget);
    q := ParseLine(x, [WBreak], w, trace).np;
  }

  /** With the inner loop off, the frame of `b` on top. */
  lemma {:induction false} OffState(np: Np, l: NshControl.Loop, q: Np)
    requires AtInner(np) && np.lpndx + 1 < |np.lp| && l.state.LoopDo? && l.iendx == np.iendx && Same(Looped(np, l.(enable := false)), q)
    ensures Idle(q) && !CmdEnabled(q) && q.fd >= 0 && q.iendx == np.iendx && q.lpndx == np.lpndx + 1 && |q.ie| == |np.ie| && |q.lp| == |np.lp|
    ensures TopIe(q).state.ItefThen? && !TopIe(q).ifcond
    ensures forall q' :: Same(q, q') ==> Same(Looped(np, l.(enable := false)), q')
  {
  }

  /** The `else` of `d` meets the frame of `b`: it goes off. */
  lemma {:induction false} WrongElse(lines: seq<seq<Word>>, w: World, ignore: bool, np: Np, l: NshControl.Loop, q: Np, trace: seq<Event>, budget: nat)
    returns (q': Np)
    requires AtInner(np) && np.lpndx + 1 < |np.lp| && l.state.LoopDo? && l.iendx == np.iendx && Same(Looped(np, l.(enable := false)), q)
    requires q.filepos < |lines| && lines[q.filepos] == [WElse]
    ensures Idle(q') && !ItefEnabled(q') && q'.fd >= 0 && TopIe(q').state.ItefElse?
    ensures q'.iendx == np.iendx && q'.lpndx == np.lpndx + 1 && |q'.ie| == |np.ie| && |q'.lp| == |np.lp|
    ensures q'.fail == q.fail && q'.filepos == q.filepos + 1
    ensures Gone(np, l, q')
    ensures Run(lines, w, ignore, q, trace, budget) == Run(lines, w, ignore, q', trace, budget)
  {
    hide Run, ParseLine;
    ElseLine(q, w, trace);
    Step(lines, w, ignore, q, trace, budget);
    q' := ParseLine(q, [WElse], w, trace).np;
  }

  /** All below the frame of `b` is as it was, and the inner loop is off. */
  ghost predicate Gone(np: Np, l: NshControl.Loop, q: Np)
    requires Sane(np) && np.iendx > 0 && np.lpndx + 1 < |np.lp| && l.iendx < |np.ie|
  {
    Sane(q) && q.iendx == np.iendx && Same(Looped(np.(iendx := np.iendx - 1), l.(enable := false)), q.(iendx := np.iendx - 1))
  }

  /** The `fi` of `d` closes the frame of `b`. */
  lemma {:induction false} WrongFi(lines: seq<seq<Word>>, w: World, ignore: bool, np: Np, l: NshControl.Loop, q: Np, trace: seq<Event>, budget: nat)
    returns (q': Np)
    requires AtInner(np) && np.lpndx + 1 < |np.lp| && l.state.LoopDo? && l.iendx == np.iendx && Gone(np, l, q)
    requires TopIe(q).state.ItefThen? || TopIe(q).state.ItefElse?
    requires q.filepos < |lines| && lines[q.filepos] == [WFi]
    ensures Same(Looped(np.(iendx := np.iendx - 1), l.(enable := false)), q') && q'.fail == q.fail && q'.filepos == q.filepos + 1
    ensures Idle(q') && !CmdEnabled(q') && q'.fd >= 0 && q'.iendx == np.iendx - 1 && q'.lpndx == np.lpndx + 1 && |q'.ie| == |np.ie| && |q'.lp| == |np.lp|
    ensures Run(lines, w, ignore, q, trace, budget) == Run(lines, w, ignore, q', trace, budget)
  {
    hide Run, ParseLine;
    FiLine(q, w, trace);
    Step(lines, w, ignore, q, trace, budget);
    q' := ParseLine(q, [WFi], w, trace).np;
  }

  lemma {:induction false} SameGone(np: Np, l: NshControl.Loop, q: Np, q': Np)
    requires Sane(np) && np.iendx > 0 && np.lpndx + 1 < |np.lp| && l.iendx < |np.ie|
    requires Gone(np, l, q) && Same(q, q')
    ensures Gone(np, l, q') && TopIe(q') == TopIe(q)
  {
  }

  lemma {:induction false} OffIsGone(np: Np, l: NshControl.Loop, q: Np)
    requires AtInner(np) && np.lpndx + 1 < |np.lp| && l.state.LoopDo? && l.iendx == np.iendx && Same(Looped(np, l.(enable := false)), q)
    ensures Gone(np, l, q)
  {
  }

  /** From the inner `break` to the end of the `if` of `d`. */
  lemma {:induction false} ToWrongFi(lines: seq<seq<Word>>, w: World, ignore: bool, m: Pieces, np: Np, l: NshControl.Loop, e: Itef, x: Np, base: nat, trace: seq<Event>, budget: nat)
    returns (q: Np)
    requires InD(np, l, e, x) && Placed(lines, base, LinesOf(Inner(m))) && x.filepos == base + 4 + |Lines(m.r)| + |Lines(m.s)|
    requires WellFormedStmt(Inner(m)) && Fits(np, StmtIfDepth(Inner(m)), StmtLoopDepth(Inner(m))) && NoDirectLoop(m.x)
    ensures Same(Looped(np.(iendx := np.iendx - 1), l.(enable := false)), q) && !q.fail
    ensures q.filepos == base + 2 + |Lines(m.r)| + |LinesOf(IfD(m))|
    ensures Idle(q) && !CmdEnabled(q) && q.fd >= 0 && q.iendx == np.iendx - 1 && q.lpndx == np.lpndx + 1 && |q.ie| == |np.ie| && |q.lp| == |np.lp|
    ensures Run(lines, w, ignore, x, trace, budget) == Run(lines, w, ignore, q, trace, budget)
  {
    hide Run, LinesOf, Lines, Placed, WellFormed, WellFormedStmt, IfDepth, LoopDepth, StmtIfDepth, StmtLoopDepth, NoDirectLoop, Same, AtInner, Gone;
    InnerLines(lines, m, base);
    LinesOfD(lines, m, base + 2 + |Lines(m.r)|);
    InnerParts(m, np);
    AtInnerSane(np);
    q := InnerBreak(lines, w, ignore, np, l, e, x, trace, budget);
    OffState(np, l, q);
    q := SkipOff(lines, w, ignore, m.x, q, trace, budget);
    if m.hasElse {
      q := WrongElse(lines, w, ignore, np, l, q, trace, budget);
      var q1 := SkipBlock(lines, w, ignore, m.els, q, trace, budget);
      SameGone(np, l, q, q1);
      q := WrongFi(lines, w, ignore, np, l, q1, trace, budget);
    } else {
      OffState(np, l, q);
      OffIsGone(np, l, q);
      q := WrongFi(lines, w, ignore, np, l, q, trace, budget);
    }
  }

  /** The whole way out of the inner loop by its `break`: a frame is lost. */
  lemma {:induction false} BreakOut(lines: seq<seq<Word>>, w: World, ignore: bool, m: Pieces, np: Np, l: NshControl.Loop, e: Itef, x: Np, base: nat, trace: seq<Event>, budget: nat)
    returns (np': Np)
    requires InD(np, l, e, x) && Placed(lines, base, LinesOf(Inner(m))) && x.filepos == base + 4 + |Lines(m.r)| + |Lines(m.s)|
    requires WellFormedStmt(Inner(m)) && Fits(np, StmtIfDepth(Inner(m)), StmtLoopDepth(Inner(m))) && NoDirectLoop(m.x) && NoDirectLoop(m.t)
    requires l.topoffs <= x.filepos
    ensures Short(np, np') && !np'.fail && np'.filepos == base + |LinesOf(Inner(m))|
    ensures Run(lines, w, ignore, x, trace, budget) == Run(lines, w, ignore, np', trace, budget)
  {
    hide Run, LinesOf, Lines, Placed, WellFormed, WellFormedStmt, IfDepth, LoopDepth, StmtIfDepth, StmtLoopDepth, NoDirectLoop, Same, AtInner;
    InnerLines(lines, m, base);
    LinesOfD(lines, m, base + 2 + |Lines(m.r)|);
    InnerParts(m, np);
    var q := ToWrongFi(lines, w, ignore, m, np, l, e, x, base, trace, budget);
    var q1 := SkipOff(lines, w, ignore, m.t, q, trace, budget);
    AtInnerSane(np);
    var npS, off := np.(iendx := np.iendx - 1), l.(enable := false);
    SameTwice(Looped(npS, off), q, q1);
    np' := PassDone(lines, w, ignore, npS, off, q1, trace, budget);
  }

  lemma {:induction false} AtInnerSane(np: Np)
    requires AtInner(np)
    ensures Sane(np) && Idle(np) && ItefEnabled(np) && np.fd >= 0 && np.iendx > 1 && Live(np, UnderIf)
  {
  }

  lemma {:induction false} SameTwice(a: Np, b: Np, c: Np)
    requires Same(a, b) && Same(b, c)
    ensures Same(a, c)
  {
  }

  // ----- one pass through the inner loop -----

  lemma {:induction false} InnerBody(np: Np, l: NshControl.Loop, q: Np)
    requires AtInner(np) && np.iendx + 1 < |np.ie| && np.lpndx + 1 < |np.lp|
    requires l.state.LoopDo? && l.iendx == np.iendx && Same(Looped(np, l), q)
    ensures Idle(q) && ItefEnabled(q) && q.fd >= 0 && q.iendx == np.iendx && q.lpndx == np.lpndx + 1 && |q.ie| == |np.ie| && |q.lp| == |np.lp|
    ensures if l.enable then Live(q, LoopBody) else !CmdEnabled(q)
    ensures forall q' :: Same(q, q') ==> Same(Looped(np, l), q')
    ensures forall q' :: SwitchedOff(q, q') ==> Same(Looped(np, l.(enable := false)), q')
  {
  }

  /** The rest of an inner body that has been left by a `break` of its own, and the `done`. */
  lemma {:induction false} LeaveInner(lines: seq<seq<Word>>, w: World, ignore: bool, np: Np, l: NshControl.Loop, q: Np, rest: Block, trace: seq<Event>, budget: nat)
    returns (np': Np)
    requires AtInner(np) && np.iendx + 1 < |np.ie| && np.lpndx + 1 < |np.lp|
    requires l.state.LoopDo? && !l.enable && l.iendx == np.iendx && Same(Looped(np, l), q) && l.topoffs <= q.filepos
    requires WellFormed(rest) && NoDirectLoop(rest) && Placed(lines, q.filepos, Lines(rest))
    requires np.iendx + IfDepth(rest) < |np.ie| && np.lpndx + 1 + LoopDepth(rest) < |np.lp|
    requires q.filepos + |Lines(rest)| < |lines| && lines[q.filepos + |Lines(rest)|] == [WDone]
    ensures Same(np, np') && np'.fail == q.fail && np'.filepos == q.filepos + |Lines(rest)| + 1
    ensures Run(lines, w, ignore, q, trace, budget) == Run(lines, w, ignore, np', trace, budget)
  {
    hide Run, Lines, Placed, WellFormed, IfDepth, LoopDepth, NoDirectLoop, Same, AtInner, Looped;
    AtInnerSane(np);
    InnerBody(np, l, q);
    var q1 := SkipOff(lines, w, ignore, rest, q, trace, budget);
    np' := PassDone(lines, w, ignore, np, l, q1, trace, budget);
  }

  /** Into the `if` of `d`. */
  lemma {:induction false} EnterD(np: Np, l: NshControl.Loop, q: Np, e: Itef, x: Np)
    requires AtInner(np) && np.iendx + 1 < |np.ie| && np.lpndx + 1 < |np.lp|
    requires l.state.LoopDo? && l.enable && l.iendx == np.iendx && Same(Looped(np, l), q)
    requires OnTop(q, e, x) && e.state.ItefThen? && !e.disabled
    ensures !e.ifcond ==> InD(np, l, e, x) && Live(x, UnderIf)
    ensures e.ifcond ==> Idle(x) && !ItefEnabled(x) && x.fd >= 0
    ensures x.iendx == np.iendx + 1 && x.lpndx == np.lpndx + 1 && |x.ie| == |np.ie| && |x.lp| == |np.lp|
    ensures forall x' :: Same(x, x') ==> OnTop(q, e, x')
    ensures forall x' :: !e.ifcond && Same(x, x') ==> InD(np, l, e, x')
  {
  }

  lemma {:induction false} EnterElseD(np: Np, l: NshControl.Loop, q: Np, e: Itef, x: Np)
    requires AtInner(np) && np.iendx + 1 < |np.ie| && np.lpndx + 1 < |np.lp|
    requires l.state.LoopDo? && l.enable && l.iendx == np.iendx && Same(Looped(np, l), q)
    requires OnTop(q, e, x) && e.state.ItefElse? && !e.disabled && e.ifcond
    ensures Live(x, UnderIf) && x.iendx == np.iendx + 1 && x.lpndx == np.lpndx + 1 && |x.ie| == |np.ie| && |x.lp| == |np.lp|
    ensures forall x' :: Same(x, x') ==> OnTop(q, e, x')
  {
  }

  /** The `if` of `d` when it fails: the `else` part, or nothing. */
  lemma {:induction false} FailD(lines: seq<seq<Word>>, w: World, ignore: bool, m: Pieces, np: Np, l: NshControl.Loop, q: Np, e: Itef, x: Np, base: nat, trace: seq<Event>, budget: nat)
    returns (q': Np)
    requires AtInner(np) && Mendable(m) && l.state.LoopDo? && l.enable && l.iendx == np.iendx
    requires WellFormedStmt(Inner(m)) && Fits(np, StmtIfDepth(Inner(m)), StmtLoopDepth(Inner(m))) && Placed(lines, base, LinesOf(Inner(m)))
    requires np.iendx + 1 < |np.ie| && np.lpndx + 1 < |np.lp| && Same(Looped(np, l), q)
    requires OnTop(q, e, x) && e.state.ItefThen? && !e.disabled && e.ifcond && x.filepos == base + 4 + |Lines(m.r)|
    ensures var d := base + 2 + |Lines(m.r)|;
            var r := EvalBlock(m.els, d + 3 + |Lines(IfD(m).thn)|, true, w, ignore, trace, x.fail, budget);
            && !r.flow.Broke?
            && if r.flow.Normal? then
                 && Same(q, q') && q'.fail == r.fail && q'.filepos == d + |LinesOf(IfD(m))|
                 && Run(lines, w, ignore, x, trace, budget) == Run(lines, w, ignore, q', r.trace, r.budget)
               else Run(lines, w, ignore, x, trace, budget).out == r
  {
    hide Run, EvalBlock, LinesOf, Lines, Placed, WellFormed, WellFormedStmt, IfDepth, LoopDepth, StmtIfDepth, StmtLoopDepth, NoDirectLoop, Same, AtInner, OnTop, Live, Good, Looped;
    InnerLines(lines, m, base);
    LinesOfD(lines, m, base + 2 + |Lines(m.r)|);
    InnerParts(m, np);
    AtInnerSane(np);
    InnerBody(np, l, q);
    EnterD(np, l, q, e, x);
    var y := SkipBlock(lines, w, ignore, IfD(m).thn, x, trace, budget);
    var at := base + 5 + |Lines(m.r)| + |Lines(IfD(m).thn)|;
    if m.hasElse {
      y := PassElse(lines, w, ignore, q, e, y, trace, budget);
      var e1 := e.(state := ItefElse);
      EnterElseD(np, l, q, e1, y);
      var r := EvalBlock(m.els, at, true, w, ignore, trace, x.fail, budget);
      q' := SimBlock(lines, w, ignore, m.els, UnderIf, y, trace, budget);
      if r.flow.Normal? {
        q' := PassFi(lines, w, ignore, q, e1, q', r.trace, r.budget);
      }
    } else {
      EvalNil(at, true, w, ignore, trace, x.fail, budget);
      q' := PassFi(lines, w, ignore, q, e, y, trace, budget);
    }
  }

  /** Out of the inner loop: the loop is left with all frames or one short, or the whole run is over. */
  ghost predicate Leaves(lines: seq<seq<Word>>, w: World, ignore: bool, start: Np, np: Np, trace: seq<Event>, budget: nat, r: Result, np': Np, end: nat)
    requires Sane(start)
  {
    if r.flow.Normal? then
      && (Same(np, np') || Short(np, np')) && np'.fail == r.fail && np'.filepos == end
      && Sane(np') && Run(lines, w, ignore, start, trace, budget) == Run(lines, w, ignore, np', r.trace, r.budget)
    else !r.flow.Broke? && Run(lines, w, ignore, start, trace, budget).out == r
  }

  /** The inner loop, through all its passes. */
  lemma {:induction false} InnerLoop(lines: seq<seq<Word>>, w: World, ignore: bool, m: Pieces, np: Np, trace: seq<Event>, budget: nat)
    returns (np': Np)
    requires AtInner(np) && Mendable(m) && Placed(lines, np.filepos, LinesOf(Inner(m)))
    requires WellFormedStmt(Inner(m)) && Fits(np, StmtIfDepth(Inner(m)), StmtLoopDepth(Inner(m)))
    ensures Sane(np)
    ensures Leaves(lines, w, ignore, np, np, trace, budget,
                   EvalStmt(Inner(m), np.filepos, true, w, ignore, trace, np.fail, budget), np', np.filepos + |LinesOf(Inner(m))|)
    decreases budget, 3
  {
    hide Run, EvalStmt, EvalBlock, LinesOf, Lines, Placed, WellFormed, WellFormedStmt, IfDepth, LoopDepth, StmtIfDepth, StmtLoopDepth,
      NoDirectLoop, Same, AtInner, Live, Good, Looped, Short, Mendable, Fits;
    AtInnerSane(np);
    InnerLines(lines, m, np.filepos);
    InnerParts(m, np);
    MendableParts(m);
    EvalLoop(Inner(m), np.filepos, true, w, ignore, trace, np.fail, budget);
    var l, q := OpenLoop(lines, w, ignore, Inner(m), np, trace, budget);
    var trace1 := trace + [Event(np.filepos, m.c, np.fail)];
    if w(trace1) != m.innerUntil {
      PlacedLoop(lines, Inner(m), np.filepos);
      AppendParts(m.r, Cons(IfD(m), m.t));
      InnerDepths(m, np);
      np' := LeaveInner(lines, w, ignore, np, l, q, Inner(m).body, trace1, budget);
      SameIsSane(np, np');
    } else {
      np' := InnerPass(lines, w, ignore, m, np, l, q, trace1, budget);
    }
  }

  lemma {:induction false} MendableParts(m: Pieces)
    requires Mendable(m)
    ensures NoDirectLoop(m.p) && NoDirectLoop(m.r) && NoDirectLoop(m.t) && NoDirectLoop(m.v) && NoDirectLoop(m.x) && NoDirectLoop(m.w)
    ensures NoDirectLoop(Cons(IfD(m), m.t)) && NoDirectLoop(Inner(m).body) && NoDirectLoop(AfterB(m)) && NoDirectLoop(Cons(IfB(m), AfterB(m)))
    ensures NoDirectLoop(Outer(m).body)
  {
    GoodBodyHasNoLoop(m.p);
    GoodBodyHasNoLoop(m.r);
    GoodBodyHasNoLoop(m.t);
    CommandsHaveNoLoop(m.v);
    AppendParts(m.r, Cons(IfD(m), m.t));
    AppendParts(m.v, Cons(Stmt.Break, m.w));
    AppendParts(m.p, Cons(IfB(m), AfterB(m)));
  }

  lemma {:induction false} InnerDepths(m: Pieces, np: Np)
    requires WellFormedStmt(Inner(m)) && Fits(np, StmtIfDepth(Inner(m)), StmtLoopDepth(Inner(m)))
    ensures WellFormed(Inner(m).body)
    ensures np.iendx + IfDepth(Inner(m).body) < |np.ie| && np.lpndx + 1 + LoopDepth(Inner(m).body) < |np.lp|
  {
  }

  /** One pass of the inner loop whose condition holds, and all passes after it. */
  lemma {:induction false} InnerPass(lines: seq<seq<Word>>, w: World, ignore: bool, m: Pieces, np: Np, l: NshControl.Loop, q: Np, trace: seq<Event>, budget: nat)
    returns (np': Np)
    requires AtInner(np) && Mendable(m) && Placed(lines, np.filepos, LinesOf(Inner(m)))
    requires WellFormedStmt(Inner(m)) && Fits(np, StmtIfDepth(Inner(m)), StmtLoopDepth(Inner(m)))
    requires np.iendx + 1 < |np.ie| && np.lpndx + 1 < |np.lp|
    requires l == NshControl.Loop(LoopDo, true, np.iendx, np.filepos) && Same(Looped(np, l), q) && !q.fail && q.filepos == np.filepos + 2
    ensures Sane(q)
    ensures Leaves(lines, w, ignore, q, np, trace, budget, AfterPass(m, np.filepos, w, ignore, trace, budget), np', np.filepos + |LinesOf(Inner(m))|)
    decreases budget, 2
  {
    hide Run, EvalStmt, EvalBlock, LinesOf, Lines, Placed, WellFormed, WellFormedStmt, IfDepth, LoopDepth, StmtIfDepth, StmtLoopDepth,
      NoDirectLoop, Same, AtInner, Live, Good, Looped, Short, SwitchedOff, Fits;
    AtInnerSane(np);
    InnerLines(lines, m, np.filepos);
    InnerParts(m, np);
    MendableParts(m);
    InnerBody(np, l, q);
    var base, rest := np.filepos, Cons(IfD(m), m.t);
    EvalAppend(m.r, rest, base + 2, true, w, ignore, trace, false, budget);
    FitsOf(q, m.r);
    var q1 := SimBlock(lines, w, ignore, m.r, LoopBody, q, trace, budget);
    var r := EvalBlock(m.r, base + 2, true, w, ignore, trace, false, budget);
    if r.flow.Normal? {
      np' := InnerRest(lines, w, ignore, m, np, l, q1, r.trace, r.budget);
    } else if r.flow.Broke? {
      np' := LeaveInner(lines, w, ignore, np, l.(enable := false), q1, rest, r.trace, r.budget);
      SameIsSane(np, np');
    } else {
      np' := np;
    }
  }

  lemma {:induction false} FitsOf(np: Np, b: Block)
    requires np.iendx + IfDepth(b) < |np.ie| && np.lpndx + LoopDepth(b) < |np.lp|
    ensures Fits(np, IfDepth(b), LoopDepth(b))
  {
  }

  /** What the evaluator makes of a pass of the inner loop and of those after it. */
  function AfterPass(m: Pieces, base: nat, w: World, ignore: bool, trace: seq<Event>, budget: nat): Result
  {
    FromBody(m, base, w, ignore, EvalBlock(Inner(m).body, base + 2, true, w, ignore, trace, false, budget))
  }

  function FromBody(m: Pieces, base: nat, w: World, ignore: bool, r: Result): Result
  {
    match r.flow
    case Normal => if r.budget == 0 then r.(flow := Spent) else EvalStmt(Inner(m), base, true, w, ignore, r.trace, r.fail, r.budget - 1)
    case Broke => r.(flow := Normal)
    case _ => r
  }

  /** From the `if` of `d` on. */
  lemma {:induction false} InnerRest(lines: seq<seq<Word>>, w: World, ignore: bool, m: Pieces, np: Np, l: NshControl.Loop, q: Np, trace: seq<Event>, budget: nat)
    returns (np': Np)
    requires AtInner(np) && Mendable(m) && Placed(lines, np.filepos, LinesOf(Inner(m)))
    requires WellFormedStmt(Inner(m)) && Fits(np, StmtIfDepth(Inner(m)), StmtLoopDepth(Inner(m)))
    requires np.iendx + 1 < |np.ie| && np.lpndx + 1 < |np.lp|
    requires l == NshControl.Loop(LoopDo, true, np.iendx, np.filepos) && Same(Looped(np, l), q) && q.filepos == np.filepos + 2 + |Lines(m.r)|
    ensures Sane(q)
    ensures Leaves(lines, w, ignore, q, np, trace, budget,
                   FromBody(m, np.filepos, w, ignore, EvalBlock(Cons(IfD(m), m.t), q.filepos, true, w, ignore, trace, q.fail, budget)),
                   np', np.filepos + |LinesOf(Inner(m))|)
    decreases budget, 1
  {
    hide Run, EvalStmt, EvalBlock, LinesOf, Lines, Placed, WellFormed, WellFormedStmt, IfDepth, LoopDepth, StmtIfDepth, StmtLoopDepth,
      NoDirectLoop, Same, AtInner, Live, Good, Looped, Short, OnTop, Fits, InD, Leaves, Mendable;
    AtInnerSane(np);
    InnerLines(lines, m, np.filepos);
    InnerParts(m, np);
    InnerBody(np, l, q);
    LinesOfD(lines, m, q.filepos);
    var base, d := np.filepos, q.filepos;
    EvalCons(Cons(IfD(m), m.t), d, true, w, ignore, trace, q.fail, budget);
    EvalIf(IfD(m), d, true, w, ignore, trace, q.fail, budget);
    var e, x := OpenIf(lines, w, ignore, IfD(m), q, trace, budget);
    LiveEnabled(q, LoopBody);
    EnterD(np, l, q, e, x);
    var trace1 := trace + [Event(d, m.d, q.fail)];
    if w(trace1) == m.dInverted {
      np' := TakenD(lines, w, ignore, m, np, l, e, x, trace1, budget);
      var r := EvalBlock(IfD(m).thn, d + 2, true, w, ignore, trace1, false, budget);
      LeavesVia(lines, w, ignore, q, x, np, trace, budget, trace1, budget,
                if r.flow.Broke? then r.(flow := Normal) else r, np', base + |LinesOf(Inner(m))|);
    } else {
      var q1 := FailD(lines, w, ignore, m, np, l, q, e, x, base, trace1, budget);
      var r := EvalBlock(m.els, d + 3 + |Lines(IfD(m).thn)|, true, w, ignore, trace1, false, budget);
      if r.flow.Normal? {
        np' := InnerEnd(lines, w, ignore, m, np, l, q1, r.trace, r.budget);
        LeavesVia(lines, w, ignore, q, q1, np, trace, budget, r.trace, r.budget,
                  FromBody(m, base, w, ignore, EvalBlock(m.t, q1.filepos, true, w, ignore, r.trace, q1.fail, r.budget)), np', base + |LinesOf(Inner(m))|);
      } else {
        np' := np;
        LeavesOver(lines, w, ignore, q, np, trace, budget, r, np', base + |LinesOf(Inner(m))|);
      }
    }
  }

  lemma {:induction false} LeavesVia(lines: seq<seq<Word>>, w: World, ignore: bool, start: Np, x: Np, np: Np, trace: seq<Event>, budget: nat, trace1: seq<Event>, budget1: nat, r: Result, np': Np, end: nat)
    requires Sane(start) && Sane(x) && Leaves(lines, w, ignore, x, np, trace1, budget1, r, np', end)
    requires Run(lines, w, ignore, start, trace, budget) == Run(lines, w, ignore, x, trace1, budget1)
    ensures Leaves(lines, w, ignore, start, np, trace, budget, r, np', end)
  {
    hide Run;
  }

  lemma {:induction false} LeavesOver(lines: seq<seq<Word>>, w: World, ignore: bool, start: Np, np: Np, trace: seq<Event>, budget: nat, r: Result, np': Np, end: nat)
    requires Sane(start) && !r.flow.Normal? && !r.flow.Broke? && Run(lines, w, ignore, start, trace, budget).out == r
    ensures Leaves(lines, w, ignore, start, np, trace, budget, r, np', end)
  {
    hide Run;
  }

  /** The `if` of `d` when it holds: up to the `break`, and out of the loop. */
  lemma {:induction false} TakenD(lines: seq<seq<Word>>, w: World, ignore: bool, m: Pieces, np: Np, l: NshControl.Loop, e: Itef, x: Np, trace: seq<Event>, budget: nat)
    returns (np': Np)
    requires InD(np, l, e, x) && Live(x, UnderIf) && (forall x' :: Same(x, x') ==> InD(np, l, e, x'))
    requires Mendable(m) && Placed(lines, np.filepos, LinesOf(Inner(m)))
    requires WellFormedStmt(Inner(m)) && Fits(np, StmtIfDepth(Inner(m)), StmtLoopDepth(Inner(m)))
    requires l.topoffs == np.filepos && !x.fail && x.filepos == np.filepos + 4 + |Lines(m.r)|
    requires x.iendx == np.iendx + 1 && x.lpndx == np.lpndx + 1 && |x.ie| == |np.ie| && |x.lp| == |np.lp|
    ensures Sane(x)
    ensures var r := EvalBlock(IfD(m).thn, x.filepos, true, w, ignore, trace, false, budget);
            && !r.flow.Normal?
            && Leaves(lines, w, ignore, x, np, trace, budget, if r.flow.Broke? then r.(flow := Normal) else r,
                      np', np.filepos + |LinesOf(Inner(m))|)
  {
    hide Run, EvalStmt, EvalBlock, LinesOf, Lines, Placed, WellFormed, WellFormedStmt, IfDepth, LoopDepth, StmtIfDepth, StmtLoopDepth,
      NoDirectLoop, Same, AtInner, Live, Good, Looped, Short, OnTop, Fits, InD;
    LiveEnabled(x, UnderIf);
    InnerLines(lines, m, np.filepos);
    LinesOfD(lines, m, np.filepos + 2 + |Lines(m.r)|);
    InnerParts(m, np);
    MendableParts(m);
    EvalAppend(m.s, Cons(Stmt.Break, m.x), x.filepos, true, w, ignore, trace, false, budget);
    FitsOf(x, m.s);
    var x1 := SimBlock(lines, w, ignore, m.s, UnderIf, x, trace, budget);
    var r := EvalBlock(m.s, x.filepos, true, w, ignore, trace, false, budget);
    np' := np;
    if r.flow.Normal? {
      EvalBreak(m.x, x.filepos + |Lines(m.s)|, w, ignore, r.trace, r.fail, r.budget);
      np' := BreakOut(lines, w, ignore, m, np, l, e, x1, np.filepos, r.trace, r.budget);
      ShortIsSane(np, np');
    }
  }

  lemma {:induction false} LiveEnabled(np: Np, ctx: Context)
    requires Live(np, ctx)
    ensures Sane(np) && Idle(np) && CmdEnabled(np) && ItefEnabled(np) && np.fd >= 0
  {
  }

  lemma {:induction false} ShortIsSane(np: Np, q: Np)
    requires Short(np, q)
    ensures Sane(q)
  {
  }

  /** The last part of the inner body, the `done`, and what comes after it. */
  lemma {:induction false} InnerEnd(lines: seq<seq<Word>>, w: World, ignore: bool, m: Pieces, np: Np, l: NshControl.Loop, q: Np, trace: seq<Event>, budget: nat)
    returns (np': Np)
    requires AtInner(np) && Mendable(m) && Placed(lines, np.filepos, LinesOf(Inner(m)))
    requires WellFormedStmt(Inner(m)) && Fits(np, StmtIfDepth(Inner(m)), StmtLoopDepth(Inner(m)))
    requires np.iendx + 1 < |np.ie| && np.lpndx + 1 < |np.lp|
    requires l == NshControl.Loop(LoopDo, true, np.iendx, np.filepos) && Same(Looped(np, l), q)
    requires q.filepos == np.filepos + 2 + |Lines(m.r)| + |LinesOf(IfD(m))|
    ensures Sane(q)
    ensures Leaves(lines, w, ignore, q, np, trace, budget,
                   FromBody(m, np.filepos, w, ignore, EvalBlock(m.t, q.filepos, true, w, ignore, trace, q.fail, budget)),
                   np', np.filepos + |LinesOf(Inner(m))|)
    decreases budget, 0
  {
    hide Run, EvalStmt, EvalBlock, LinesOf, Lines, Placed, WellFormed, WellFormedStmt, IfDepth, LoopDepth, StmtIfDepth, StmtLoopDepth,
      NoDirectLoop, Same, AtInner, Live, Good, Looped, Short, SwitchedOff, Fits;
    AtInnerSane(np);
    InnerLines(lines, m, np.filepos);
    InnerParts(m, np);
    InnerBody(np, l, q);
    FitsOf(q, m.t);
    var q1 := SimBlock(lines, w, ignore, m.t, LoopBody, q, trace, budget);
    var r := EvalBlock(m.t, q.filepos, true, w, ignore, trace, q.fail, budget);
    np' := np;
    if r.flow.Normal? {
      np' := PassDone(lines, w, ignore, np, l, q1, r.trace, r.budget);
      if r.budget > 0 {
        AgainInner(np, np', m);
        var np1 := np';
        np' := InnerLoop(lines, w, ignore, m, np1, r.trace, r.budget - 1);
        LeavesFrom(lines, w, ignore, q, np, np1, r.trace, r.budget - 1,
                   EvalStmt(Inner(m), np.filepos, true, w, ignore, r.trace, r.fail, r.budget - 1), np', np.filepos + |LinesOf(Inner(m))|, trace, budget);
      }
    } else if r.flow.Broke? {
      np' := PassDone(lines, w, ignore, np, l.(enable := false), q1, r.trace, r.budget);
      SameIsSane(np, np');
    }
  }

  lemma {:induction false} AgainInner(np: Np, q: Np, m: Pieces)
    requires AtInner(np) && Same(np, q) && Fits(np, StmtIfDepth(Inner(m)), StmtLoopDepth(Inner(m)))
    ensures AtInner(q) && Fits(q, StmtIfDepth(Inner(m)), StmtLoopDepth(Inner(m)))
  {
  }

  /** Leaving from a state that is the same as another is leaving from that other. */
  lemma {:induction false} LeavesFrom(lines: seq<seq<Word>>, w: World, ignore: bool, start: Np, np: Np, np1: Np, trace: seq<Event>, budget: nat, r: Result, np': Np, end: nat, trace0: seq<Event>, budget0: nat)
    requires Sane(start) && Sane(np1) && Same(np, np1) && Leaves(lines, w, ignore, np1, np1, trace, budget, r, np', end)
    requires Run(lines, w, ignore, start, trace0, budget0) == Run(lines, w, ignore, np1, trace, budget)
    ensures Leaves(lines, w, ignore, start, np, trace0, budget0, r, np', end)
  {
    hide Run;
  }
}
