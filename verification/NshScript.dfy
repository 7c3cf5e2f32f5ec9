/**
The NSH script interpreter against a recursive evaluator.

`Run` is the machine: it reads one line at a time, has no syntax tree, and goes
back to the top of a loop by seeking in the script. `EvalBlock` is the meaning
of a script as a tree. The two are proved to run the same commands, in the same
order, each seeing the same `$?`, for every outside world and every number of
loop iterations.
*/
module NshScript {
  import opened NshControl

  // ----- scripts as trees -----

  datatype Block = Nil | Cons(head: Stmt, tail: Block)

  datatype Stmt =
    | Cmd(argv: seq<Word>)
    | Break
    | If(inverted: bool, cond: seq<Word>, thn: Block, hasElse: bool, els: Block)
    | Loop(until: bool, cond: seq<Word>, body: Block)

  predicate PlainCommand(argv: seq<Word>)
  {
    argv == [] || (argv[0].Text? && !IsKeyword(argv[0].text))
  }

  predicate Condition(argv: seq<Word>)
  {
    argv != [] && argv[0].Text? && argv[0].text != "" && !IsKeyword(argv[0].text)
  }

  predicate WellFormedStmt(s: Stmt)
  {
    match s
    case Cmd(argv) => PlainCommand(argv)
    case Break => true
    case If(_, cond, thn, hasElse, els) => Condition(cond) && WellFormed(thn) && (hasElse || els.Nil?) && WellFormed(els)
    case Loop(_, cond, body) => Condition(cond) && WellFormed(body)
  }

  predicate WellFormed(b: Block)
  {
    b.Cons? ==> WellFormedStmt(b.head) && WellFormed(b.tail)
  }

  /** The lines of a script, one command each. */
  function LinesOf(s: Stmt): (r: seq<seq<Word>>)
    ensures |r| > 0
  {
    match s
    case Cmd(argv) => [argv]
    case Break => [[WBreak]]
    case If(inverted, cond, thn, hasElse, els) =>
      [IfLine(inverted, cond)] + ([[WThen]] + (Lines(thn) + (if hasElse then [[WElse]] + (Lines(els) + [[WFi]]) else [[WFi]])))
    case Loop(until, cond, body) =>
      [LoopLine(until, cond)] + ([[WDo]] + (Lines(body) + [[WDone]]))
  }

  function Lines(b: Block): seq<seq<Word>>
  {
    match b
    case Nil => []
    case Cons(s, rest) => LinesOf(s) + Lines(rest)
  }

  function IfLine(inverted: bool, cond: seq<Word>): seq<Word>
  {
    [WIf] + (if inverted then [WBang] + cond else cond)
  }

  function LoopLine(until: bool, cond: seq<Word>): seq<Word>
  {
    [if until then WUntil else WWhile] + cond
  }

  function Max(a: nat, b: nat): nat { if a < b then b else a }

  function IfDepth(b: Block): nat
  {
    if b.Nil? then 0 else Max(StmtIfDepth(b.head), IfDepth(b.tail))
  }

  function StmtIfDepth(s: Stmt): nat
  {
    match s
    case Cmd(_) => 0
    case Break => 0
    case If(_, _, thn, _, els) => 1 + Max(IfDepth(thn), IfDepth(els))
    case Loop(_, _, body) => IfDepth(body)
  }

  function LoopDepth(b: Block): nat
  {
    if b.Nil? then 0 else Max(StmtLoopDepth(b.head), LoopDepth(b.tail))
  }

  function StmtLoopDepth(s: Stmt): nat
  {
    match s
    case Cmd(_) => 0
    case Break => 0
    case If(_, _, thn, _, els) => Max(LoopDepth(thn), LoopDepth(els))
    case Loop(_, _, body) => 1 + LoopDepth(body)
  }

  // ----- the meaning of a tree -----

  datatype Flow = Normal | Broke | Spent | Aborted

  datatype Result = Result(flow: Flow, trace: seq<Event>, fail: bool, budget: nat)

  /** The commands a block runs. `budget` bounds how often loops may go back to
      their top in all; `ignore` is the flag that keeps a script going after a
      failed command. */
  function EvalBlock(b: Block, base: nat, inLoop: bool, w: World, ignore: bool,
                     trace: seq<Event>, fail: bool, budget: nat): (r: Result)
    ensures r.budget <= budget
    decreases budget, b
  {
    match b
    case Nil => Result(Normal, trace, fail, budget)
    case Cons(s, rest) =>
      var r := EvalStmt(s, base, inLoop, w, ignore, trace, fail, budget);
      if !r.flow.Normal? then r
      else EvalBlock(rest, base + |LinesOf(s)|, inLoop, w, ignore, r.trace, r.fail, r.budget)
  }

  function EvalStmt(s: Stmt, base: nat, inLoop: bool, w: World, ignore: bool,
                    trace: seq<Event>, fail: bool, budget: nat): (r: Result)
    ensures r.budget <= budget
    decreases budget, s
  {
    match s
    case Cmd(argv) =>
      if argv == [] then Result(Normal, trace, fail, budget)
      else
        var trace1 := trace + [Event(base, argv, fail)];
        Result(if w(trace1) && !ignore then Aborted else Normal, trace1, w(trace1), budget)
    case Break =>
      Result(if inLoop then Broke else Normal, trace, false, budget)
    case If(inverted, cond, thn, hasElse, els) =>
      var trace1 := trace + [Event(base, cond, fail)];
      if w(trace1) == inverted then
        EvalBlock(thn, base + 2, inLoop, w, ignore, trace1, false, budget)
      else
        EvalBlock(els, base + 3 + |Lines(thn)|, inLoop, w, ignore, trace1, false, budget)
    case Loop(until, cond, body) =>
      var trace1 := trace + [Event(base, cond, fail)];
      if w(trace1) != until then Result(Normal, trace1, false, budget)
      else
        var r := EvalBlock(body, base + 2, true, w, ignore, trace1, false, budget);
        match r.flow
        case Normal =>
          if r.budget == 0 then r.(flow := Spent)
          else EvalStmt(s, base, inLoop, w, ignore, r.trace, r.fail, r.budget - 1)
        case Broke => r.(flow := Normal)
        case _ => r
  }

  // ----- the machine -----

  /** What a run comes to, and the state it leaves the session in. */
  datatype Ended = Ended(out: Result, np: Np)

  /** The `nsh_script` loop: lines are read and parsed until the file ends. */
  function Run(lines: seq<seq<Word>>, w: World, ignore: bool, np: Np, trace: seq<Event>, budget: nat): (r: Ended)
    requires Sane(np)
    ensures Sane(r.np) && r.np.fail == r.out.fail
    decreases budget, |lines| - np.filepos
  {
    if np.filepos >= |lines| then Ended(Result(Normal, trace, np.fail, budget), np)
    else
      var e := ParseLine(np, lines[np.filepos], w, trace);
      if e.error && !ignore then Ended(Result(Aborted, e.trace, e.np.fail, budget), e.np)
      else if e.np.filepos > np.filepos then Run(lines, w, ignore, e.np, e.trace, budget)
      else if budget == 0 then Ended(Result(Spent, e.trace, e.np.fail, 0), e.np)
      else Run(lines, w, ignore, e.np, e.trace, budget - 1)
  }

  /** The budget only limits how far a run is followed: a run that ends within it is the run. */
  lemma {:induction false} MoreBudget(lines: seq<seq<Word>>, w: World, ignore: bool, np: Np, trace: seq<Event>, budget: nat, more: nat)
    requires Sane(np)
    requires !Run(lines, w, ignore, np, trace, budget).out.flow.Spent?
    ensures var r := Run(lines, w, ignore, np, trace, budget);
            Run(lines, w, ignore, np, trace, budget + more) == r.(out := r.out.(budget := r.out.budget + more))
    decreases budget, |lines| - np.filepos
  {
    hide ParseLine;
    if np.filepos < |lines| {
      var e := ParseLine(np, lines[np.filepos], w, trace);
      if !(e.error && !ignore) {
        if e.np.filepos > np.filepos {
          MoreBudget(lines, w, ignore, e.np, e.trace, budget, more);
        } else if budget > 0 {
          MoreBudget(lines, w, ignore, e.np, e.trace, budget - 1, more);
        }
      }
    }
  }

  /** A line makes the script jump if and only if it is a `done` that closes a loop that is to go on; then
      it is read on from the loop's own first line, and otherwise from the next line. */
  lemma {:induction false} JumpsExactly(np: Np, words: seq<Word>, w: World, trace: seq<Event>)
    requires Disciplined(np)
    ensures var e := ParseLine(np, words, w, trace);
            && (e.np.jump <==> words == [WDone] && TopLp(np).state.LoopDo? && TopLp(np).enable)
            && e.np.filepos == if e.np.jump then TopLp(np).topoffs else np.filepos + 1
  {
    hide LoopToken, ItefToken, CmdEnabled, Execute, SaveResult;
    var np0 := np.(foffs := np.filepos, loffs := 0, filepos := np.filepos + 1, jump := false);
    LoopJumps(np0, words);
    var p1 := LoopToken(np0, words);
    ItefStays(p1.np, p1.rest);
    var p2 := ItefToken(p1.np, p1.rest);
    ResultStays(p1.np, true);
    ResultStays(p2.np, true);
    if p2.rest != [] {
      ExecuteStays(p2.np, p2.rest, w, trace);
    }
  }

  lemma {:induction false} ResultStays(np: Np, failed: bool)
    requires Sane(np)
    ensures var r := SaveResult(np, failed).0; r.jump == np.jump && r.filepos == np.filepos
  {
  }

  lemma {:induction false} ExecuteStays(np: Np, argv: seq<Word>, w: World, trace: seq<Event>)
    requires Sane(np) && argv != []
    ensures var r := Execute(np, argv, w, trace).np; r.jump == np.jump && r.filepos == np.filepos
  {
    hide SaveResult;
    ResultStays(BreakLoop(np), false);
    ResultStays(np, w(trace + [Event(np.foffs, argv, np.fail)]));
  }

  lemma {:induction false} LoopJumps(np: Np, words: seq<Word>)
    requires Disciplined(np) && !np.jump
    ensures var r := LoopToken(np, words).np;
            && (r.jump <==> words == [WDone] && TopLp(np).state.LoopDo? && TopLp(np).enable)
            && r.filepos == if r.jump then TopLp(np).topoffs else np.filepos
  {
  }

  lemma {:induction false} ItefStays(np: Np, words: seq<Word>)
    requires Sane(np)
    ensures var r := ItefToken(np, words).np; r.jump == np.jump && r.filepos == np.filepos
  {
  }

  /** Whatever the script, a run keeps the stack discipline. */
  lemma {:induction false} RunDisciplined(lines: seq<seq<Word>>, w: World, ignore: bool, np: Np, trace: seq<Event>, budget: nat)
    requires Disciplined(np)
    ensures Disciplined(Run(lines, w, ignore, np, trace, budget).np)
    decreases budget, |lines| - np.filepos
  {
    hide ParseLine, Disciplined;
    DisciplinedIsSane(np);
    if np.filepos < |lines| {
      ParseLineDisciplined(np, lines[np.filepos], w, trace);
      var e := ParseLine(np, lines[np.filepos], w, trace);
      if !(e.error && !ignore) {
        if e.np.filepos > np.filepos {
          RunDisciplined(lines, w, ignore, e.np, e.trace, budget);
        } else if budget > 0 {
          RunDisciplined(lines, w, ignore, e.np, e.trace, budget - 1);
        }
      }
    }
  }

  lemma {:induction false} DisciplinedIsSane(np: Np)
    requires Disciplined(np)
    ensures Sane(np)
  {
  }

  lemma {:induction false} ParseLineDisciplined(np: Np, words: seq<Word>, w: World, trace: seq<Event>)
    requires Disciplined(np)
    ensures Disciplined(ParseLine(np, words, w, trace).np)
  {
    hide ParseCommand;
    ParseCommandDisciplined(np.(foffs := np.filepos, loffs := 0, filepos := np.filepos + 1, jump := false), words, w, trace);
  }

  // ----- single lines -----

  /** Between statements: no condition is being waited for. */
  predicate Idle(np: Np)
  {
    Sane(np) && !TopIe(np).state.ItefIf? && !AwaitsLoopCondition(TopLp(np))
  }

  function Advance(np: Np): (r: Np)
  {
    np.(foffs := np.filepos, loffs := 0, filepos := np.filepos + 1, jump := false)
  }

  lemma {:induction false} CommandLine(np: Np, argv: seq<Word>, w: World, trace: seq<Event>)
    requires Idle(np)
    requires PlainCommand(argv)
    ensures var e := ParseLine(np, argv, w, trace);
            if argv == [] || !CmdEnabled(np) then e == Executed(Advance(np), trace, false, Ok)
            else
              var trace1 := trace + [Event(np.filepos, argv, np.fail)];
              e == Executed(Advance(np).(fail := w(trace1)), trace1, w(trace1), Ok)
  {
  }

  lemma {:induction false} BreakLine(np: Np, w: World, trace: seq<Event>)
    requires Idle(np)
    ensures var e := ParseLine(np, [WBreak], w, trace);
            if !CmdEnabled(np) then e == Executed(Advance(np), trace, false, Ok)
            else if !TopLp(np).state.LoopDo? then e == Executed(Advance(np).(fail := false), trace, false, Ok)
            else TopLp(np).iendx == np.iendx ==>
                   e == Executed(SetLp(Advance(np), TopLp(np).(enable := false)).(fail := false), trace, false, Ok)
  {
  }

  /** An if frame on top of `np`. */
  function Framed(np: Np, e: Itef): (r: Np)
    requires Sane(np) && np.iendx + 1 < |np.ie|
    ensures Sane(r)
  {
    np.(iendx := np.iendx + 1, ie := np.ie[np.iendx + 1 := e])
  }

  lemma {:induction false} IfLineTokens(np: Np, inverted: bool, cond: seq<Word>)
    requires Idle(np) && np.iendx + 1 < |np.ie| && Condition(cond)
    ensures var words := IfLine(inverted, cond);
            && LoopToken(np, words) == Parsed(np, words, Ok)
            && ItefToken(np, words) == Parsed(PushItef(np, inverted), cond, Ok)
  {
    var words := IfLine(inverted, cond);
    assert words[0] == WIf;
    assert (if inverted then words[2..] else words[1..]) == cond;
  }

  lemma {:induction false} IfLineStep(np: Np, inverted: bool, cond: seq<Word>, w: World, trace: seq<Event>)
    requires Idle(np) && np.iendx + 1 < |np.ie|
    requires Condition(cond)
    ensures var e := ParseLine(np, IfLine(inverted, cond), w, trace);
            if !CmdEnabled(np) then
              e == Executed(Framed(Advance(np), Itef(ItefIf, true, false, inverted)), trace, false, Ok)
            else
              var trace1 := trace + [Event(np.filepos, cond, np.fail)];
              e == Executed(Framed(Advance(np), Itef(ItefIf, false, inverted != w(trace1), inverted)).(fail := false), trace1, false, Ok)
  {
    hide LoopToken, ItefToken, IfLine;
    var np0 := Advance(np);
    IfLineTokens(np0, inverted, cond);
    if CmdEnabled(np) {
      var np1 := PushItef(np0, inverted);
      var trace1 := trace + [Event(np.filepos, cond, np.fail)];
      assert SaveResult(np1, w(trace1)).0 ==
             Framed(np0, Itef(ItefIf, false, inverted != w(trace1), inverted)).(fail := false);
    }
  }

  lemma {:induction false} ThenLine(np: Np, w: World, trace: seq<Event>)
    requires Sane(np) && TopIe(np).state.ItefIf? && !AwaitsLoopCondition(TopLp(np))
    ensures ParseLine(np, [WThen], w, trace) ==
            Executed(SetIe(Advance(np), TopIe(np).(state := ItefThen)), trace, false, Ok)
  {
  }

  lemma {:induction false} ElseLine(np: Np, w: World, trace: seq<Event>)
    requires Sane(np) && TopIe(np).state.ItefThen? && !AwaitsLoopCondition(TopLp(np))
    ensures ParseLine(np, [WElse], w, trace) ==
            Executed(SetIe(Advance(np), TopIe(np).(state := ItefElse)), trace, false, Ok)
  {
  }

  lemma {:induction false} FiLine(np: Np, w: World, trace: seq<Event>)
    requires Sane(np) && (TopIe(np).state.ItefThen? || TopIe(np).state.ItefElse?) && !AwaitsLoopCondition(TopLp(np))
    requires np.iendx > 0
    ensures ParseLine(np, [WFi], w, trace) ==
            Executed(Advance(np).(iendx := np.iendx - 1), trace, false, Ok)
  {
  }

  /** A loop slot on top of `np`. */
  function Looped(np: Np, l: NshControl.Loop): (r: Np)
    requires Sane(np) && np.lpndx + 1 < |np.lp| && l.iendx < |np.ie|
    ensures Sane(r)
  {
    np.(lpndx := np.lpndx + 1, lp := np.lp[np.lpndx + 1 := l])
  }

  function LoopKind(until: bool): LoopState
  {
    if until then LoopUntil else LoopWhile
  }

  lemma {:induction false} LoopLineTokens(np: Np, until: bool, cond: seq<Word>)
    requires Idle(np) && np.lpndx + 1 < |np.lp| && np.fd >= 0 && np.foffs >= 0 && Condition(cond)
    ensures var np1 := PushLoop(np, LoopKind(until));
            && LoopToken(np, LoopLine(until, cond)) == Parsed(np1, cond, Ok)
            && ItefToken(np1, cond) == Parsed(np1, cond, Ok)
  {
    var words := LoopLine(until, cond);
    assert words[1..] == cond;
  }

  lemma {:induction false} LoopLineStep(np: Np, until: bool, cond: seq<Word>, w: World, trace: seq<Event>)
    requires Idle(np) && np.lpndx + 1 < |np.lp| && np.fd >= 0
    requires Condition(cond)
    ensures var e := ParseLine(np, LoopLine(until, cond), w, trace);
            if !ItefEnabled(np) then
              e == Executed(Looped(Advance(np), NshControl.Loop(LoopKind(until), false, np.iendx, np.filepos)), trace, false, Ok)
            else
              var trace1 := trace + [Event(np.filepos, cond, np.fail)];
              e == Executed(Looped(Advance(np), NshControl.Loop(LoopKind(until), w(trace1) == until, np.iendx, np.filepos)).(fail := false), trace1, false, Ok)
  {
    hide LoopToken, ItefToken, LoopLine;
    var np0 := Advance(np);
    LoopLineTokens(np0, until, cond);
    var np1 := PushLoop(np0, LoopKind(until));
    if ItefEnabled(np) {
      var trace1 := trace + [Event(np.filepos, cond, np.fail)];
      assert SaveResult(np1, w(trace1)).0 ==
             Looped(np0, NshControl.Loop(LoopKind(until), w(trace1) == until, np.iendx, np.filepos)).(fail := false);
    }
  }

  lemma {:induction false} DoLine(np: Np, w: World, trace: seq<Event>)
    requires Sane(np) && AwaitsLoopCondition(TopLp(np))
    ensures ParseLine(np, [WDo], w, trace) ==
            Executed(SetLp(Advance(np), TopLp(np).(state := LoopDo)), trace, false, Ok)
  {
  }

  lemma {:induction false} DoneLine(np: Np, w: World, trace: seq<Event>)
    requires Sane(np) && TopLp(np).state.LoopDo? && np.lpndx > 0
    ensures ParseLine(np, [WDone], w, trace) == Executed(PopLoop(Advance(np)), trace, false, Ok)
  {
  }
}
