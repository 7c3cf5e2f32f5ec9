/**
The control state of one NSH session: the if-then-else-fi stack, the loop
stack and the three operations that move them (`nsh_loop`, `nsh_itef`,
`cmd_break`), together with `nsh_saveresult`, which feeds a command's exit
status back into whichever stack is waiting for a condition.

The value `Np` is the state; the functions on it say what each operation does.
Class `Parser` holds the same state in fixed-size arrays that are updated in
place, and each of its methods is proved to do what its function says.
*/
module NshControl {

  /** One argument of a command line, as the keyword tests see it. */
  datatype Word =
    | WWhile | WUntil | WDo | WDone
    | WIf | WThen | WElse | WFi
    | WBang | WBreak
    | Text(text: string)

  /** The spellings that the comparisons of the source recognise: a word spelled so is never plain text. */
  predicate IsKeyword(text: string)
  {
    || text == "while" || text == "until" || text == "do" || text == "done"
    || text == "if" || text == "then" || text == "else" || text == "fi"
    || text == "!" || text == "break"
  }

  datatype ItefState = ItefNormal | ItefIf | ItefThen | ItefElse

  datatype LoopState = LoopNormal | LoopWhile | LoopUntil | LoopDo

  datatype Itef = Itef(state: ItefState, disabled: bool, ifcond: bool, inverted: bool)

  datatype Loop = Loop(state: LoopState, enable: bool, iendx: nat, topoffs: nat)

  /** The parser state. Script offsets are counted in lines. */
  datatype Np = Np(
    ie: seq<Itef>, iendx: nat,
    lp: seq<Loop>, lpndx: nat,
    fail: bool, jump: bool,
    fd: int, foffs: int, loffs: nat,
    filepos: nat)

  /** How an operation ended; `Internal` is a branch the source marks "Shouldn't happen". */
  datatype Verdict = Ok | Syntax | Internal

  datatype Parsed = Parsed(np: Np, rest: seq<Word>, verdict: Verdict)

  /** The indices are in range, also the if-index that each loop slot would restore. */
  predicate Sane(np: Np)
  {
    && |np.ie| == |np.lp|
    && np.iendx < |np.ie|
    && np.lpndx < |np.lp|
    && forall i :: 0 <= i < |np.lp| ==> np.lp[i].iendx < |np.ie|
  }

  function TopIe(np: Np): Itef
    requires Sane(np)
  {
    np.ie[np.iendx]
  }

  function TopLp(np: Np): Loop
    requires Sane(np)
  {
    np.lp[np.lpndx]
  }

  predicate AwaitsLoopCondition(l: Loop)
  {
    l.state.LoopWhile? || l.state.LoopUntil?
  }

  predicate LoopEnabled(np: Np)
    requires Sane(np)
  {
    TopLp(np).state.LoopDo? ==> TopLp(np).enable
  }

  predicate ItefEnabled(np: Np)
    requires Sane(np)
  {
    var top := TopIe(np);
    !top.disabled &&
    match top.state
    case ItefNormal => true
    case ItefIf => true
    case ItefThen => !top.ifcond
    case ItefElse => top.ifcond
  }

  predicate CmdEnabled(np: Np)
    requires Sane(np)
  {
    LoopEnabled(np) && ItefEnabled(np)
  }

  function SetIe(np: Np, e: Itef): Np
    requires Sane(np)
  {
    np.(ie := np.ie[np.iendx := e])
  }

  function SetLp(np: Np, l: Loop): Np
    requires Sane(np)
  {
    np.(lp := np.lp[np.lpndx := l])
  }

  /** `nsh_saveresult`: `failed` is true when the command did not succeed. */
  function SaveResult(np: Np, failed: bool): (r: (Np, bool))
    requires Sane(np)
    ensures Sane(r.0)
  {
    var l := TopLp(np);
    if l.state.LoopWhile? then
      (SetLp(np, l.(enable := !failed)).(fail := false), false)
    else if l.state.LoopUntil? then
      (SetLp(np, l.(enable := failed)).(fail := false), false)
    else if TopIe(np).state.ItefIf? then
      (SetIe(np, TopIe(np).(ifcond := TopIe(np).inverted != failed)).(fail := false), false)
    else
      (np.(fail := failed), failed)
  }

  function LoopError(np: Np, v: Verdict): (r: Parsed)
    requires Sane(np)
    ensures Sane(r.np)
  {
    Parsed(np.(jump := false, lpndx := 0, lp := np.lp[0 := np.lp[0].(state := LoopNormal, enable := true, topoffs := 0)]), [], v)
  }

  function PushLoop(np: Np, state: LoopState): (r: Np)
    requires Sane(np)
    requires np.lpndx + 1 < |np.lp|
    requires np.foffs >= 0
    ensures Sane(r)
  {
    np.(jump := false, lpndx := np.lpndx + 1,
    lp := np.lp[np.lpndx + 1 := Loop(state, CmdEnabled(np), np.iendx, np.foffs + np.loffs)])
  }

  function PopLoop(np: Np): (r: Np)
    requires Sane(np)
    requires np.lpndx > 0
    ensures Sane(r)
  {
    var l := TopLp(np);
    var again := l.enable;
    var np1 := SetLp(np, l.(enable := true, state := LoopNormal));
    np1.(lpndx := np.lpndx - 1,
    jump := if again then true else np.jump,
    filepos := if again then l.topoffs else np.filepos)
  }

  /** `nsh_loop`: strips a loop keyword off the command and moves the loop stack. */
  function LoopToken(np: Np, words: seq<Word>): (r: Parsed)
    requires Sane(np)
    ensures Sane(r.np)
  {
    if words == [] then Parsed(np, words, Ok)
    else match words[0]
      case WWhile => LoopOpen(np, words, LoopWhile)
      case WUntil => LoopOpen(np, words, LoopUntil)
      case WDo =>
        if !AwaitsLoopCondition(TopLp(np)) then LoopError(np, Syntax)
        else Parsed(SetLp(np, TopLp(np).(state := LoopDo)), words[1..], Ok)
      case WDone =>
        if |words| > 1 then LoopError(np, Syntax)
        else if !TopLp(np).state.LoopDo? then LoopError(np, Syntax)
        else if np.lpndx < 1 then LoopError(np, Internal)
        else Parsed(PopLoop(np), [], Ok)
      case _ =>
        if AwaitsLoopCondition(TopLp(np)) then LoopError(np, Syntax)
        else Parsed(np, words, Ok)
  }

  function LoopOpen(np: Np, words: seq<Word>, state: LoopState): (r: Parsed)
    requires Sane(np)
    requires words != []
    ensures Sane(r.np)
  {
    if |words| < 2 || words[1] == Text("") then LoopError(np, Syntax)
    else if TopIe(np).state.ItefIf? || AwaitsLoopCondition(TopLp(np)) || np.fd < 0 || np.foffs < 0 then
      LoopError(np, Syntax)
    else if np.lpndx >= |np.lp| - 1 then LoopError(np, Syntax)
    else Parsed(PushLoop(np, state), words[1..], Ok)
  }

  function ItefError(np: Np, v: Verdict): (r: Parsed)
    requires Sane(np)
    ensures Sane(r.np)
  {
    Parsed(np.(iendx := 0, ie := np.ie[0 := Itef(ItefNormal, false, false, false)]), [], v)
  }

  function PushItef(np: Np, inverted: bool): (r: Np)
    requires Sane(np)
    requires np.iendx + 1 < |np.ie|
    ensures Sane(r)
  {
    np.(iendx := np.iendx + 1,
    ie := np.ie[np.iendx + 1 := Itef(ItefIf, !CmdEnabled(np), false, inverted)])
  }

  /** `nsh_itef`: strips an if keyword off the command and moves the if stack. */
  function ItefToken(np: Np, words: seq<Word>): (r: Parsed)
    requires Sane(np)
    ensures Sane(r.np)
  {
    if words == [] then Parsed(np, words, Ok)
    else match words[0]
      case WIf => ItefOpen(np, words)
      case WThen =>
        if !TopIe(np).state.ItefIf? then ItefError(np, Syntax)
        else Parsed(SetIe(np, TopIe(np).(state := ItefThen)), words[1..], Ok)
      case WElse =>
        if !TopIe(np).state.ItefThen? then ItefError(np, Syntax)
        else Parsed(SetIe(np, TopIe(np).(state := ItefElse)), words[1..], Ok)
      case WFi => ItefClose(np, words)
      case _ =>
        if TopIe(np).state.ItefIf? then ItefError(np, Syntax)
        else Parsed(np, words, Ok)
  }

  function ItefOpen(np: Np, words: seq<Word>): (r: Parsed)
    requires Sane(np)
    requires words != []
    ensures Sane(r.np)
  {
    if |words| < 2 || words[1] == Text("") then ItefError(np, Syntax)
    else
      var inverted := words[1].WBang?;
      var rest := if inverted then words[2..] else words[1..];
      if rest == [] || rest[0] == Text("") then ItefError(np, Syntax)
      else if TopIe(np).state.ItefIf? then ItefError(np, Syntax)
      else if np.iendx >= |np.ie| - 1 then ItefError(np, Syntax)
      else Parsed(PushItef(np, inverted), rest, Ok)
  }

  function ItefClose(np: Np, words: seq<Word>): (r: Parsed)
    requires Sane(np)
    requires words != []
    ensures Sane(r.np)
  {
    if |words| > 1 then ItefError(np, Syntax)
    else if !TopIe(np).state.ItefThen? && !TopIe(np).state.ItefElse? then ItefError(np, Syntax)
    else if np.iendx < 1 then ItefError(np, Internal)
    else Parsed(np.(iendx := np.iendx - 1), [], Ok)
  }

  /** `cmd_break`: always succeeds; outside a loop body it does nothing. */
  function BreakLoop(np: Np): (r: Np)
    requires Sane(np)
    ensures Sane(r)
  {
    if TopLp(np).state.LoopDo? then
      SetLp(np, TopLp(np).(enable := false)).(iendx := TopLp(np).iendx)
    else np
  }

  // ----- one command -----

  /** A command that was run: the line it stands on, its arguments, and the `$?` it saw. */
  datatype Event = Event(line: int, argv: seq<Word>, status: bool)

  /** What runs outside the shell: given the commands run so far, did the last one fail? */
  type World = seq<Event> -> bool

  datatype Executed = Executed(np: Np, trace: seq<Event>, error: bool, verdict: Verdict)

  /** Running a command that is not a keyword: `break`, or something outside the shell. */
  function Execute(np: Np, argv: seq<Word>, w: World, trace: seq<Event>): (r: Executed)
    requires Sane(np)
    requires argv != []
    ensures Sane(r.np)
    ensures trace <= r.trace
  {
    if argv[0].WBreak? then
      var (np1, error) := SaveResult(BreakLoop(np), false);
      Executed(np1, trace, error, Ok)
    else
      var trace1 := trace + [Event(np.foffs, argv, np.fail)];
      var (np1, error) := SaveResult(np, w(trace1));
      Executed(np1, trace1, error, Ok)
  }

  function Refuse(p: Parsed, trace: seq<Event>): (r: Executed)
    requires Sane(p.np)
    ensures Sane(r.np)
  {
    var (np1, error) := SaveResult(p.np, true);
    Executed(np1, trace, error, p.verdict)
  }

  /** `nsh_parse_command` on a command already split into arguments. */
  function ParseCommand(np: Np, words: seq<Word>, w: World, trace: seq<Event>): (r: Executed)
    requires Sane(np)
    ensures Sane(r.np)
    ensures trace <= r.trace
  {
    var p1 := LoopToken(np, words);
    if !p1.verdict.Ok? then Refuse(p1, trace)
    else
      var p2 := ItefToken(p1.np, p1.rest);
      if !p2.verdict.Ok? then Refuse(p2, trace)
      else if p2.rest == [] || !CmdEnabled(p2.np) then Executed(p2.np, trace, false, Ok)
      else Execute(p2.np, p2.rest, w, trace)
  }

  /** One pass of the `nsh_script` loop: note the offset, read a line, parse its one command. */
  function ParseLine(np: Np, words: seq<Word>, w: World, trace: seq<Event>): (r: Executed)
    requires Sane(np)
    ensures Sane(r.np)
    ensures trace <= r.trace
  {
    ParseCommand(np.(foffs := np.filepos, loffs := 0, filepos := np.filepos + 1, jump := false), words, w, trace)
  }

  // ----- what every token stream keeps -----

  /** The stack discipline: slot 0 is idle, open loops below the top are in their bodies. */
  ghost predicate Disciplined(np: Np)
  {
    && Sane(np)
    && np.ie[0].state.ItefNormal?
    && np.lp[0].state.LoopNormal?
    && (forall i :: 0 < i < np.lpndx ==> np.lp[i].state.LoopDo?)
    && (np.lpndx > 0 ==> !TopLp(np).state.LoopNormal?)
  }

  /** Moves of the if stack leave the loop stack alone and slot 0 idle. */
  ghost predicate IeMove(np: Np, r: Np)
    requires Sane(np)
  {
    && r == np.(ie := r.ie, iendx := r.iendx)
    && |r.ie| == |np.ie|
    && r.iendx < |r.ie|
    && (r.ie[0] == np.ie[0] || r.ie[0].state.ItefNormal?)
  }

  lemma {:induction false} ItefTokenMoves(np: Np, words: seq<Word>)
    requires Sane(np)
    requires np.ie[0].state.ItefNormal?
    ensures IeMove(np, ItefToken(np, words).np)
    ensures !ItefToken(np, words).verdict.Internal?
  {
    hide ItefOpen, ItefClose;
    if words != [] && words[0].WIf? {
      ItefOpenMoves(np, words);
    } else if words != [] && words[0].WFi? {
      ItefCloseMoves(np, words);
    }
  }

  /** Which keyword is accepted when. */
  lemma {:induction false} AcceptedExactly(np: Np, words: seq<Word>)
    requires Disciplined(np) && words != []
    ensures words[0].WWhile? || words[0].WUntil? ==>
              (LoopToken(np, words).verdict.Ok? <==>
                && |words| > 1 && words[1] != Text("") && !TopIe(np).state.ItefIf? && !AwaitsLoopCondition(TopLp(np))
                && np.fd >= 0 && np.foffs >= 0 && np.lpndx + 1 < |np.lp|)
    ensures words[0].WDo? ==> (LoopToken(np, words).verdict.Ok? <==> AwaitsLoopCondition(TopLp(np)))
    ensures words[0].WDone? ==> (LoopToken(np, words).verdict.Ok? <==> |words| == 1 && TopLp(np).state.LoopDo?)
    ensures words[0].WIf? ==>
              (ItefToken(np, words).verdict.Ok? <==>
                && !TopIe(np).state.ItefIf? && np.iendx + 1 < |np.ie|
                && var cond := words[if |words| > 1 && words[1].WBang? then 2 else 1..]; cond != [] && cond[0] != Text(""))
    ensures words[0].WThen? ==> (ItefToken(np, words).verdict.Ok? <==> TopIe(np).state.ItefIf?)
    ensures words[0].WElse? ==> (ItefToken(np, words).verdict.Ok? <==> TopIe(np).state.ItefThen?)
    ensures words[0].WFi? ==> (ItefToken(np, words).verdict.Ok? <==> |words| == 1 && (TopIe(np).state.ItefThen? || TopIe(np).state.ItefElse?))
    ensures words[0].Text? || words[0].WBreak? ==>
              && (LoopToken(np, words).verdict.Ok? <==> !AwaitsLoopCondition(TopLp(np)))
              && (ItefToken(np, words).verdict.Ok? <==> !TopIe(np).state.ItefIf?)
  {
    hide PushLoop, PopLoop, PushItef;
  }

  /** After a refusal the stack it came from is empty and commands are enabled by it; the other one and
      the position in the script are as they were. */
  lemma {:induction false} ErrorResets(np: Np, words: seq<Word>)
    requires Sane(np)
    ensures !LoopToken(np, words).verdict.Ok? ==>
              var r := LoopToken(np, words);
              && r.rest == [] && r.np.lpndx == 0 && TopLp(r.np).state.LoopNormal? && LoopEnabled(r.np) && !r.np.jump
              && r.np.ie == np.ie && r.np.iendx == np.iendx && r.np.filepos == np.filepos && r.np.fail == np.fail
    ensures !ItefToken(np, words).verdict.Ok? ==>
              var r := ItefToken(np, words);
              && r.rest == [] && r.np.iendx == 0 && TopIe(r.np).state.ItefNormal? && ItefEnabled(r.np)
              && r.np.lp == np.lp && r.np.lpndx == np.lpndx && r.np.filepos == np.filepos && r.np.fail == np.fail
  {
    hide LoopToken, ItefToken;
    LoopRefusal(np, words);
    ItefRefusal(np, words);
  }

  lemma {:induction false} LoopRefusal(np: Np, words: seq<Word>)
    requires Sane(np)
    ensures var r := LoopToken(np, words); !r.verdict.Ok? ==> r == LoopError(np, r.verdict)
  {
    hide LoopError, PushLoop, PopLoop;
    ErrorVerdicts(np);
  }

  lemma {:induction false} ItefRefusal(np: Np, words: seq<Word>)
    requires Sane(np)
    ensures var r := ItefToken(np, words); !r.verdict.Ok? ==> r == ItefError(np, r.verdict)
  {
    hide ItefError, PushItef;
    ErrorVerdicts(np);
  }

  lemma {:induction false} ErrorVerdicts(np: Np)
    requires Sane(np)
    ensures forall v :: LoopError(np, v).verdict == v && ItefError(np, v).verdict == v
  {
  }

  lemma {:induction false} ItefOpenMoves(np: Np, words: seq<Word>)
    requires Sane(np) && np.ie[0].state.ItefNormal? && words != []
    ensures IeMove(np, ItefOpen(np, words).np) && !ItefOpen(np, words).verdict.Internal?
  {
  }

  lemma {:induction false} ItefCloseMoves(np: Np, words: seq<Word>)
    requires Sane(np) && np.ie[0].state.ItefNormal? && words != []
    ensures IeMove(np, ItefClose(np, words).np) && !ItefClose(np, words).verdict.Internal?
  {
  }

  lemma {:induction false} SaveResultDisciplined(np: Np, failed: bool)
    requires Disciplined(np)
    ensures Disciplined(SaveResult(np, failed).0)
  {
  }

  lemma {:induction false} LoopTokenDisciplined(np: Np, words: seq<Word>)
    requires Disciplined(np)
    ensures Disciplined(LoopToken(np, words).np)
    ensures !LoopToken(np, words).verdict.Internal?
  {
    LoopErrorDisciplined(np);
    if words != [] {
      LoopOpenDisciplined(np, words);
      if TopLp(np).state.LoopDo? {
        PopLoopDisciplined(np);
      }
    }
    hide LoopError, LoopOpen, PopLoop;
  }

  lemma {:induction false} LoopErrorDisciplined(np: Np)
    requires Disciplined(np)
    ensures forall v :: Disciplined(LoopError(np, v).np)
  {
  }

  lemma {:induction false} LoopOpenDisciplined(np: Np, words: seq<Word>)
    requires Disciplined(np) && words != []
    ensures forall state: LoopState | state.LoopWhile? || state.LoopUntil? ::
              Disciplined(LoopOpen(np, words, state).np) && !LoopOpen(np, words, state).verdict.Internal?
  {
    LoopErrorDisciplined(np);
    hide LoopError;
  }

  lemma {:induction false} PopLoopDisciplined(np: Np)
    requires Disciplined(np) && TopLp(np).state.LoopDo?
    ensures np.lpndx > 0 && Disciplined(PopLoop(np))
  {
  }

  lemma {:induction false} BreakLoopDisciplined(np: Np)
    requires Disciplined(np)
    ensures Disciplined(BreakLoop(np))
  {
  }

  lemma {:induction false} ExecuteDisciplined(np: Np, argv: seq<Word>, w: World, trace: seq<Event>)
    requires Disciplined(np)
    requires argv != []
    ensures Disciplined(Execute(np, argv, w, trace).np)
  {
    BreakLoopDisciplined(np);
    SaveResultDisciplined(BreakLoop(np), false);
    SaveResultDisciplined(np, w(trace + [Event(np.foffs, argv, np.fail)]));
  }

  lemma {:induction false} ParseCommandDisciplined(np: Np, words: seq<Word>, w: World, trace: seq<Event>)
    requires Disciplined(np)
    ensures Disciplined(ParseCommand(np, words, w, trace).np)
    ensures !ParseCommand(np, words, w, trace).verdict.Internal?
  {
    LoopTokenDisciplined(np, words);
    var p1 := LoopToken(np, words);
    if !p1.verdict.Ok? {
      SaveResultDisciplined(p1.np, true);
    } else {
      ItefTokenMoves(p1.np, p1.rest);
      var p2 := ItefToken(p1.np, p1.rest);
      assert Disciplined(p2.np);
      if !p2.verdict.Ok? {
        SaveResultDisciplined(p2.np, true);
      } else if p2.rest != [] {
        ExecuteDisciplined(p2.np, p2.rest, w, trace);
      }
    }
  }

  /** One command handed to the parser: its arguments and where it was read from, if from a script. */
  datatype Input = Input(words: seq<Word>, foffs: int, loffs: nat, filepos: nat)

  /** The session after any stream of commands, well nested or not. */
  function Feed(np: Np, stream: seq<Input>, w: World, trace: seq<Event>): (r: Executed)
    requires Sane(np)
    ensures Sane(r.np)
    decreases |stream|
  {
    hide ParseCommand;
    if stream == [] then Executed(np, trace, false, Ok)
    else
      var i := stream[0];
      var e := ParseCommand(np.(foffs := i.foffs, loffs := i.loffs, filepos := i.filepos, jump := false), i.words, w, trace);
      if e.verdict.Internal? then e else Feed(e.np, stream[1..], w, e.trace)
  }

  /** Whatever is typed or read, the indices stay inside the stacks, the
      discipline holds, and no "Shouldn't happen" branch is taken. */
  lemma {:induction false} FeedDisciplined(np: Np, stream: seq<Input>, w: World, trace: seq<Event>)
    requires Disciplined(np)
    ensures Disciplined(Feed(np, stream, w, trace).np)
    ensures !Feed(np, stream, w, trace).verdict.Internal?
    decreases |stream|
  {
    hide ParseCommand;
    if stream != [] {
      var i := stream[0];
      var np0 := np.(foffs := i.foffs, loffs := i.loffs, filepos := i.filepos, jump := false);
      ParseCommandDisciplined(np0, i.words, w, trace);
      var e := ParseCommand(np0, i.words, w, trace);
      FeedDisciplined(e.np, stream[1..], w, e.trace);
    }
  }
}
