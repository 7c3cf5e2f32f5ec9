/**
The parser state as the source keeps it: two fixed-size arrays and their
indices, updated in place. Every method is proved to do to the arrays what the
function of the same step in `NshControl` does to the value, and `RunScript`
is the line loop of `nsh_script`.
*/
module NshParser {
  import opened NshControl
  import NshAbort
  import NshRefinement
  import NshScript

  class Parser {
    const iestate: array<Itef>
    const lpstate: array<Loop>
    var iendx: nat
    var lpndx: nat
    var fail: bool
    var jump: bool
    var fd: int
    var foffs: int
    var loffs: nat
    var filepos: nat

    ghost function View(): Np
      reads this, iestate, lpstate
    {
      Np(iestate[..], iendx, lpstate[..], lpndx, fail, jump, fd, foffs, loffs, filepos)
    }

    ghost predicate Valid()
      reads this, iestate, lpstate
    {
      Sane(View())
    }

    constructor (depth: nat)
      requires depth > 0
      ensures Valid() && fresh(iestate) && fresh(lpstate)
      ensures Disciplined(View()) && iendx == 0 && lpndx == 0 && fd == -1
      ensures iestate.Length == depth
    {
      iestate := new Itef[depth](_ => Itef(ItefNormal, false, false, false));
      lpstate := new Loop[depth](_ => Loop(LoopNormal, false, 0, 0));
      iendx, lpndx, fail, jump, fd, foffs, loffs, filepos := 0, 0, false, false, -1, 0, 0, 0;
    }

    method HasLoopEnabled() returns (r: bool)
      requires Valid()
      ensures r == LoopEnabled(View())
    {
      if lpstate[lpndx].state == LoopDo {
        return lpstate[lpndx].enable;
      }
      return true;
    }

    method HasItefEnabled() returns (r: bool)
      requires Valid()
      ensures r == ItefEnabled(View())
    {
      r := !iestate[iendx].disabled;
      if r {
        match iestate[iendx].state {
          case ItefThen => r := !iestate[iendx].ifcond;
          case ItefElse => r := iestate[iendx].ifcond;
          case _ =>
        }
      }
    }

    method HasCmdEnabled() returns (r: bool)
      requires Valid()
      ensures r == CmdEnabled(View())
    {
      r := HasLoopEnabled();
      if r {
        r := HasItefEnabled();
      }
    }

    method StoreResult(failed: bool) returns (error: bool)
      requires Valid()
      modifies this`fail, iestate, lpstate
      ensures Valid()
      ensures (View(), error) == SaveResult(old(View()), failed)
    {
      if lpstate[lpndx].state == LoopWhile {
        fail := false;
        lpstate[lpndx] := lpstate[lpndx].(enable := !failed);
        return false;
      } else if lpstate[lpndx].state == LoopUntil {
        fail := false;
        lpstate[lpndx] := lpstate[lpndx].(enable := failed);
        return false;
      } else if iestate[iendx].state == ItefIf {
        fail := false;
        iestate[iendx] := iestate[iendx].(ifcond := iestate[iendx].inverted != failed);
        return false;
      }
      fail := failed;
      return failed;
    }

    /** The `errout` exit of `nsh_loop`. */
    method ResetLoops()
      requires Valid()
      modifies this`jump, this`lpndx, lpstate
      ensures Valid()
      ensures View() == LoopError(old(View()), Syntax).np
    {
      jump := false;
      lpndx := 0;
      lpstate[0] := lpstate[0].(state := LoopNormal, enable := true, topoffs := 0);
    }

    method HandleLoop(words: seq<Word>) returns (rest: seq<Word>, verdict: Verdict)
      requires Valid()
      modifies this`jump, this`lpndx, this`filepos, lpstate
      ensures Valid()
      ensures Parsed(View(), rest, verdict) == LoopToken(old(View()), words)
    {
      rest, verdict := words, Ok;
      if words != [] {
        var cmd := words[0];
        if cmd == WWhile || cmd == WUntil {
          rest, verdict := HandleWhile(words);
        } else if cmd == WDo {
          if lpstate[lpndx].state != LoopWhile && lpstate[lpndx].state != LoopUntil {
            ResetLoops();
            return [], Syntax;
          }
          lpstate[lpndx] := lpstate[lpndx].(state := LoopDo);
          rest := words[1..];
        } else if cmd == WDone {
          rest, verdict := HandleDone(words);
        } else if lpstate[lpndx].state == LoopWhile || lpstate[lpndx].state == LoopUntil {
          ResetLoops();
          return [], Syntax;
        }
      }
    }

    method HandleWhile(words: seq<Word>) returns (rest: seq<Word>, verdict: Verdict)
      requires Valid()
      requires words != [] && (words[0] == WWhile || words[0] == WUntil)
      modifies this`jump, this`lpndx, this`filepos, lpstate
      ensures Valid()
      ensures Parsed(View(), rest, verdict) == LoopToken(old(View()), words)
    {
      if |words| < 2 || words[1] == Text("")
         || iestate[iendx].state == ItefIf
         || lpstate[lpndx].state == LoopWhile || lpstate[lpndx].state == LoopUntil
         || fd < 0 || foffs < 0
         || lpndx >= lpstate.Length - 1 {
        ResetLoops();
        return [], Syntax;
      }
      var state := if words[0] == WWhile then LoopWhile else LoopUntil;
      var enable := HasCmdEnabled();
      jump := false;
      lpndx := lpndx + 1;
      lpstate[lpndx] := Loop(state, enable, iendx, foffs + loffs);
      rest, verdict := words[1..], Ok;
    }

    method HandleDone(words: seq<Word>) returns (rest: seq<Word>, verdict: Verdict)
      requires Valid()
      requires words != [] && words[0] == WDone
      modifies this`jump, this`lpndx, this`filepos, lpstate
      ensures Valid()
      ensures Parsed(View(), rest, verdict) == LoopToken(old(View()), words)
    {
      if |words| > 1 || lpstate[lpndx].state != LoopDo {
        ResetLoops();
        return [], Syntax;
      }
      if lpndx < 1 {
        ResetLoops();
        return [], Internal;
      }
      if lpstate[lpndx].enable {
        filepos := lpstate[lpndx].topoffs;
        jump := true;
      } else {
        lpstate[lpndx] := lpstate[lpndx].(enable := true);
      }
      lpstate[lpndx] := lpstate[lpndx].(state := LoopNormal);
      lpndx := lpndx - 1;
      rest, verdict := [], Ok;
    }

    /** The `errout` exit of `nsh_itef`. */
    method ResetItef()
      requires Valid()
      modifies this`iendx, iestate
      ensures Valid()
      ensures View() == ItefError(old(View()), Syntax).np
    {
      iendx := 0;
      iestate[0] := Itef(ItefNormal, false, false, false);
    }

    method HandleItef(words: seq<Word>) returns (rest: seq<Word>, verdict: Verdict)
      requires Valid()
      modifies this`iendx, iestate
      ensures Valid()
      ensures Parsed(View(), rest, verdict) == ItefToken(old(View()), words)
    {
      rest, verdict := words, Ok;
      if words != [] {
        var cmd := words[0];
        if cmd == WIf {
          rest, verdict := HandleIf(words);
        } else if cmd == WThen {
          if iestate[iendx].state != ItefIf {
            ResetItef();
            return [], Syntax;
          }
          iestate[iendx] := iestate[iendx].(state := ItefThen);
          rest := words[1..];
        } else if cmd == WElse {
          if iestate[iendx].state != ItefThen {
            ResetItef();
            return [], Syntax;
          }
          iestate[iendx] := iestate[iendx].(state := ItefElse);
          rest := words[1..];
        } else if cmd == WFi {
          if |words| > 1 || (iestate[iendx].state != ItefThen && iestate[iendx].state != ItefElse) {
            ResetItef();
            return [], Syntax;
          }
          if iendx < 1 {
            ResetItef();
            return [], Internal;
          }
          iendx := iendx - 1;
          rest := [];
        } else if iestate[iendx].state == ItefIf {
          ResetItef();
          return [], Syntax;
        }
      }
    }

    method HandleIf(words: seq<Word>) returns (rest: seq<Word>, verdict: Verdict)
      requires Valid()
      requires words != [] && words[0] == WIf
      modifies this`iendx, iestate
      ensures Valid()
      ensures Parsed(View(), rest, verdict) == ItefToken(old(View()), words)
    {
      var inverted := |words| > 1 && words[1] == WBang;
      rest := if inverted then words[2..] else words[1..];
      if rest == [] || rest[0] == Text("")
         || iestate[iendx].state == ItefIf
         || iendx >= iestate.Length - 1 {
        ResetItef();
        return [], Syntax;
      }
      var enabled := HasCmdEnabled();
      iendx := iendx + 1;
      iestate[iendx] := Itef(ItefIf, !enabled, false, inverted);
      verdict := Ok;
    }

    method HandleBreak()
      requires Valid()
      modifies this`iendx, lpstate
      ensures Valid()
      ensures View() == BreakLoop(old(View()))
    {
      if lpstate[lpndx].state == LoopDo {
        iendx := lpstate[lpndx].iendx;
        lpstate[lpndx] := lpstate[lpndx].(enable := false);
      }
    }

    method RunCommand(words: seq<Word>, w: World, trace: seq<Event>)
      returns (trace': seq<Event>, error: bool, verdict: Verdict)
      requires Valid()
      modifies this`iendx, this`lpndx, this`fail, this`jump, this`filepos, iestate, lpstate
      ensures Valid()
      ensures Executed(View(), trace', error, verdict) == ParseCommand(old(View()), words, w, trace)
    {
      trace', error := trace, false;
      var rest;
      rest, verdict := HandleLoop(words);
      if verdict != Ok {
        error := StoreResult(true);
        return;
      }
      rest, verdict := HandleItef(rest);
      if verdict != Ok {
        error := StoreResult(true);
        return;
      }
      var enabled := HasCmdEnabled();
      if rest == [] || !enabled {
        return;
      }
      if rest[0] == WBreak {
        HandleBreak();
        error := StoreResult(false);
      } else {
        trace' := trace + [Event(foffs, rest, fail)];
        error := StoreResult(w(trace'));
      }
    }

    /** The read-parse loop of `nsh_script`. The budget stops a script that would loop for ever. */
    method RunScript(lines: seq<seq<Word>>, w: World, ignore: bool, trace0: seq<Event>, budget0: nat)
      returns (r: NshScript.Result)
      requires Valid()
      modifies this`iendx, this`lpndx, this`fail, this`jump, this`foffs, this`loffs, this`filepos, iestate, lpstate
      ensures Valid()
      ensures NshScript.Ended(r, View()) == NshScript.Run(lines, w, ignore, old(View()), trace0, budget0)
      ensures fail == r.fail && (old(Disciplined(View())) ==> Disciplined(View()))
    {
      hide ParseCommand;
      if Disciplined(View()) {
        NshScript.RunDisciplined(lines, w, ignore, View(), trace0, budget0);
      }
      var trace, budget := trace0, budget0;
      while filepos < |lines|
        invariant Valid()
        invariant NshScript.Run(lines, w, ignore, View(), trace, budget) ==
                  NshScript.Run(lines, w, ignore, old(View()), trace0, budget0)
        decreases budget, |lines| - filepos
      {
        var at := filepos;
        foffs, loffs, jump := filepos, 0, false;
        filepos := filepos + 1;
        var error, verdict;
        trace, error, verdict := RunCommand(lines[at], w, trace);
        if error && !ignore {
          return NshScript.Result(NshScript.Aborted, trace, fail, budget);
        }
        if filepos <= at {
          if budget == 0 {
            return NshScript.Result(NshScript.Spent, trace, fail, 0);
          }
          budget := budget - 1;
        }
      }
      r := NshScript.Result(NshScript.Normal, trace, fail, budget);
    }

    /** `nsh_script`: open the script (`handle` is negative when that fails), run it, and go
        back to the parent's stream. Each open file has a position of its own. When the
        session is between commands and the script is in the fragment, what runs is what
        the evaluator says; a script that gets to its end leaves both stacks as they were, and one
        that is given up leaves the ifs and loops around the failed command open. */
    method SourceScript(lines: seq<seq<Word>>, handle: int, w: World, ignore: bool, budget: nat, ghost b: NshScript.Block)
      returns (found: bool, r: NshScript.Result)
      requires Valid()
      modifies this, iestate, lpstate
      ensures Valid() && fd == old(fd) && filepos == old(filepos)
      ensures found == (handle >= 0)
      ensures !found ==> View() == old(View())
      ensures found ==>
                var end := NshScript.Run(lines, w, ignore, old(View()).(fd := handle, filepos := 0), [], budget);
                r == end.out && View() == end.np.(fd := old(fd), filepos := old(filepos))
      ensures found && lines == NshScript.Lines(b) && NshRefinement.Ready(old(View()).(fd := handle, filepos := 0), b) ==>
                r == NshScript.EvalBlock(b, 0, false, w, ignore, [], old(fail), budget) && LeavesBehind(old(View()), b, ignore, r, View())
      ensures fail == r.fail && (old(Disciplined(View())) ==> Disciplined(View()))
    {
      hide NshScript.Run, NshScript.EvalBlock, NshScript.Lines, NshRefinement.Ready, Disciplined, LeavesBehind;
      var savestream, savepos := fd, filepos;
      found := handle >= 0;
      if !found {
        return found, NshScript.Result(NshScript.Aborted, [], fail, budget);
      }
      fd, filepos := handle, 0;
      ghost var np := View();
      StreamIsFree(old(View()), handle, 0);
      if NshRefinement.Ready(np, b) {
        SourcedEnds(old(View()), handle, b, w, ignore, budget);
      }
      r := RunScript(lines, w, ignore, [], budget);
      ghost var end := View();
      fd, filepos := savestream, savepos;
      StreamIsFree(end, savestream, savepos);
    }
  }

  /** What a sourced script leaves behind: both stacks as they were if it got to its end, or with the ifs
      and loops around the failed command on top if it was given up. */
  ghost predicate LeavesBehind(np: Np, b: NshScript.Block, ignore: bool, r: NshScript.Result, np': Np)
  {
    && (r.flow.Normal? ==> NshRefinement.Same(np, np'))
    && (r.flow.Aborted? && !ignore ==> NshAbort.Left(np, np', NshAbort.Opened(b, 0, NshAbort.LastLine(r.trace))))
  }

  lemma {:induction false} SourcedEnds(np: Np, handle: int, b: NshScript.Block, w: World, ignore: bool, budget: nat)
    requires NshRefinement.Ready(np.(fd := handle, filepos := 0), b)
    ensures Sane(np.(fd := handle, filepos := 0))
    ensures var end := NshScript.Run(NshScript.Lines(b), w, ignore, np.(fd := handle, filepos := 0), [], budget);
            && end.out == NshScript.EvalBlock(b, 0, false, w, ignore, [], np.fail, budget)
            && LeavesBehind(np, b, ignore, end.out, end.np.(fd := np.fd, filepos := np.filepos))
  {
    hide NshScript.Run, NshScript.EvalBlock, NshScript.Lines, NshRefinement.Ready, NshAbort.Opened, NshAbort.LastLine;
    var np1 := np.(fd := handle, filepos := 0);
    NshRefinement.ReadyIsSane(np1, b);
    NshRefinement.SessionRefinement(b, np1, w, ignore, budget);
    var end := NshScript.Run(NshScript.Lines(b), w, ignore, np1, [], budget);
    if end.out.flow.Aborted? && !ignore {
      NshAbort.AbortedExactly(b, np1, w, budget);
    }
  }

  /** The stack discipline does not depend on the stream. */
  lemma {:induction false} StreamIsFree(np: Np, fd: int, filepos: nat)
    ensures Disciplined(np.(fd := fd, filepos := filepos)) <==> Disciplined(np)
  {
  }
}
