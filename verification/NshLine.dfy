/**
Splitting a line into commands, as `nsh_parse` does it: jump from delimiter to
delimiter, treat a quoted part as plain text, hand over what stands before each
semicolon, and stop at a newline, a comment or the end. This is what a
character-by-character reading gives, on every line.
*/
module NshLine {
  import opened NshBasics
  import opened NshEscape

  predicate IsDelimiter(c: char)
  {
    IsQuote(c) || c == '#' || c == ';' || c == '\n'
  }

  /** The next delimiter from `i` on, or the end. */
  function NextDelimiter(t: string, i: nat): (j: nat)
    requires i <= |t|
    ensures i <= j <= |t| && (j < |t| ==> IsDelimiter(t[j]))
    ensures forall k :: i <= k < j ==> !IsDelimiter(t[k])
    decreases |t| - i
  {
    if i == |t| || IsDelimiter(t[i]) then i else NextDelimiter(t, i + 1)
  }

  /** The next unquoted `ch` from `i` on, or the end; `quoted` says whether `t[i]` is quoted. */
  function NextUnquoted(t: string, ch: char, i: nat, quoted: bool): (j: nat)
    requires i <= |t|
    ensures i <= j <= |t| && (j < |t| ==> t[j] == ch)
    decreases |t| - i
  {
    if i == |t| then i
    else if t[i] == '\\' && !quoted then NextUnquoted(t, ch, i + 1, true)
    else if t[i] == ch && !quoted then i
    else NextUnquoted(t, ch, i + 1, false)
  }

  /** The commands of a line; `matched` is false when a quote is not closed. */
  datatype Commands = Commands(pieces: seq<string>, matched: bool)

  function Cons(p: string, c: Commands): Commands
  {
    c.(pieces := [p] + c.pieces)
  }

  /** The commands from `start` on, with nothing of interest before `working`. */
  function Split(t: string, start: nat, working: nat): Commands
    requires start <= working <= |t|
    decreases |t| - working
  {
    var p := NextDelimiter(t, working);
    if p == |t| || t[p] == '\n' || t[p] == '#' then Commands([t[start..]], true)
    else if t[p] == ';' then Cons(t[start..p], Split(t, p + 1, p + 1))
    else if p > start && t[p - 1] == '\\' then Split(t, start, working + 1)
    else
      var q := NextUnquoted(t, t[p], p + 1, false);
      if q == |t| then Commands([], false) else Split(t, start, q + 1)
  }

  // ----- the same, one character at a time -----

  /** Outside quotes, or inside them and, if so, behind a backslash. */
  datatype Mode = Outside | Inside(quote: char, escaped: bool)

  /** A quote that a backslash keeps from opening a quoted part: only the character before counts. */
  predicate Disarmed(t: string, start: nat, i: nat)
    requires start <= i < |t|
  {
    i > start && t[i - 1] == '\\'
  }

  function Cut(t: string, start: nat, i: nat, mode: Mode): Commands
    requires start <= i <= |t|
    decreases |t| - i
  {
    if i == |t| then (if mode.Outside? then Commands([t[start..]], true) else Commands([], false))
    else match mode
      case Inside(q, escaped) =>
        Cut(t, start, i + 1,
            if escaped then Inside(q, false)
            else if t[i] == '\\' then Inside(q, true)
            else if t[i] == q then Outside
            else Inside(q, false))
      case Outside =>
        if t[i] == '\n' || t[i] == '#' then Commands([t[start..]], true)
        else if t[i] == ';' then Cons(t[start..i], Cut(t, i + 1, i + 1, Outside))
        else Cut(t, start, i + 1, if IsQuote(t[i]) && !Disarmed(t, start, i) then Inside(t[i], false) else Outside)
  }

  lemma {:induction false} CutSkips(t: string, start: nat, i: nat)
    requires start <= i <= |t|
    ensures Cut(t, start, i, Outside) == Cut(t, start, NextDelimiter(t, i), Outside)
    decreases |t| - i
  {
    if i < |t| && !IsDelimiter(t[i]) {
      CutSkips(t, start, i + 1);
    }
  }

  lemma {:induction false} CutInside(t: string, start: nat, i: nat, q: char, escaped: bool)
    requires start <= i <= |t| && q != '\\'
    ensures var j := NextUnquoted(t, q, i, escaped);
            Cut(t, start, i, Inside(q, escaped)) == if j == |t| then Commands([], false) else Cut(t, start, j + 1, Outside)
    decreases |t| - i
  {
    if i < |t| {
      CutInside(t, start, i + 1, q, false);
      CutInside(t, start, i + 1, q, true);
    }
  }

  lemma {:induction false} CutHere(t: string, start: nat, p: nat)
    requires start <= p < |t| && IsDelimiter(t[p])
    ensures Cut(t, start, p, Outside) ==
            if t[p] == '\n' || t[p] == '#' then Commands([t[start..]], true)
            else if t[p] == ';' then Cons(t[start..p], Cut(t, p + 1, p + 1, Outside))
            else Cut(t, start, p + 1, if Disarmed(t, start, p) then Outside else Inside(t[p], false))
  {
  }

  lemma {:induction false} CutEnd(t: string, start: nat)
    requires start <= |t|
    ensures Cut(t, start, |t|, Outside) == Commands([t[start..]], true)
  {
  }

  /** A character that is no delimiter, or a disarmed quote, is passed over. */
  lemma {:induction false} CutPasses(t: string, start: nat, i: nat)
    requires start <= i < |t| && (!IsDelimiter(t[i]) || (IsQuote(t[i]) && Disarmed(t, start, i)))
    ensures Cut(t, start, i, Outside) == Cut(t, start, i + 1, Outside)
  {
  }

  /** Jumping from delimiter to delimiter gives what reading every character gives. */
  lemma {:induction false} SplitIsCut(t: string, start: nat, working: nat)
    requires start <= working <= |t|
    ensures Split(t, start, working) == Cut(t, start, working, Outside)
    decreases |t| - working
  {
    hide NextDelimiter, NextUnquoted, Cut, Cons;
    CutSkips(t, start, working);
    var p := NextDelimiter(t, working);
    if p == |t| {
      CutEnd(t, start);
    } else {
      CutHere(t, start, p);
      if t[p] == ';' {
        SplitIsCut(t, p + 1, p + 1);
      } else if IsQuote(t[p]) {
        if Disarmed(t, start, p) {
          CutPasses(t, start, working);
          SplitIsCut(t, start, working + 1);
        } else {
          CutInside(t, start, p + 1, t[p], false);
          var q := NextUnquoted(t, t[p], p + 1, false);
          if q < |t| {
            SplitIsCut(t, start, q + 1);
          }
        }
      }
    }
  }

  // ----- in place -----

  /** How a command that was handed over ended. */
  datatype Outcome = Fine | Failed | Jump

  /** What the shell answers, given the commands handed over so far. */
  type Runner = seq<string> -> Outcome

  /** The commands handed over: all of them, or up to the first that fails or jumps. */
  function HandedOver(c: Commands, run: Runner, before: seq<string>): (r: seq<string>)
    decreases |c.pieces|
  {
    if c.pieces == [] then before
    else
      var now := before + [c.pieces[0]];
      if run(now) == Fine then HandedOver(c.(pieces := c.pieces[1..]), run, now) else now
  }

  /** Whether the line as a whole is reported as a success. */
  function LineOk(c: Commands, run: Runner, before: seq<string>): bool
    decreases |c.pieces|
  {
    if c.pieces == [] then c.matched
    else
      var now := before + [c.pieces[0]];
      match run(now)
      case Fine => LineOk(c.(pieces := c.pieces[1..]), run, now)
      case Failed => false
      case Jump => true
  }

  /** One command of several. */
  lemma {:induction false} HandOne(p: string, c: Commands, run: Runner, before: seq<string>)
    ensures var now := before + [p];
            && HandedOver(Cons(p, c), run, before) == (if run(now) == Fine then HandedOver(c, run, now) else now)
            && LineOk(Cons(p, c), run, before) == (match run(now) case Fine => LineOk(c, run, now) case Failed => false case Jump => true)
  {
    assert Cons(p, c).(pieces := Cons(p, c).pieces[1..]) == c;
  }

  /** When every command is fine, all commands of the line are handed over. */
  lemma {:induction false} AllFine(c: Commands, run: Runner, before: seq<string>)
    requires forall h :: run(h) == Fine
    ensures HandedOver(c, run, before) == before + c.pieces && LineOk(c, run, before) == c.matched
    decreases |c.pieces|
  {
    if c.pieces != [] {
      AllFine(c.(pieces := c.pieces[1..]), run, before + [c.pieces[0]]);
      assert before + [c.pieces[0]] + c.pieces[1..] == before + c.pieces;
    }
  }

  /** The pieces are handed over in order up to and including the first whose command is not fine. A
      failure there fails the line, a jump does not; without either the line is as good as its quotes. */
  lemma {:induction false} HandedExactly(c: Commands, run: Runner, before: seq<string>) returns (n: nat)
    ensures n <= |c.pieces| && HandedOver(c, run, before) == before + c.pieces[..n]
    ensures forall k :: 0 < k < n ==> run(before + c.pieces[..k]) == Fine
    ensures if n > 0 && run(before + c.pieces[..n]) != Fine then LineOk(c, run, before) == (run(before + c.pieces[..n]) == Jump)
            else n == |c.pieces| && LineOk(c, run, before) == c.matched
    decreases |c.pieces|
  {
    if c.pieces == [] {
      n := 0;
      assert before + c.pieces[..0] == before;
    } else {
      var now, rest := before + [c.pieces[0]], c.(pieces := c.pieces[1..]);
      assert before + c.pieces[..1] == now;
      if run(now) == Fine {
        var k := HandedExactly(rest, run, now);
        n := k + 1;
        assert forall j :: 0 <= j <= k ==> now + rest.pieces[..j] == before + c.pieces[..j + 1];
        assert forall j :: 1 < j < n ==> before + c.pieces[..j] == now + rest.pieces[..j - 1];
      } else {
        n := 1;
      }
    }
  }

  /** From `from` on the buffer still holds the line `t`, terminated. */
  ghost predicate Holds(a: array<char>, from: nat, t: string)
    reads a
  {
    && from <= |t| < a.Length && a[|t|] == '\0'
    && forall k :: from <= k < |t| ==> a[k] == t[k] && t[k] != '\0'
  }

  /** `strcspn` with the line delimiters. */
  method FindDelimiter(a: array<char>, i: nat, ghost t: string) returns (j: nat)
    requires Holds(a, i, t)
    ensures j == NextDelimiter(t, i)
  {
    j := i;
    while a[j] != '\0' && !IsDelimiter(a[j])
      invariant i <= j <= |t| && NextDelimiter(t, j) == NextDelimiter(t, i)
      decreases |t| - j
    {
      j := j + 1;
    }
  }

  /** `nsh_strchr` from `i` on. */
  method FindUnquoted(a: array<char>, ch: char, i: nat, ghost t: string) returns (j: nat)
    requires Holds(a, i, t) && ch != '\0'
    ensures j == NextUnquoted(t, ch, i, false)
  {
    var quoted := false;
    j := i;
    while a[j] != '\0'
      invariant i <= j <= |t| && NextUnquoted(t, ch, j, quoted) == NextUnquoted(t, ch, i, false)
      decreases |t| - j
    {
      if a[j] == '\\' && !quoted {
        quoted := true;
      } else if a[j] == ch && !quoted {
        return;
      } else {
        quoted := false;
      }
      j := j + 1;
    }
  }

  /** The string from `i` to its terminator. */
  method ReadString(a: array<char>, i: nat, ghost t: string) returns (s: string)
    requires Holds(a, i, t)
    ensures s == t[i..]
  {
    var j := i;
    while a[j] != '\0'
      invariant i <= j <= |t|
      decreases |t| - j
    {
      j := j + 1;
    }
    s := a[i..j];
  }

  /** The string from `start` to a semicolon, which becomes its terminator. */
  method CutOff(a: array<char>, start: nat, ptr: nat, ghost t: string) returns (s: string)
    requires start <= ptr < |t| && Holds(a, start, t)
    modifies a
    ensures s == t[start..ptr] && Holds(a, ptr + 1, t)
  {
    s := a[start..ptr];
    a[ptr] := '\0';
  }

  /** The line is on its way from `start` on: what has been handed over and what is still to come make up the whole. */
  ghost predicate OnCourse(t: string, start: nat, working: nat, run: Runner, handed: seq<string>)
  {
    && start <= working <= |t|
    && HandedOver(Split(t, start, working), run, handed) == HandedOver(Split(t, 0, 0), run, [])
    && LineOk(Split(t, start, working), run, handed) == LineOk(Split(t, 0, 0), run, [])
  }

  /** The last command: everything from `start` on, comment included. */
  lemma {:induction false} CourseLast(t: string, start: nat, working: nat, run: Runner, handed: seq<string>)
    requires OnCourse(t, start, working, run, handed)
    requires var p := NextDelimiter(t, working); p == |t| || t[p] == '\n' || t[p] == '#'
    ensures var now := handed + [t[start..]];
            now == HandedOver(Split(t, 0, 0), run, []) && (run(now) != Failed) == LineOk(Split(t, 0, 0), run, [])
  {
    hide NextDelimiter;
    HandOne(t[start..], Commands([], true), run, handed);
    assert Split(t, start, working) == Cons(t[start..], Commands([], true));
  }

  /** A command before a semicolon. */
  lemma {:induction false} CourseSemicolon(t: string, start: nat, working: nat, run: Runner, handed: seq<string>)
    requires OnCourse(t, start, working, run, handed)
    requires var p := NextDelimiter(t, working); p < |t| && t[p] == ';'
    ensures var p := NextDelimiter(t, working);
            var now := handed + [t[start..p]];
            if run(now) == Fine then OnCourse(t, p + 1, p + 1, run, now)
            else now == HandedOver(Split(t, 0, 0), run, []) && (run(now) == Jump) == LineOk(Split(t, 0, 0), run, [])
  {
    hide NextDelimiter, HandedOver, LineOk;
    var p := NextDelimiter(t, working);
    HandOne(t[start..p], Split(t, p + 1, p + 1), run, handed);
  }

  /** A quote: the scan moves on, nothing is handed over. */
  lemma {:induction false} CourseQuote(t: string, start: nat, working: nat, run: Runner, handed: seq<string>)
    requires OnCourse(t, start, working, run, handed)
    requires var p := NextDelimiter(t, working); p < |t| && IsQuote(t[p])
    ensures var p := NextDelimiter(t, working);
            var q := NextUnquoted(t, t[p], p + 1, false);
            if p > start && t[p - 1] == '\\' then OnCourse(t, start, working + 1, run, handed)
            else if q < |t| then OnCourse(t, start, q + 1, run, handed)
            else handed == HandedOver(Split(t, 0, 0), run, []) && !LineOk(Split(t, 0, 0), run, [])
  {
    hide NextDelimiter, NextUnquoted;
  }

  /** `nsh_parse`: the commands of a line are handed over one by one. */
  method ParseLine(a: array<char>, run: Runner, ghost t: string) returns (handed: seq<string>, ok: bool)
    requires Holds(a, 0, t)
    modifies a
    ensures handed == HandedOver(Cut(t, 0, 0, Outside), run, []) && ok == LineOk(Cut(t, 0, 0, Outside), run, [])
    ensures (forall h :: run(h) == Fine) ==> handed == Cut(t, 0, 0, Outside).pieces && ok == Cut(t, 0, 0, Outside).matched
  {
    hide NextDelimiter, NextUnquoted, HandedOver, LineOk, Split, Cut;
    SplitIsCut(t, 0, 0);
    if forall h :: run(h) == Fine {
      AllFine(Split(t, 0, 0), run, []);
    }
    handed := [];
    var start, working := 0, 0;
    while true
      invariant Holds(a, start, t) && OnCourse(t, start, working, run, handed)
      decreases |t| - working
    {
      var ptr := FindDelimiter(a, working, t);
      if a[ptr] == '\0' || a[ptr] == '\n' || a[ptr] == '#' {
        CourseLast(t, start, working, run, handed);
        var last := ReadString(a, start, t);
        handed := handed + [last];
        return handed, run(handed) != Failed;
      } else if a[ptr] == ';' {
        CourseSemicolon(t, start, working, run, handed);
        var piece := CutOff(a, start, ptr, t);
        handed := handed + [piece];
        if run(handed) != Fine {
          return handed, run(handed) == Jump;
        }
        start, working := ptr + 1, ptr + 1;
      } else {
        CourseQuote(t, start, working, run, handed);
        if ptr > start && a[ptr - 1] == '\\' {
          working := working + 1;
        } else {
          var tmp := FindUnquoted(a, a[ptr], ptr + 1, t);
          if a[tmp] == '\0' {
            return handed, false;
          }
          working := tmp + 1;
        }
      }
    }
  }
}
