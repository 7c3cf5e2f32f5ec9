/**
Splitting one argument off a command line in place. The scan skips to the next
word, deletes the quotes around quoted parts by moving the text down, keeps
back-quoted parts as they are, ends the word with a terminator and remembers
where the rest of the line begins.
*/
module NshArgument {
  import opened NshBasics
  import opened NshEscape

  predicate IsSeparator(c: char)
  {
    c == ' ' || c == '\t' || c == '\n'
  }

  /** Text without backslashes. */
  predicate Plain(t: string)
  {
    '\\' !in t && '\0' !in t
  }

  /** What begins a part in which separators have no meaning. */
  predicate Opens(c: char)
  {
    IsQuote(c) || c == '`'
  }

  // ----- what one argument is -----

  datatype Argument =
    | NoMore                              // nothing but separators
    | Pipe(rest: string)                  // the word begins with a bar
    | Comment                             // the rest of the line is a comment
    | Unmatched                           // a quote that is not closed
    | Word(text: string, rest: string)

  function IndexOf(t: string, c: char): (i: nat)
    ensures i <= |t| && (i < |t| ==> t[i] == c) && forall k :: 0 <= k < i ==> t[k] != c
  {
    if t == "" || t[0] == c then 0 else 1 + IndexOf(t[1..], c)
  }

  /** The word at the front of `t`, quoted parts jumped over whole. */
  function ScanWord(t: string): (r: Argument)
    ensures r.Word? || r.Unmatched?
    decreases |t|
  {
    if t == "" then Word("", "")
    else if IsSeparator(t[0]) then Word("", t[1..])
    else if Opens(t[0]) then
      var i := IndexOf(t[1..], t[0]);
      if i == |t| - 1 then Unmatched else Prepend(Part(t, i), ScanWord(t[i + 2..]))
    else Prepend([t[0]], ScanWord(t[1..]))
  }

  /** What is kept of a quoted part with `i` characters inside: all of it for back-quotes. */
  function Part(t: string, i: nat): string
    requires i + 2 <= |t|
  {
    if t[0] == '`' then t[..i + 2] else t[1..i + 1]
  }

  function Prepend(p: string, r: Argument): Argument
    requires r.Word? || r.Unmatched?
  {
    if r.Unmatched? then r else Word(p + r.text, r.rest)
  }

  function SkipSeparators(t: string): (r: string)
    ensures r == "" || !IsSeparator(r[0])
  {
    if t != "" && IsSeparator(t[0]) then SkipSeparators(t[1..]) else t
  }

  // ----- the same, one character at a time -----

  datatype Mode = Outside | Inside(quote: char)

  function Move(mode: Mode, c: char): Mode
  {
    match mode
    case Outside => if Opens(c) then Inside(c) else Outside
    case Inside(q) => if c == q then Outside else mode
  }

  /** A quote is dropped when it opens or closes a quoted part. */
  predicate Dropped(mode: Mode, c: char)
  {
    Move(mode, c) != mode && c != '`'
  }

  /** Read to the first separator outside quotes, keeping all but the quotes that open and close. */
  function Read(t: string, mode: Mode): (r: Argument)
    ensures r.Word? || r.Unmatched?
    decreases |t|
  {
    if t == "" then (if mode.Outside? then Word("", "") else Unmatched)
    else if mode.Outside? && IsSeparator(t[0]) then Word("", t[1..])
    else Prepend(if Dropped(mode, t[0]) then "" else [t[0]], Read(t[1..], Move(mode, t[0])))
  }

  /** The next argument of a line. */
  function NextArgument(t: string): Argument
  {
    var u := SkipSeparators(t);
    if u == "" then NoMore
    else if u[0] == '|' then Pipe(u[1..])
    else if u[0] == '#' then Comment
    else Read(u, Outside)
  }

  lemma {:induction false} PrependTwice(p: string, q: string, r: Argument)
    requires r.Word? || r.Unmatched?
    ensures Prepend(p, Prepend(q, r)) == Prepend(p + q, r)
    ensures Prepend("", r) == r
  {
    if r.Word? {
      assert p + (q + r.text) == (p + q) + r.text;
    }
  }

  /** One character inside a quoted part. */
  lemma {:induction false} InsideStep(t: string, q: char)
    requires Opens(q)
    ensures t == "" ==> Read(t, Inside(q)) == Unmatched && IndexOf(t, q) == 0
    ensures t != "" && t[0] == q ==> Read(t, Inside(q)) == Prepend(if q == '`' then [q] else "", Read(t[1..], Outside)) && IndexOf(t, q) == 0
    ensures t != "" && t[0] != q ==> Read(t, Inside(q)) == Prepend([t[0]], Read(t[1..], Inside(q))) && IndexOf(t, q) == 1 + IndexOf(t[1..], q)
  {
  }

  /** Inside a quoted part everything up to its closing quote is kept. */
  lemma {:induction false} ReadInside(t: string, q: char)
    requires Opens(q)
    ensures var i := IndexOf(t, q);
            Read(t, Inside(q)) ==
            if i == |t| then Unmatched else Prepend(if q == '`' then t[..i + 1] else t[..i], Read(t[i + 1..], Outside))
    decreases |t|
  {
    hide Read, IndexOf;
    InsideStep(t, q);
    if t != "" {
      if t[0] == q {
        PrependTwice("", "", Read(t[1..], Outside));
        assert t[..1] == [t[0]];
      } else {
        ReadInside(t[1..], q);
        var i := IndexOf(t[1..], q);
        if i < |t| - 1 {
          assert t[1..][i + 1..] == t[i + 2..];
          assert t[..i + 1] == [t[0]] + t[1..][..i];
          assert t[..i + 2] == [t[0]] + t[1..][..i + 1];
          PrependTwice([t[0]], if q == '`' then t[1..][..i + 1] else t[1..][..i], Read(t[i + 2..], Outside));
        }
      }
    }
  }

  /** Jumping over quoted parts finds the word the automaton reads. */
  lemma {:induction false} ScanIsRead(t: string)
    ensures ScanWord(t) == Read(t, Outside)
    decreases |t|
  {
    if t != "" && !IsSeparator(t[0]) {
      if Opens(t[0]) {
        ScanPart(t);
      } else {
        ScanIsRead(t[1..]);
      }
    }
  }

  lemma {:induction false} ScanQuoted(t: string)
    requires t != "" && Opens(t[0])
    ensures var i := IndexOf(t[1..], t[0]);
            ScanWord(t) == if i == |t| - 1 then Unmatched else Prepend(Part(t, i), ScanWord(t[i + 2..]))
  {
  }

  lemma {:induction false} ReadOpens(t: string)
    requires t != "" && Opens(t[0])
    ensures Read(t, Outside) == Prepend(if t[0] == '`' then [t[0]] else "", Read(t[1..], Inside(t[0])))
  {
  }

  lemma {:induction false} ScanPart(t: string)
    requires t != "" && Opens(t[0])
    ensures ScanWord(t) == Read(t, Outside)
    decreases |t|, 0
  {
    hide ScanWord, Read, IndexOf;
    var q, inside := t[0], t[1..];
    var i := IndexOf(inside, q);
    ReadInside(inside, q);
    ReadOpens(t);
    ScanQuoted(t);
    var first := if q == '`' then [q] else "";
    if i < |inside| {
      assert inside[i + 1..] == t[i + 2..];
      ScanIsRead(t[i + 2..]);
      var kept := if q == '`' then inside[..i + 1] else inside[..i];
      PrependTwice(first, kept, Read(t[i + 2..], Outside));
      assert Part(t, i) == first + kept;
    }
  }

  // ----- in place -----

  /** From `from` on the array holds a string that ends at `n`. */
  ghost predicate EndsAt(a: array<char>, from: nat, n: nat)
    reads a
  {
    from <= n < a.Length && a[n] == '\0' && forall k :: from <= k < n ==> a[k] != '\0'
  }

  /** The string at `from` without the characters at `from` and `qend`, and its terminator. */
  ghost function Unquoted(was: string, from: nat, qend: nat, n: nat): (r: string)
    requires from < qend < n < |was|
    ensures |r| == n - 1 - from
    ensures forall k :: 0 <= k < |r| ==> r[k] == was[if from + 1 + k < qend then from + 1 + k else from + 2 + k]
  {
    was[from + 1..qend] + was[qend + 1..n + 1]
  }

  /** `nsh_rmquotes`: move the text down over both quotes. */
  method RemoveQuotes(a: array<char>, qbegin: nat, qend: nat, ghost n: nat) returns (back: int)
    requires qbegin < qend < n && EndsAt(a, qbegin, n)
    modifies a
    ensures a[..qbegin] == old(a[..qbegin])
    ensures EndsAt(a, qbegin, n - 2)
    ensures a[qbegin..n - 2] == old(a[qbegin + 1..qend]) + old(a[qend + 1..n])
    ensures back == qend - 2
  {
    ghost var was := a[..];
    ghost var goal := Unquoted(was, qbegin, qend, n);
    assert goal[..|goal| - 1] == old(a[qbegin + 1..qend]) + old(a[qend + 1..n]);
    hide Unquoted;
    var dst, ptr := qbegin, qbegin + 1;
    var ch := ' ';
    while ch != '\0'
      invariant qbegin <= dst <= n - 1 && ptr == (if dst + 1 <= qend then dst + 1 else dst + 2)
      invariant ch == '\0' <==> dst == n - 1
      invariant forall k :: 0 <= k < qbegin ==> a[k] == was[k]
      invariant forall k :: qbegin <= k < dst ==> a[k] == goal[k - qbegin]
      invariant forall k :: ptr <= k < a.Length ==> a[k] == was[k]
      decreases n - dst
    {
      if ptr == qend {
        ptr := ptr + 1;
      }
      ch := a[ptr];
      assert ch == goal[dst - qbegin];
      a[dst] := ch;
      dst, ptr := dst + 1, ptr + 1;
    }
    assert a[qbegin..n - 2] == goal[..|goal| - 1];
    back := qend - 2;
  }

  /** The buffer after an argument has been split off: the word with its terminator
      at `begin`, and the untouched rest of the line at `next`. */
  ghost predicate SplitOff(a: array<char>, r: Argument, begin: nat, next: nat, m: nat)
    requires r.Word?
    reads a
  {
    && begin + |r.text| < a.Length
    && a[begin..begin + |r.text|] == r.text && a[begin + |r.text|] == '\0'
    && EndsAt(a, next, m) && a[next..m] == r.rest
  }

  /** Find the next closing quote of the same kind. */
  method ClosingQuote(a: array<char>, at: nat, ghost n: nat) returns (qend: nat)
    requires at < n && EndsAt(a, at, n)
    ensures qend == at + 1 + IndexOf(a[at + 1..n], a[at])
  {
    qend := at + 1;
    assert a[at + 1..n][0..] == a[at + 1..n];
    while a[qend] != '\0' && a[qend] != a[at]
      invariant at < qend <= n
      invariant at + 1 + IndexOf(a[at + 1..n], a[at]) == qend + IndexOf(a[qend..n], a[at])
      decreases n - qend
    {
      assert a[qend..n][1..] == a[qend + 1..n];
      qend := qend + 1;
    }
    assert qend < n ==> a[qend..n][0] == a[qend];
  }

  /** The pieces of a buffer around a quoted part from `at` to `qend`. */
  lemma {:induction false} PartPieces(a: array<char>, begin: nat, at: nat, qend: nat, m: nat)
    requires begin <= at < qend < m <= a.Length
    ensures var todo := a[at..m];
            && todo[0] == a[at] && todo[1..] == a[at + 1..m] && todo[qend - at + 1..] == a[qend + 1..m]
            && todo[1..qend - at] == a[at + 1..qend] && todo[..qend - at + 1] == a[at..qend + 1]
    ensures a[begin..qend + 1] == a[begin..at] + a[at..qend + 1]
  {
    var todo := a[at..m];
    assert forall k :: 0 <= k < m - at ==> todo[k] == a[at + k];
    assert todo[1..] == a[at + 1..m];
    assert todo[qend - at + 1..] == a[qend + 1..m];
    assert todo[1..qend - at] == a[at + 1..m][..qend - at - 1] == a[at + 1..qend];
    assert todo[..qend - at + 1] == a[at..qend + 1];
  }

  /** What the scan makes of a quoted part from `at` that is closed at `qend`, or not at all. */
  lemma {:induction false} PartScanned(a: array<char>, begin: nat, at: nat, qend: nat, m: nat, whole: string)
    requires begin <= at < qend <= m <= a.Length && Opens(a[at])
    requires qend == at + 1 + IndexOf(a[at + 1..m], a[at])
    requires ScanWord(whole) == Prepend(a[begin..at], ScanWord(a[at..m]))
    ensures qend == m ==> ScanWord(whole).Unmatched?
    ensures qend < m && a[at] != '`' ==> ScanWord(whole) == Prepend(a[begin..at] + a[at + 1..qend], ScanWord(a[qend + 1..m]))
    ensures qend < m && a[at] == '`' ==> ScanWord(whole) == Prepend(a[begin..qend + 1], ScanWord(a[qend + 1..m]))
  {
    hide ScanWord, IndexOf;
    var todo := a[at..m];
    assert todo[0] == a[at] && todo[1..] == a[at + 1..m];
    ScanQuoted(todo);
    if qend < m {
      PartPieces(a, begin, at, qend, m);
      PrependTwice(a[begin..at], Part(todo, qend - at - 1), ScanWord(a[qend + 1..m]));
    }
  }

  /** A quoted part of the word: its quotes are deleted and the scan goes on behind it. */
  method PassQuoted(a: array<char>, begin: nat, at: nat, ghost m: nat, ghost whole: string) returns (ok: bool, to: nat, ghost m': nat)
    requires begin <= at < m && EndsAt(a, begin, m) && IsQuote(a[at])
    requires ScanWord(whole) == Prepend(a[begin..at], ScanWord(a[at..m]))
    modifies a
    ensures a[..begin] == old(a[..begin])
    ensures !ok ==> ScanWord(whole).Unmatched?
    ensures ok ==> begin <= to <= m' && m' - to < m - at && EndsAt(a, begin, m')
    ensures ok ==> ScanWord(whole) == Prepend(a[begin..to], ScanWord(a[to..m']))
  {
    hide ScanWord, IndexOf, Prepend;
    var qend := ClosingQuote(a, at, m);
    PartScanned(a, begin, at, qend, m, whole);
    if a[qend] == '\0' {
      return false, at, m;
    }
    ghost var front, done, part, after := a[..at], a[begin..at], a[at + 1..qend], a[qend + 1..m];
    assert front[begin..] == done;
    var back := RemoveQuotes(a, at, qend, m);
    m' := m - 2;
    Rejoin(a, begin, at, back + 1, m', front, done, part, after);
    assert a[..begin] == front[..begin];
    ok, to := true, back + 1;
  }

  /** A back-quoted part of the word stays as it is. */
  method PassBackQuoted(a: array<char>, begin: nat, at: nat, ghost m: nat, ghost whole: string) returns (ok: bool, to: nat)
    requires begin <= at < m && EndsAt(a, begin, m) && a[at] == '`'
    requires ScanWord(whole) == Prepend(a[begin..at], ScanWord(a[at..m]))
    ensures if ok then at < to <= m && ScanWord(whole) == Prepend(a[begin..to], ScanWord(a[to..m])) else ScanWord(whole).Unmatched?
  {
    hide ScanWord, IndexOf, Prepend;
    var qend := ClosingQuote(a, at, m);
    PartScanned(a, begin, at, qend, m, whole);
    if a[qend] == '\0' {
      return false, at;
    }
    ok, to := true, qend + 1;
  }

  lemma {:induction false} ScanKept(done: string, t: string)
    requires t != "" && !Opens(t[0]) && !IsSeparator(t[0])
    ensures Prepend(done, ScanWord(t)) == Prepend(done + [t[0]], ScanWord(t[1..]))
  {
    PrependTwice(done, [t[0]], ScanWord(t[1..]));
  }

  lemma {:induction false} ScanEnd(done: string, t: string)
    requires t == "" || IsSeparator(t[0])
    ensures Prepend(done, ScanWord(t)) == Word(done, if t == "" then "" else t[1..])
  {
    assert done + "" == done;
  }

  /** The word at `begin`: the loop of `nsh_argument` and what follows it. */
  method ScanInPlace(a: array<char>, begin: nat, ghost n: nat) returns (ok: bool, next: nat, ghost m: nat)
    requires begin < n && EndsAt(a, begin, n) && Plain(a[begin..n])
    modifies a
    ensures a[..begin] == old(a[..begin])
    ensures var r := Read(old(a[begin..n]), Outside);
            if ok then r.Word? && SplitOff(a, r, begin, next, m) else r.Unmatched?
  {
    hide ScanWord, Prepend, Read;
    ghost var whole := a[begin..n];
    ScanIsRead(whole);
    var pend := begin;
    m := n;
    assert a[begin..begin] == "";
    PrependTwice("", "", ScanWord(whole));
    while a[pend] != '\0' && !IsSeparator(a[pend])
      invariant begin <= pend <= m && EndsAt(a, begin, m)
      invariant a[..begin] == old(a[..begin])
      invariant ScanWord(whole) == Prepend(a[begin..pend], ScanWord(a[pend..m]))
      decreases m - pend
    {
      if a[pend] == '`' {
        ok, pend := PassBackQuoted(a, begin, pend, m, whole);
        if !ok {
          return false, 0, m;
        }
      } else if IsQuote(a[pend]) {
        ok, pend, m := PassQuoted(a, begin, pend, m, whole);
        if !ok {
          return false, 0, m;
        }
      } else {
        ghost var todo := a[pend..m];
        assert todo[0] == a[pend] && todo[1..] == a[pend + 1..m];
        ScanKept(a[begin..pend], todo);
        assert a[begin..pend + 1] == a[begin..pend] + [a[pend]];
        pend := pend + 1;
      }
    }
    ghost var end := pend;
    ghost var text, todo := a[begin..pend], a[pend..m];
    ScanEnd(text, todo);
    ok := true;
    if a[pend] != '\0' {
      a[pend] := '\0';
      pend := pend + 1;
      assert a[begin..end] == text && a[pend..m] == todo[1..];
    }
    next := pend;
  }

  /** The pieces around the deleted quotes, where they stand afterwards. */
  lemma {:induction false} Rejoin(a: array<char>, begin: nat, at: nat, to: nat, m: nat, front: string, done: string, part: string, after: string)
    requires begin <= at <= to <= m && EndsAt(a, at, m)
    requires a[..at] == front && front[begin..] == done && '\0' !in done
    requires a[at..m] == part + after && to == at + |part|
    ensures EndsAt(a, begin, m) && a[begin..to] == done + part && a[to..m] == after
  {
    assert a[begin..at] == a[..at][begin..];
    assert a[begin..to] == a[begin..at] + a[at..to];
    assert a[at..to] == a[at..m][..|part|];
    assert a[to..m] == a[at..m][|part|..];
    forall k | begin <= k < at
      ensures a[k] != '\0'
    {
      assert a[k] == a[begin..at][k - begin];
    }
  }

  datatype Found = Nothing | Bar | WordAt(begin: nat)

  /** `nsh_argument` on a plain line with pipelines enabled and no aliases. */
  method NextInPlace(a: array<char>, saveptr: nat, ghost n: nat) returns (found: Found, next: nat, ghost m: nat)
    requires EndsAt(a, saveptr, n) && Plain(a[saveptr..n])
    modifies a
    ensures a[..saveptr] == old(a[..saveptr])
    ensures match NextArgument(old(a[saveptr..n]))
            case Word(text, rest) => found.WordAt? && saveptr <= found.begin && SplitOff(a, Word(text, rest), found.begin, next, m)
            case Pipe(rest) => found == Bar && EndsAt(a, next, m) && a[next..m] == rest
            case Comment => found == Nothing && EndsAt(a, next, m) && a[next] == '#'
            case _ => found == Nothing && next == saveptr
  {
    hide Read, SplitOff;
    next, m := saveptr, n;
    var begin := saveptr;
    while a[begin] != '\0' && IsSeparator(a[begin])
      invariant saveptr <= begin <= n
      invariant SkipSeparators(a[begin..n]) == SkipSeparators(a[saveptr..n])
      decreases n - begin
    {
      assert a[begin..n][1..] == a[begin + 1..n];
      begin := begin + 1;
    }
    ghost var line := a[begin..n];
    if a[begin] == '\0' {
      return Nothing, next, m;
    }
    assert line[0] == a[begin] && line[1..] == a[begin + 1..n];
    if a[begin] == '|' {
      return Bar, begin + 1, m;
    } else if a[begin] == '#' {
      return Nothing, begin, m;
    }
    assert Plain(line) by { PlainSuffix(a[saveptr..n], begin - saveptr); }
    var ok, after;
    ok, after, m := ScanInPlace(a, begin, n);
    assert a[..saveptr] == a[..begin][..saveptr];
    if !ok {
      return Nothing, saveptr, m;
    }
    found, next := WordAt(begin), after;
  }

  lemma {:induction false} PlainSuffix(t: string, k: nat)
    requires Plain(t) && k <= |t|
    ensures Plain(t[k..])
  {
  }
}
