/**
Backslashes on the NSH command line. A forward automaton says which characters
a backslash quotes; `nsh_strchr` and `nsh_dequote` follow it, while
`nsh_argexpand` counts backslashes backwards. The two tests agree, and removing
backslashes in place undoes escaping.
*/
module NshEscape {
  import opened NshBasics

  /** The forward automaton: an unquoted backslash quotes the next character. */
  predicate Quoted(s: string, i: nat)
    requires i <= |s|
  {
    i > 0 && s[i - 1] == '\\' && !Quoted(s, i - 1)
  }

  /** How many backslashes stand directly before `i`. */
  function SlashesBefore(s: string, i: nat): nat
    requires i <= |s|
  {
    if i > 0 && s[i - 1] == '\\' then 1 + SlashesBefore(s, i - 1) else 0
  }

  /** The backward parity test marks the characters the forward automaton quotes. */
  lemma {:induction false} ParityIsQuoted(s: string, i: nat)
    requires i <= |s|
    ensures Quoted(s, i) <==> SlashesBefore(s, i) % 2 == 1
    decreases i
  {
    if i > 0 && s[i - 1] == '\\' {
      ParityIsQuoted(s, i - 1);
    }
  }

  /** The backward loop of `nsh_argexpand`: is the character at `working + len` quoted? */
  method ParityTest(s: string, working: nat, len: nat) returns (quoted: bool)
    requires working + len <= |s|
    ensures quoted == Quoted(s[working..], len)
  {
    ghost var t := s[working..];
    ParityIsQuoted(t, len);
    var bcount := 0;
    quoted := false;
    while bcount < len && s[working + len - 1 - bcount] == '\\'
      invariant 0 <= bcount <= len
      invariant quoted == (bcount % 2 == 1)
      invariant SlashesBefore(t, len) == bcount + SlashesBefore(t, len - bcount)
    {
      assert t[len - bcount - 1] == s[working + len - 1 - bcount];
      quoted := !quoted;
      bcount := bcount + 1;
    }
    if bcount < len {
      assert t[len - bcount - 1] == s[working + len - 1 - bcount];
    }
  }

  predicate IsSpecial(c: char)
  {
    c == '`' || c == '$'
  }

  /** `strcspn` with the two special characters. */
  method SpanToSpecial(s: string, i: nat) returns (n: nat)
    requires i <= |s|
    ensures i + n <= |s| && (i + n < |s| ==> IsSpecial(s[i + n]))
    ensures forall k :: i <= k < i + n ==> !IsSpecial(s[k])
  {
    n := 0;
    while i + n < |s| && !IsSpecial(s[i + n])
      invariant i + n <= |s|
      invariant forall k :: i <= k < i + n ==> !IsSpecial(s[k])
    {
      n := n + 1;
    }
  }

  /** The first unquoted occurrence of `ch`; an unquoted backslash only ever quotes. */
  ghost predicate IsFirstUnquoted(s: string, ch: char, r: Option<nat>)
  {
    match r
    case Some(i) =>
      && i < |s| && s[i] == ch && ch != '\\' && !Quoted(s, i)
      && forall k :: 0 <= k < i ==> s[k] != ch || Quoted(s, k)
    case None =>
      forall k :: 0 <= k < |s| ==> s[k] != ch || Quoted(s, k) || ch == '\\'
  }

  /** `nsh_strchr` */
  method StrChr(s: string, ch: char) returns (r: Option<nat>)
    ensures IsFirstUnquoted(s, ch, r)
  {
    var quoted, i := false, 0;
    while i < |s|
      invariant 0 <= i <= |s| && quoted == Quoted(s, i)
      invariant forall k :: 0 <= k < i ==> s[k] != ch || Quoted(s, k) || ch == '\\'
    {
      if s[i] == '\\' && !quoted {
        quoted := true;
      } else if s[i] == ch && !quoted {
        return Some(i);
      } else {
        quoted := false;
      }
      i := i + 1;
    }
    r := None;
  }

  /** The place of a find, or the end. */
  function PlaceOf(r: Option<nat>, end: nat): nat
  {
    if r.Some? then r.value else end
  }

  /** The nearer of two finds. */
  function Nearer(a: Option<nat>, b: Option<nat>, end: nat): nat
  {
    if PlaceOf(a, end) < PlaceOf(b, end) then PlaceOf(a, end) else PlaceOf(b, end)
  }

  /** Looking for both special characters at once finds the nearer of what looking for each finds. */
  lemma {:induction false} SearchesAgree(s: string, tick: Option<nat>, dollar: Option<nat>, ptr: nat)
    requires IsFirstUnquoted(s, '`', tick) && IsFirstUnquoted(s, '$', dollar)
    requires ptr <= |s| && (ptr < |s| ==> IsSpecial(s[ptr]) && !Quoted(s, ptr))
    requires forall k :: 0 <= k < ptr ==> !IsSpecial(s[k]) || Quoted(s, k)
    ensures ptr == Nearer(tick, dollar, |s|)
  {
    hide Quoted;
    var t, d := PlaceOf(tick, |s|), PlaceOf(dollar, |s|);
    assert t < |s| ==> IsSpecial(s[t]) && !Quoted(s, t);
    assert d < |s| ==> IsSpecial(s[d]) && !Quoted(s, d);
  }

  lemma {:induction false} NearerFound(s: string, working: nat, ptr: nat)
    requires working <= ptr <= |s| && (ptr < |s| ==> IsSpecial(s[ptr]) && !Quoted(s[working..], ptr - working))
    requires forall k :: working <= k < ptr ==> !IsSpecial(s[k]) || Quoted(s[working..], k - working)
    ensures forall tick, dollar :: IsFirstUnquoted(s[working..], '`', tick) && IsFirstUnquoted(s[working..], '$', dollar) ==>
              ptr - working == Nearer(tick, dollar, |s| - working)
  {
    hide Quoted, IsFirstUnquoted, Nearer;
    var t := s[working..];
    assert forall k :: 0 <= k < ptr - working ==> t[k] == s[working + k];
    forall tick, dollar | IsFirstUnquoted(t, '`', tick) && IsFirstUnquoted(t, '$', dollar)
      ensures ptr - working == Nearer(tick, dollar, |s| - working)
    {
      SearchesAgree(t, tick, dollar, ptr - working);
    }
  }

  /** The search of `nsh_argexpand`: the first special character that is not quoted, or the end. */
  method NextSpecial(s: string, working: nat) returns (ptr: nat)
    requires working <= |s|
    ensures working <= ptr <= |s|
    ensures ptr < |s| ==> IsSpecial(s[ptr]) && !Quoted(s[working..], ptr - working)
    ensures forall k :: working <= k < ptr ==> !IsSpecial(s[k]) || Quoted(s[working..], k - working)
    ensures forall tick, dollar :: IsFirstUnquoted(s[working..], '`', tick) && IsFirstUnquoted(s[working..], '$', dollar) ==>
              ptr - working == Nearer(tick, dollar, |s| - working)
  {
    var len := SpanToSpecial(s, working);
    ptr := working + len;
    while len > 0 && ptr < |s|
      invariant ptr == working + len <= |s|
      invariant ptr < |s| ==> IsSpecial(s[ptr])
      invariant forall k :: working <= k < ptr ==> !IsSpecial(s[k]) || Quoted(s[working..], k - working)
      decreases |s| - ptr
    {
      var quoted := ParityTest(s, working, len);
      if !quoted {
        break;
      }
      var more := SpanToSpecial(s, ptr + 1);
      len := len + more + 1;
      ptr := working + len;
    }
    NearerFound(s, working, ptr);
  }

  // ----- removing backslashes -----

  function Unescape(s: string): string
  {
    if s == "" then ""
    else if s[0] != '\\' then [s[0]] + Unescape(s[1..])
    else if |s| == 1 then ""
    else [s[1]] + Unescape(s[2..])
  }

  /** What is left: everything but the unquoted backslashes. */
  function Kept(s: string, i: nat): string
    requires i <= |s|
    decreases |s| - i
  {
    if i == |s| then ""
    else if s[i] == '\\' && !Quoted(s, i) then Kept(s, i + 1)
    else [s[i]] + Kept(s, i + 1)
  }

  lemma {:induction false} UnescapeKeeps(s: string, i: nat)
    requires i <= |s| && !Quoted(s, i)
    ensures Unescape(s[i..]) == Kept(s, i)
    decreases |s| - i
  {
    if i < |s| {
      var t := s[i..];
      if s[i] != '\\' {
        assert t[1..] == s[i + 1..];
        UnescapeKeeps(s, i + 1);
      } else if i + 1 < |s| {
        assert t[2..] == s[i + 2..];
        assert Quoted(s, i + 1);
        UnescapeKeeps(s, i + 2);
      } else {
        assert |t| == 1;
        assert Kept(s, i + 1) == "";
      }
    }
  }

  /** Backslashes put before the characters in `special`. */
  function Escape(s: string, special: set<char>): string
  {
    if s == "" then ""
    else (if s[0] in special then ['\\', s[0]] else [s[0]]) + Escape(s[1..], special)
  }

  /** Removing backslashes undoes escaping, whichever characters were escaped. */
  lemma {:induction false} UnescapeEscape(s: string, special: set<char>)
    requires '\\' in special
    ensures Unescape(Escape(s, special)) == s
    decreases |s|
  {
    if s != "" {
      UnescapeEscape(s[1..], special);
      var e := Escape(s, special);
      if s[0] in special {
        assert e[2..] == Escape(s[1..], special);
      } else {
        assert e[1..] == Escape(s[1..], special);
      }
    }
  }

  // ----- in place -----

  /** The array holds a string of length `n` and its terminator. */
  ghost predicate Terminated(a: array<char>, n: nat)
    reads a
  {
    n < a.Length && a[n] == '\0' && forall k :: 0 <= k < n ==> a[k] != '\0'
  }

  /** Move the string behind `at` down by one, over the character there. */
  method DropChar(a: array<char>, at: nat, ghost n: nat)
    requires Terminated(a, n) && at < n
    modifies a
    ensures Terminated(a, n - 1)
    ensures a[..n - 1] == old(a[..at]) + old(a[at + 1..n])
  {
    ghost var was := a[..];
    ghost var goal := was[..at] + was[at + 1..n];
    assert forall k :: 0 <= k < n - 1 ==> goal[k] == (if k < at then was[k] else was[k + 1]) && goal[k] != '\0';
    var dest, src := at, at + 1;
    while a[src] != '\0'
      invariant at <= dest && src == dest + 1 <= n
      invariant forall k :: 0 <= k < dest ==> a[k] == goal[k]
      invariant forall k :: src <= k < a.Length ==> a[k] == was[k]
      decreases n - src
    {
      assert goal[dest] == was[src];
      a[dest] := a[src];
      dest, src := dest + 1, src + 1;
    }
    a[dest] := '\0';
    assert a[..n - 1] == goal;
  }

  /** The result still to come when `done` is finished and `rest` is to be read. */
  ghost function Pending(done: string, rest: string, quoted: bool): string
  {
    done + (if quoted && rest != "" then [rest[0]] + Unescape(rest[1..]) else Unescape(rest))
  }

  lemma {:induction false} PendingDrop(done: string, rest: string)
    requires rest != "" && rest[0] == '\\'
    ensures Pending(done, rest, false) == Pending(done, rest[1..], true)
  {
    if |rest| > 1 {
      assert rest[1..][1..] == rest[2..];
    }
  }

  lemma {:induction false} PendingKeep(done: string, rest: string, quoted: bool)
    requires rest != "" && (quoted || rest[0] != '\\')
    ensures Pending(done, rest, quoted) == Pending(done + [rest[0]], rest[1..], false)
  {
  }

  /** `nsh_dequote` */
  method Dequote(a: array<char>, ghost n: nat) returns (ghost m: nat)
    requires Terminated(a, n)
    modifies a
    ensures Terminated(a, m) && m <= n
    ensures a[..m] == Unescape(old(a[..n]))
  {
    hide Pending;
    var ptr, quoted := 0, false;
    m := n;
    PendingStart(a[..n]);
    assert a[0..n] == a[..n];
    while a[ptr] != '\0'
      invariant Terminated(a, m) && 0 <= ptr <= m <= n
      invariant Unescape(old(a[..n])) == Pending(a[..ptr], a[ptr..m], quoted)
      decreases m - ptr, !quoted
    {
      ghost var done, rest := a[..ptr], a[ptr..m];
      assert rest[1..] == a[ptr + 1..m];
      if a[ptr] == '\\' && !quoted {
        PendingDrop(done, rest);
        DropChar(a, ptr, m);
        m := m - 1;
        assert a[..m][..ptr] == done && a[..m][ptr..] == rest[1..];
        assert a[..ptr] == done && a[ptr..m] == rest[1..];
        quoted := true;
      } else {
        PendingKeep(done, rest, quoted);
        assert a[..ptr + 1] == done + [rest[0]];
        quoted := false;
        ptr := ptr + 1;
      }
    }
    PendingEnd(a[..ptr], a[ptr..m], quoted);
  }

  lemma {:induction false} PendingStart(s: string)
    ensures Pending([], s, false) == Unescape(s)
  {
  }

  lemma {:induction false} PendingEnd(done: string, rest: string, quoted: bool)
    requires rest == ""
    ensures Pending(done, rest, quoted) == done
  {
  }
}
