/**
Whole scores: every call moves the cursor on, exactly when it can run past the
terminator, and what a note length is worth in samples.
*/
module MmlScore {
  import opened CArith
  import opened MmlModel

  // ----- the cursor -----

  /** Every `[` of the score has a `]` after it. */
  ghost predicate ChordsClosed(s: string)
  {
    forall p :: 0 <= p < |s| && s[p] == '[' ==> ClosedAfter(s, p)
  }

  ghost predicate ClosedAfter(s: string, p: nat)
  {
    exists k :: p <= k < |s| && s[k] == ']'
  }

  /** The rest of the score, read as the inside of a chord, is well formed but never closed.
      `after` says that a note has just been read, so accidentals may follow. */
  predicate OpenEnded(s: string, i: nat, after: bool)
    requires i <= |s|
    decreases |s| - i
  {
    if i == |s| then true
    else if after && (s[i] == '+' || s[i] == '#' || s[i] == '-') then OpenEnded(s, i + 1, true)
    else if IsSpace(s[i]) || s[i] == '>' || s[i] == '<' then OpenEnded(s, i + 1, false)
    else if NoteIndex(s[i]) >= 0 then OpenEnded(s, i + 1, true)
    else if s[i] == 'O' && IsDigit(At(s, i + 1)) then OpenEnded(s, i + 1 + Digits(s, i + 1), false)
    else false
  }

  lemma {:induction false} OpenEndedSpace(s: string, i: nat)
    requires i <= |s|
    ensures OpenEnded(s, i, false) == OpenEnded(s, SkipSpace(s, i), false)
    decreases |s| - i
  {
    if i < |s| && IsSpace(s[i]) {
      OpenEndedSpace(s, i + 1);
    }
  }

  lemma {:induction false} OpenEndedHalf(s: string, i: nat)
    requires i <= |s|
    ensures OpenEnded(s, i, true) == OpenEnded(s, HalfScale(s, i).1, false)
    decreases |s| - i
  {
    if At(s, i) == '+' || At(s, i) == '#' || At(s, i) == '-' {
      OpenEndedHalf(s, i + 1);
    }
  }

  lemma {:induction false} ChordOverrun(s: string, m: Mml, i: nat, r: Sound)
    requires CString(s) && i <= |s|
    requires |r.noteIdx| == MAX_CHORD_NOTES
    ensures ChordCodes(s, m, i, r).pos > |s| <==> OpenEnded(s, i, false)
    decreases |s| - i
  {
    hide SkipSpace, ChordCode, OpenEnded;
    var j := SkipSpace(s, i);
    OpenEndedSpace(s, i);
    if j == |s| || s[j] == ']' {
      OpenEndedEnd(s, j);
    } else {
      var o := ChordCode(s, m, j + 1, s[j], r);
      OpenEndedCode(s, m, j, r);
      if o.kind == Chord {
        ChordOverrun(s, o.mml, o.pos, o.sound);
      }
    }
  }

  lemma {:induction false} OpenEndedEnd(s: string, j: nat)
    requires j <= |s|
    requires j == |s| || s[j] == ']'
    ensures OpenEnded(s, j, false) <==> j == |s|
  {
  }

  lemma {:induction false} OpenEndedCode(s: string, m: Mml, j: nat, r: Sound)
    requires j < |s| && !IsSpace(s[j]) && s[j] != ']'
    requires |r.noteIdx| == MAX_CHORD_NOTES
    ensures var o := ChordCode(s, m, j + 1, s[j], r);
            OpenEnded(s, j, false) <==> o.kind == Chord && OpenEnded(s, o.pos, false)
  {
    hide HalfScale, AddChordNote, Atoi, Decimal, SkipSpace, Digits;
    if NoteIndex(s[j]) >= 0 {
      OpenEndedHalf(s, j + 1);
    } else if s[j] == 'O' {
      hide NoteIndex;
      assert OpenEnded(s, j, false) == (IsDigit(At(s, j + 1)) && OpenEnded(s, j + 1 + Digits(s, j + 1), false));
    }
  }

  /** A call leaves the cursor past the terminator exactly when it opens a chord that is never closed. */
  lemma {:induction false} OverrunExactly(s: string, m: Mml, i: nat, r: Sound)
    requires CString(s) && i <= |s|
    requires |r.noteIdx| == MAX_CHORD_NOTES
    ensures var j := SkipSpace(s, i);
            Parse(s, m, i, r).pos > |s| <==> (j < |s| && s[j] == '[' && OpenEnded(s, j + 1, false))
  {
    hide SkipSpace, ChordCodes, SampleLength, HandleNotes, HandleRest, HandleTempo, HandleLength, HandleOctave, HandleVolume, HandleStart, HandleStop, HandleTone, OpenEnded, Quotient;
    var j := SkipSpace(s, i);
    if j < |s| && s[j] == '[' {
      ChordOverrun(s, m, j + 1, r.(chordNotes := 0));
    }
  }

  lemma {:induction false} ClosedIsNotOpenEnded(s: string, i: nat, after: bool)
    requires i <= |s| && ClosedAfter(s, i)
    ensures !OpenEnded(s, i, after)
    decreases |s| - i
  {
    var k :| i <= k < |s| && s[k] == ']';
    if i < k {
      if s[i] == 'O' && IsDigit(At(s, i + 1)) {
        ClosedIsNotOpenEnded(s, i + 1 + Digits(s, i + 1), false);
      } else {
        ClosedIsNotOpenEnded(s, i + 1, true);
        ClosedIsNotOpenEnded(s, i + 1, false);
      }
    }
  }

  /** On a score whose chords are closed, a call stays inside the score and moves on unless it reports the end. */
  lemma {:induction false} ParseProgress(s: string, m: Mml, i: nat, r: Sound)
    requires CString(s) && ChordsClosed(s) && i <= |s|
    requires |r.noteIdx| == MAX_CHORD_NOTES
    ensures var o := Parse(s, m, i, r);
            o.pos <= |s| && if o.kind == Eof then o.pos == |s| else o.pos > i
  {
    hide SkipSpace, ChordCodes, OpenEnded, SampleLength, Quotient;
    OverrunExactly(s, m, i, r);
    var j := SkipSpace(s, i);
    if j < |s| && s[j] == '[' {
      assert ClosedAfter(s, j);
      ClosedIsNotOpenEnded(s, j + 1, false);
    }
  }

  /** How many calls it takes to reach the end of the score. */
  function CallsToEof(s: string, m: Mml, i: nat, r: Sound): (n: nat)
    requires CString(s) && ChordsClosed(s) && i <= |s|
    requires |r.noteIdx| == MAX_CHORD_NOTES
    ensures n <= |s| - i + 1
    decreases |s| - i
  {
    hide Parse;
    ParseProgress(s, m, i, r);
    var o := Parse(s, m, i, r);
    if o.kind == Eof then 1 else 1 + CallsToEof(s, o.mml, o.pos, r)
  }

  // ----- durations -----

  /** `r` is the floor of the quotient `n / d`. */
  ghost predicate IsFloor(r: int, n: int, d: int)
  {
    d > 0 && r * d <= n < (r + 1) * d
  }

  lemma FloorOfQuotient(n: nat, d: nat)
    requires d > 0
    ensures IsFloor(n / d, n, d)
  {
    var q := n / d;
    assert n == d * q + n % d;
    assert d * q == q * d;
    assert (q + 1) * d == q * d + d;
  }

  /** A floor of a floor is the floor by the product. */
  lemma {:induction false} FloorOfFloor(n: int, c: nat, q: int, t: nat, r: int)
    requires IsFloor(q, n, c) && IsFloor(r, q, t)
    ensures IsFloor(r, n, c * t)
  {
    MulMono(r * t, q, c);
    assert (r * t) * c == r * (c * t) by { assert t * c == c * t; assert (r * t) * c == r * (t * c); }
    MulMono(q + 1, (r + 1) * t, c);
    assert ((r + 1) * t) * c == (r + 1) * (c * t) by { assert t * c == c * t; assert ((r + 1) * t) * c == (r + 1) * (t * c); }
    assert c * t > 0;
  }

  lemma DotMultiplierIs(dots: nat)
    requires dots <= 4
    ensures DotMultiplier(dots) == 32 - Pow2(4 - dots)
    ensures DotMultiplier(dots) == [16, 24, 28, 30, 31][dots]
  {
    assert Pow2(4) == 16 && Pow2(3) == 8 && Pow2(2) == 4 && Pow2(1) == 2 && Pow2(0) == 1;
    assert DotMultiplier(0) == 16;
    assert DotMultiplier(1) == 24;
    assert DotMultiplier(2) == 28;
    assert DotMultiplier(3) == 30;
    assert DotMultiplier(4) == 31;
  }

  /** The shifts of the source, for each note value. */
  lemma {:induction false} ShiftsExact(x: nat, num: int)
    requires IsNoteValue(num)
    ensures var n := match num case 0 => 3 case 1 => 2 case 2 => 1 case _ => 0;
            var div := match num case 8 => 1 case 16 => 2 case 32 => 3 case 64 => 4 case _ => 0;
            var q := x * Pow2(n) / Pow2(2 + div);
            q >= 0 && if num == 0 then q == 2 * x else IsFloor(q, x, num)
  {
    hide Pow2;
    Powers();
    if num <= 2 {
      assert x * 8 / 4 == 2 * x && x * 4 / 4 == x && IsFloor(x * 2 / 4, x, 2);
    } else {
      FloorOfQuotient(x, num);
      assert x * 1 == x;
    }
  }

  lemma {:induction false} Powers()
    ensures Pow2(0) == 1 && Pow2(1) == 2 && Pow2(2) == 4 && Pow2(3) == 8 && Pow2(4) == 16 && Pow2(5) == 32 && Pow2(6) == 64
  {
    assert Pow2(3) == 8;
    assert Pow2(5) == 32;
  }

  /** A note value is worth the floor of the exact length: a minute is 60 seconds,
      a whole note four quarters, and each dot adds half of what came before. */
  lemma {:induction false} CalcSamplesExact(fs: nat, tempo: nat, num: int, dots: nat)
    requires tempo > 0
    ensures dots <= 4 && IsNoteValue(num) && num > 0 ==>
              IsFloor(CalcSamples(fs, tempo, num, dots), 15 * fs * (32 - Pow2(4 - dots)), num * tempo)
    ensures dots <= 4 && num == 0 ==>
              IsFloor(CalcSamples(fs, tempo, num, dots), 2 * (15 * fs * (32 - Pow2(4 - dots))), tempo)
    ensures dots > 4 || !IsNoteValue(num) ==> CalcSamples(fs, tempo, num, dots) == -EINVAL
  {
    if dots <= 4 && IsNoteValue(num) {
      hide Pow2, DotMultiplier;
      DotMultiplierIs(dots);
      var x: nat := 15 * fs * DotMultiplier(dots);
      ShiftsExact(x, num);
      var n := match num case 0 => 3 case 1 => 2 case 2 => 1 case _ => 0;
      var div := match num case 8 => 1 case 16 => 2 case 32 => 3 case 64 => 4 case _ => 0;
      var q: nat := x * Pow2(n) / Pow2(2 + div);
      FloorOfQuotient(q, tempo);
      if num > 0 {
        FloorOfFloor(x, num, q, tempo, q / tempo);
      }
    }
  }
}
