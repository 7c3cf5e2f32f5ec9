/**
When a call of the parser divides by zero. `calc_samples` divides by the tempo
and `tuplet_length` by the number of notes; the score can set the tempo to zero.
`Faults` is the exact condition for one call, to be read off the next code, the
mode and the length at the cursor, and `NeverFaults` says which scores are safe.
*/
module MmlFault {
  import opened MmlModel
  import opened MmlScore

  /** How many dots stand at the cursor. */
  function DotRun(s: string, i: nat): (n: nat)
    requires i <= |s|
    ensures i + n <= |s|
    decreases |s| - i
  {
    if At(s, i) == '.' then 1 + DotRun(s, i + 1) else 0
  }

  /** Reading a length gets as far as dividing by the tempo: the default length is a note
      value, or a number stands at the cursor that is one and has at most four dots. */
  predicate LengthDivides(m: Mml, s: string, i: nat)
    requires i <= |s|
  {
    || IsNoteValue(m.defLength)
    || (IsDigit(At(s, i)) && IsNoteValue(Atoi(s, i)) && DotRun(s, i + Digits(s, i)) <= 4)
  }

  /** Reading a length divides by zero. */
  predicate LengthFaults(m: Mml, s: string, i: nat)
    requires i <= |s|
  {
    m.curTempo == 0 && LengthDivides(m, s, i)
  }

  /** A call divides by zero. */
  predicate Faults(s: string, m: Mml, i: nat, r: Sound)
    requires i <= |s|
    requires |r.noteIdx| == MAX_CHORD_NOTES
  {
    var j := SkipSpace(s, i);
    var code := At(s, j);
    if 'A' <= code <= 'G' then
      if m.mode.TupletMode? then m.tupletNotes == 0 && m.curTuplet < 0
      else LengthFaults(m, s, HalfScale(s, j + 1).1)
    else if code == 'R' then
      if m.mode.TupletMode? then m.tupletNotes == 0 else LengthFaults(m, s, j + 1)
    else if code == '[' then
      var o := ChordCodes(s, m, j + 1, r.(chordNotes := 0));
      o.kind == Chord && if m.mode.TupletMode? then m.tupletNotes == 0 else LengthFaults(m, s, o.pos)
    else if code == '{' then
      var a := CountNotes(s, j + 1, 0);
      m.mode.NormalMode? && a.closed && LengthFaults(m, s, a.pos + 1)
    else
      code == '}' && LengthFaults(m, s, j + 1)
  }

  /** `T0` and then a note. */
  lemma {:induction false} ZeroTempo(m: Mml, r: Sound)
    requires m.mode.NormalMode? && m.defLength == 4 && |r.noteIdx| == MAX_CHORD_NOTES
    ensures var s := "T0C"; var o := Parse(s, m, 0, r);
            o.kind == Tempo && o.pos == 2 && o.mml.curTempo == 0 && Faults(s, o.mml, 2, r)
  {
    var s := "T0C";
    assert SkipSpace(s, 0) == 0 && SkipSpace(s, 1) == 1 && SkipSpace(s, 2) == 2;
    assert Digits(s, 1) == 1;
    assert s[1..2] == "0" && Decimal("0") == 0 by { assert Decimal("") == 0; assert "0"[..0] == ""; }
  }

  // ----- whole runs -----

  /** No `T` of the score is followed by the number zero. */
  predicate NoZeroTempo(s: string)
  {
    forall p :: 0 <= p < |s| && s[p] == 'T' && IsDigit(At(s, p + 1)) ==> Atoi(s, p + 1) != 0
  }

  /** No divisor is zero. */
  predicate Safe(m: Mml)
  {
    m.curTempo != 0 && (m.mode.TupletMode? ==> m.tupletNotes > 0)
  }

  lemma {:induction false} SafeCall(s: string, m: Mml, i: nat, r: Sound)
    requires CString(s) && i <= |s| && |r.noteIdx| == MAX_CHORD_NOTES
    requires Safe(m) && NoZeroTempo(s)
    ensures !Faults(s, m, i, r) && Safe(Parse(s, m, i, r).mml)
  {
    hide SkipSpace, HalfScale, SampleLength, ChordCodes, CountNotes, TupletShare, Atoi, Digits, DotRun, HandleOctave, NoteIndex;
    var j := SkipSpace(s, i);
    if j < |s| && s[j] == '[' {
      ChordKeeps(s, m, j + 1, r.(chordNotes := 0));
    }
    assert j < |s| && s[j] == 'T' && IsDigit(At(s, j + 1)) ==> Atoi(s, j + 1) != 0;
  }

  /** Some call of the run divides by zero. The run ends with the score. */
  predicate RunFaults(s: string, m: Mml, i: nat, r: Sound)
    requires CString(s) && i <= |s| && |r.noteIdx| == MAX_CHORD_NOTES
    decreases |s| - i
  {
    hide Parse, Faults;
    var o := Parse(s, m, i, r);
    Faults(s, m, i, r) || (o.kind != Eof && o.pos <= |s| && RunFaults(s, o.mml, o.pos, r))
  }

  /** From a tempo other than zero, on a score in which no `T` reads zero, no call divides by zero. */
  lemma {:induction false} NeverFaults(s: string, m: Mml, i: nat, r: Sound)
    requires CString(s) && i <= |s| && |r.noteIdx| == MAX_CHORD_NOTES
    requires Safe(m) && NoZeroTempo(s)
    ensures !RunFaults(s, m, i, r)
    decreases |s| - i
  {
    hide Parse, Faults, NoZeroTempo, Safe;
    SafeCall(s, m, i, r);
    var o := Parse(s, m, i, r);
    if o.kind != Eof && o.pos <= |s| {
      NeverFaults(s, o.mml, o.pos, r);
    }
  }

  /** A new parser with a tempo other than zero reads such a score to its end without a division by
      zero, in at most length plus one calls. */
  lemma {:induction false} SafeScore(s: string, fs: int, tempo: int, octave: int, length: int, r: Sound)
    requires CString(s) && ChordsClosed(s) && NoZeroTempo(s) && tempo != 0 && |r.noteIdx| == MAX_CHORD_NOTES
    ensures var m := Mml(tempo, octave, length, fs, NormalMode, 0, 0, 0);
            !RunFaults(s, m, 0, r) && CallsToEof(s, m, 0, r) <= |s| + 1
  {
    hide RunFaults, CallsToEof;
    NeverFaults(s, Mml(tempo, octave, length, fs, NormalMode, 0, 0, 0), 0, r);
  }

  // ----- what the length scanner still has to divide -----

  /** One duration is computed with a zero tempo. */
  predicate TermFaults(m: Mml, num: int, dots: nat)
  {
    m.curTempo == 0 && IsNoteValue(if num < 0 then m.defLength else num) && dots <= 4
  }

  lemma {:induction false} DotRunHere(s: string, i: nat)
    requires i <= |s|
    ensures DotRun(s, i) == if At(s, i) == '.' then 1 + DotRun(s, i + 1) else 0
  {
  }

  lemma {:induction false} DigitsAreCounted(s: string, i: nat)
    requires i <= |s| && IsDigit(At(s, i))
    ensures Atoi(s, i) >= 0
  {
    assert SkipSpace(s, i) == i;
  }
}
