/**
What each kind of token means: the pitch of a note, the value of a number, and
what a call reports and changes. Every law is stated on the text under the
cursor.
*/
module MmlCalls {
  import opened MmlModel
  import opened MmlChain

  // ----- numbers -----

  /** A number written in decimal. */
  function Written(n: nat): (t: string)
    ensures Number(t)
  {
    var digit := [('0' as int + n % 10) as char];
    if n < 10 then digit else Written(n / 10) + digit
  }

  /** Reading a written number gives the number back. */
  lemma {:induction false} ReadsBack(n: nat)
    ensures Decimal(Written(n)) == n
    decreases n
  {
    var t := Written(n);
    if n < 10 {
      assert Decimal(t[..0]) == 0;
    } else {
      ReadsBack(n / 10);
      assert t[..|t| - 1] == Written(n / 10);
    }
  }

  // ----- pitch -----

  /** The twelve semitones of an octave. */
  const SCALE := "C+D+EF+G+A+B"

  function IndexIn(t: string, c: char): (k: nat)
    ensures k <= |t| && (k < |t| ==> t[k] == c) && forall j :: 0 <= j < k ==> t[j] != c
  {
    if t == "" || t[0] == c then 0 else 1 + IndexIn(t[1..], c)
  }

  lemma {:induction false} NoteIndexIs(c: char)
    ensures NoteIndex(c) == if c in SCALE then IndexIn(SCALE, c) else -1
  {
    hide IndexIn;
    var k := IndexIn(SCALE, c);
    assert SCALE[0] == 'C' && SCALE[1] == '+' && SCALE[2] == 'D' && SCALE[3] == '+' && SCALE[4] == 'E' && SCALE[5] == 'F';
    assert SCALE[6] == '+' && SCALE[7] == 'G' && SCALE[8] == '+' && SCALE[9] == 'A' && SCALE[10] == '+' && SCALE[11] == 'B';
    assert c in SCALE <==> k < 12;
  }

  predicate IsAccidental(c: char)
  {
    c == '+' || c == '#' || c == '-'
  }

  predicate Accidentals(t: string)
  {
    forall k :: 0 <= k < |t| ==> IsAccidental(t[k])
  }

  function Count(t: string, c: char): nat
  {
    if t == "" then 0 else (if t[0] == c then 1 else 0) + Count(t[1..], c)
  }

  /** Sharps less flats. */
  function Shift(t: string): int
  {
    Count(t, '+') + Count(t, '#') - (Count(t, '-') as int)
  }

  /** All accidentals at the cursor count. */
  lemma {:induction false} HalfScaleShifts(s: string, i: nat, acc: string)
    requires StandsAt(s, i, acc) && Accidentals(acc) && !IsAccidental(At(s, i + |acc|))
    ensures HalfScale(s, i) == (Shift(acc), i + |acc|)
    decreases |acc|
  {
    if acc != "" {
      assert s[i] == acc[0] && s[i + 1..i + |acc|] == acc[1..];
      HalfScaleShifts(s, i + 1, acc[1..]);
    }
  }

  function Pitch(letter: char, acc: string, octave: int): int
  {
    IndexIn(SCALE, letter) + Shift(acc) + 12 * octave
  }

  // ----- notes and rests -----

  predicate IsNoteName(c: char)
  {
    'A' <= c <= 'G'
  }

  lemma {:induction false} NamesInScale(c: char)
    requires IsNoteName(c)
    ensures NoteIndex(c) == IndexIn(SCALE, c)
  {
    NoteIndexIs(c);
    assert SCALE[0] == 'C' && SCALE[2] == 'D' && SCALE[4] == 'E' && SCALE[5] == 'F' && SCALE[7] == 'G' && SCALE[9] == 'A' && SCALE[11] == 'B';
  }

  /** A note: its pitch comes from its letter, its accidentals and the octave. Outside a tuplet its length
      is the one written behind them. */
  lemma {:induction false} NoteCall(s: string, m: Mml, i: nat, r: Sound, acc: string)
    requires i <= |s| && |r.noteIdx| == MAX_CHORD_NOTES
    requires var j := SkipSpace(s, i);
             IsNoteName(At(s, j)) && StandsAt(s, j + 1, acc) && Accidentals(acc) && !IsAccidental(At(s, j + 1 + |acc|))
    requires m.mode.NormalMode? || m.curTuplet < m.tupletNotes
    ensures var j, o := SkipSpace(s, i), Parse(s, m, i, r);
            && o.sound.chordNotes == 1 && |o.sound.noteIdx| == MAX_CHORD_NOTES
            && o.sound.noteIdx[0] == Pitch(s[j], acc, m.curOctave)
            && if m.mode.NormalMode? then
                 && (o.sound.length, o.pos) == SampleLength(m, s, j + 1 + |acc|) && o.mml == m
                 && o.kind == (if o.sound.length < 0 then NoteError else Note)
               else o.kind == Note && o.pos == j + 1 + |acc| && o.mml == m.(curTuplet := m.curTuplet + 1)
  {
    hide SkipSpace, HalfScale, SampleLength, TupletShare, NoteIndex, IndexIn, Shift, StandsAt, HandleChord, HandleRest, HandleOctave, HandleStart;
    var j := SkipSpace(s, i);
    assert j < |s|;
    HalfScaleShifts(s, j + 1, acc);
    NamesInScale(s[j]);
  }

  lemma {:induction false} RestCall(s: string, m: Mml, i: nat, r: Sound)
    requires i <= |s| && |r.noteIdx| == MAX_CHORD_NOTES && m.mode.NormalMode? && At(s, SkipSpace(s, i)) == 'R'
    ensures var o := Parse(s, m, i, r);
            && SkipSpace(s, i) < |s| && (o.sound.length, o.pos) == SampleLength(m, s, SkipSpace(s, i) + 1) && o.mml == m
            && o.kind == if o.sound.length < 0 then RestError else Rest
  {
    hide SkipSpace, SampleLength;
  }

  // ----- settings -----

  /** A setting and its number: what is stored is the number written there, and nothing else changes. */
  lemma {:induction false} SettingCall(s: string, m: Mml, i: nat, r: Sound, n: nat)
    requires i <= |s| && |r.noteIdx| == MAX_CHORD_NOTES
    requires var j := SkipSpace(s, i);
             && (At(s, j) == 'T' || At(s, j) == 'L' || At(s, j) == 'O' || At(s, j) == 'V' || At(s, j) == '@')
             && StandsAt(s, j + 1, Written(n)) && !IsDigit(At(s, j + 1 + |Written(n)|))
    ensures var j, o := SkipSpace(s, i), Parse(s, m, i, r);
            && o.pos == j + 1 + |Written(n)|
            && (o.kind == Tone ==> |o.sound.noteIdx| > 0 && o.sound.noteIdx[0] == n)
            && (o.kind != Tone ==> o.sound.length == n)
            && match s[j]
               case 'T' => o.kind == Tempo && o.mml == m.(curTempo := n)
               case 'L' => o.kind == Length && o.mml == m.(defLength := n)
               case 'O' => o.kind == Octave && o.mml == m.(curOctave := n)
               case 'V' => o.kind == (if n <= 100 then Volume else VolumeError) && o.mml == m
               case _ => o.kind == Tone && o.mml == m
  {
    hide SkipSpace, Atoi, Digits, Decimal, Written, StandsAt, IsDigit, HandleChord, HandleNotes, HandleRest, HandleStart, HandleStop;
    var j := SkipSpace(s, i);
    ReadsBack(n);
    ReadNumber(s, j + 1, Written(n));
  }

  /** A setting without a number is refused and changes nothing. A volume is read as zero instead, or as
      `atoi` reads a sign or white space. */
  lemma {:induction false} SettingRefused(s: string, m: Mml, i: nat, r: Sound)
    requires i <= |s| && |r.noteIdx| == MAX_CHORD_NOTES
    requires var j := SkipSpace(s, i); j < |s| && !IsDigit(At(s, j + 1))
    ensures var j, o := SkipSpace(s, i), Parse(s, m, i, r);
            && (s[j] == 'T' || s[j] == 'L' || s[j] == 'O' || s[j] == '@' ==> o.mml == m && o.pos == j + 1)
            && (s[j] == 'T' ==> o.kind == TempoError) && (s[j] == 'L' ==> o.kind == LengthError)
            && (s[j] == 'O' ==> o.kind == OctaveError) && (s[j] == '@' ==> o.kind == ToneError)
  {
    hide SkipSpace, Atoi, Digits, HandleChord, HandleNotes, HandleRest, HandleStart, HandleStop, HandleVolume;
  }

  /** A volume may carry a sign. The sign is read by `atoi` but not stepped over. */
  lemma {:induction false} SignedVolume(s: string, m: Mml, i: nat, r: Sound, sign: char, n: nat)
    requires i <= |s| && |r.noteIdx| == MAX_CHORD_NOTES && (sign == '-' || sign == '+')
    requires var j := SkipSpace(s, i);
             At(s, j) == 'V' && StandsAt(s, j + 1, [sign] + Written(n)) && !IsDigit(At(s, j + 2 + |Written(n)|))
    ensures var o := Parse(s, m, i, r);
            && o.sound.length == (if sign == '-' then -(n as int) else n) && o.mml == m && o.pos == SkipSpace(s, i) + 1
            && o.kind == if 0 <= o.sound.length <= 100 then Volume else VolumeError
  {
    hide SkipSpace, Digits, Decimal, Written, StandsAt, IsDigit;
    var j := SkipSpace(s, i);
    SplitAt(s, j + 1, [sign], Written(n));
    FirstChar(s, j + 1, [sign]);
    DigitsRun(s, j + 2, Written(n));
    ReadsBack(n);
    NoDigits(s, j + 1);
    SignHere(s, j + 1);
    Reached(s, j + 2, Written(n));
  }

  lemma {:induction false} NoDigits(s: string, i: nat)
    requires i <= |s| && (At(s, i) == '-' || At(s, i) == '+')
    ensures Digits(s, i) == 0
  {
  }

  lemma {:induction false} SignHere(s: string, i: nat)
    requires i < |s| && (s[i] == '-' || s[i] == '+')
    ensures SkipSpace(s, i) == i
  {
  }

  lemma {:induction false} Reached(s: string, i: nat, t: string)
    requires StandsAt(s, i, t)
    ensures i + |t| <= |s| && s[i..i + |t|] == t
  {
  }

  /** A character that begins no token is refused and passed over. */
  lemma {:induction false} OtherCall(s: string, m: Mml, i: nat, r: Sound)
    requires i <= |s| && |r.noteIdx| == MAX_CHORD_NOTES
    requires var c := At(s, SkipSpace(s, i)); c !in "ABCDEFGRTLO><V[{}@" && c != '\0'
    ensures var o := Parse(s, m, i, r); o.kind == Composition && o.mml == m && o.pos == SkipSpace(s, i) + 1
  {
    hide SkipSpace;
    var c, codes := At(s, SkipSpace(s, i)), "ABCDEFGRTLO><V[{}@";
    assert codes[0] == 'A' && codes[1] == 'B' && codes[2] == 'C' && codes[3] == 'D' && codes[4] == 'E' && codes[5] == 'F';
    assert codes[6] == 'G' && codes[7] == 'R' && codes[8] == 'T' && codes[9] == 'L' && codes[10] == 'O' && codes[11] == '>';
    assert codes[12] == '<' && codes[13] == 'V' && codes[14] == '[' && codes[15] == '{' && codes[16] == '}' && codes[17] == '@';
  }

  /** Inside a chord, what is neither a note nor an octave change is refused. */
  lemma {:induction false} ChordRefused(s: string, m: Mml, i: nat, r: Sound)
    requires i <= |s| && |r.noteIdx| == MAX_CHORD_NOTES
    requires var c := At(s, SkipSpace(s, i)); c !in SCALE && !IsOctaveCode(c) && c != ']' && c != '\0'
    ensures var o := ChordCodes(s, m, i, r); o.kind == ChordError && o.mml == m && o.pos == SkipSpace(s, i) + 1
  {
    hide SkipSpace, NoteIndex;
    NoteIndexIs(At(s, SkipSpace(s, i)));
  }

  /** `>` and `<` are an octave up and down: the same note afterwards is twelve semitones away. */
  lemma {:induction false} OctaveCall(s: string, m: Mml, i: nat, r: Sound)
    requires i <= |s| && |r.noteIdx| == MAX_CHORD_NOTES
    requires var c := At(s, SkipSpace(s, i)); c == '>' || c == '<'
    ensures var j, o := SkipSpace(s, i), Parse(s, m, i, r);
            && j < |s| && o.kind == Octave && o.pos == j + 1 && o.sound.length == o.mml.curOctave
            && o.mml == m.(curOctave := o.mml.curOctave)
            && forall letter, acc :: Pitch(letter, acc, o.mml.curOctave) == Pitch(letter, acc, m.curOctave) + (if s[j] == '>' then 12 else -12)
  {
    hide SkipSpace, IndexIn, Shift;
  }

  // ----- where a tuplet cannot start -----

  /** `{` inside a tuplet, or with no `}` behind it, is refused. */
  lemma {:induction false} StartRefused(s: string, m: Mml, i: nat, r: Sound)
    requires i <= |s| && |r.noteIdx| == MAX_CHORD_NOTES && At(s, SkipSpace(s, i)) == '{'
    ensures var o := Parse(s, m, i, r);
            && (m.mode.TupletMode? ==> o.kind == DoubleTuplet && o.mml == m)
            && (m.mode.NormalMode? && '}' !in s[i..] ==> o.kind == TupletError && o.mml.mode.NormalMode?)
  {
    hide SkipSpace, CountNotes, SampleLength;
    var j := SkipSpace(s, i);
    if m.mode.NormalMode? && '}' !in s[i..] {
      var a := CountNotes(s, j + 1, 0);
      assert forall k :: i <= k < |s| ==> s[k] == s[i..][k - i];
    }
  }
}
