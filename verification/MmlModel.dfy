/**
The music macro language parser: a cursor that moves over a score, one token
per call. The functions say what each call does to the cursor, the parser state
and the result; class `MmlParser` does the same in place.
*/
module MmlModel {
  import opened CArith

  // ----- the score as a C string -----

  predicate CString(s: string)
  {
    '\0' !in s
  }

  /** The character under the cursor; the terminator stands after the last character. */
  function At(s: string, i: nat): char
  {
    if i < |s| then s[i] else '\0'
  }

  predicate IsSpace(c: char)
  {
    c == ' ' || '\t' <= c <= '\r'
  }

  predicate IsDigit(c: char)
  {
    '0' <= c <= '9'
  }

  function SkipSpace(s: string, i: nat): (j: nat)
    requires i <= |s|
    ensures i <= j <= |s| && !IsSpace(At(s, j))
    ensures forall k :: i <= k < j ==> IsSpace(s[k])
    decreases |s| - i
  {
    if i < |s| && IsSpace(s[i]) then SkipSpace(s, i + 1) else i
  }

  function SkipUntil(s: string, i: nat, until: char): (j: nat)
    requires i <= |s|
    ensures i <= j <= |s|
    ensures j < |s| ==> s[j] == until
    ensures forall k :: i <= k < j ==> s[k] != until
    decreases |s| - i
  {
    if i < |s| && s[i] != until then SkipUntil(s, i + 1, until) else i
  }

  /** How many digits stand at the cursor. */
  function Digits(s: string, i: nat): (n: nat)
    requires i <= |s|
    ensures i + n <= |s| && !IsDigit(At(s, i + n))
    ensures forall k :: i <= k < i + n ==> IsDigit(s[k])
    decreases |s| - i
  {
    if i < |s| && IsDigit(s[i]) then 1 + Digits(s, i + 1) else 0
  }

  function Decimal(t: string): (v: int)
    requires forall k :: 0 <= k < |t| ==> IsDigit(t[k])
    ensures v >= 0
  {
    if t == [] then 0
    else
      assert IsDigit(t[|t| - 1]);
      10 * Decimal(t[..|t| - 1]) + (t[|t| - 1] as int - '0' as int)
  }

  /** `atoi`: white space, a sign, digits. */
  function Atoi(s: string, i: nat): int
    requires i <= |s|
  {
    var j := SkipSpace(s, i);
    if At(s, j) == '-' then -Decimal(s[j + 1..j + 1 + Digits(s, j + 1)])
    else if At(s, j) == '+' then Decimal(s[j + 1..j + 1 + Digits(s, j + 1)])
    else Decimal(s[j..j + Digits(s, j)])
  }

  /** A quotient, or zero where C has none: `MmlFault` says exactly when that happens. */
  function Quotient(a: int, b: int): int
  {
    if b == 0 then 0 else CDiv(a, b)
  }

  // ----- durations -----

  const EINVAL := 22

  datatype Mode = NormalMode | TupletMode

  datatype Mml = Mml(curTempo: int, curOctave: int, defLength: int, fs: int,
                     mode: Mode, curTuplet: int, tupletNotes: int, tupletLength: int)

  function Pow2(n: nat): (p: nat)
    ensures p > 0
  {
    if n == 0 then 1 else 2 * Pow2(n - 1)
  }

  /** 16 plus one halved share for every dot. */
  function DotMultiplier(dots: nat): nat
    requires dots <= 4
  {
    if dots == 0 then 16 else Pow2(4 - dots) + DotMultiplier(dots - 1)
  }

  predicate IsNoteValue(num: int)
  {
    num == 0 || num == 1 || num == 2 || num == 4 || num == 8 || num == 16 || num == 32 || num == 64
  }

  function CalcSamples(fs: int, tempo: int, num: int, dots: nat): int
  {
    if !IsNoteValue(num) || dots > 4 then -EINVAL
    else
      var n := match num case 0 => 3 case 1 => 2 case 2 => 1 case _ => 0;
      var div := match num case 8 => 1 case 16 => 2 case 32 => 3 case 64 => 4 case _ => 0;
      Quotient((15 * fs * DotMultiplier(dots)) * Pow2(n) / Pow2(2 + div), tempo)
  }

  function GetSamples(m: Mml, samples: int, num: int, dots: nat, plus: bool): int
  {
    var len := CalcSamples(m.fs, m.curTempo, if num < 0 then m.defLength else num, dots);
    if len > 0 && plus then samples + len else len
  }

  predicate IsQualifier(c: char)
  {
    IsDigit(c) || c == '.'
  }

  /** The length at the cursor, in samples or negative, and the cursor behind it. */
  function SampleLength(m: Mml, s: string, i: nat): (r: (int, nat))
    requires i <= |s|
    ensures i <= r.1 <= |s|
  {
    var samples := GetSamples(m, 0, -1, 0, false);
    if IsDigit(At(s, i)) then Numbered(m, s, i + Digits(s, i), Atoi(s, i), 0, false, samples)
    else if At(s, i) == '.' then Numbered(m, s, i + 1, -1, 1, false, samples)
    else (samples, i)
  }

  function Numbered(m: Mml, s: string, i: nat, num: int, dots: nat, plus: bool, samples: int): (r: (int, nat))
    requires i <= |s|
    ensures i <= r.1 <= |s|
    decreases |s| - i
  {
    if At(s, i) == '.' then Numbered(m, s, i + 1, num, dots + 1, plus, samples)
    else
      var total := GetSamples(m, samples, num, dots, plus);
      if At(s, i) != '+' then (total, i)
      else if total < 0 then (total, i + 1)
      else if IsDigit(At(s, i + 1)) then
        Numbered(m, s, i + 1 + Digits(s, i + 1), Atoi(s, i + 1), dots, true, total)
      else (-EINVAL, i + 1)
  }

  // ----- notes -----

  /** The place of a code in "C+D+EF+G+A+B", or -1. */
  function NoteIndex(c: char): int
  {
    match c
    case 'C' => 0 case '+' => 1 case 'D' => 2 case 'E' => 4 case 'F' => 5
    case 'G' => 7 case 'A' => 9 case 'B' => 11 case _ => -1
  }

  function HalfScale(s: string, i: nat): (r: (int, nat))
    requires i <= |s|
    ensures i <= r.1 <= |s|
    ensures forall k :: i <= k < r.1 ==> s[k] == '+' || s[k] == '#' || s[k] == '-'
    decreases |s| - i
  {
    if At(s, i) == '+' || At(s, i) == '#' then
      var (d, j) := HalfScale(s, i + 1);
      (d + 1, j)
    else if At(s, i) == '-' then
      var (d, j) := HalfScale(s, i + 1);
      (d - 1, j)
    else (0, i)
  }

  const MAX_CHORD_NOTES := 5

  datatype Sound = Sound(noteIdx: seq<int>, length: int, chordNotes: nat)

  datatype Kind =
    | Eof | Note | Rest | Tempo | Length | Octave | TupletStart | TupletDone | Volume | Tone | Chord
    | NoteError | RestError | TempoError | LengthError | OctaveError | VolumeError | TupletError | ToneError | ChordError
    | Composition | TooMany | TooFew | DoubleTuplet

  datatype Out = Out(kind: Kind, pos: nat, mml: Mml, sound: Sound)

  /** The next share of a tuplet; the last one takes what division left over. */
  function TupletShare(m: Mml): int
  {
    var share := Quotient(m.tupletLength, m.tupletNotes);
    if m.curTuplet + 1 == m.tupletNotes then m.tupletLength - share * (m.tupletNotes - 1) else share
  }

  function HandleNotes(s: string, m: Mml, i: nat, code: char, r: Sound): (o: Out)
    requires i <= |s|
    requires |r.noteIdx| == MAX_CHORD_NOTES
    ensures i <= o.pos <= |s|
  {
    var r1 := r.(chordNotes := 1);
    if m.mode.TupletMode? && m.curTuplet >= m.tupletNotes then Out(TooMany, i, m, r1)
    else
      var (d, j) := HalfScale(s, i);
      var r2 := r1.(noteIdx := r1.noteIdx[0 := NoteIndex(code) + d + m.curOctave * 12]);
      if m.mode.TupletMode? then
        Out(Note, j, m.(curTuplet := m.curTuplet + 1), r2.(length := TupletShare(m)))
      else
        var (len, k) := SampleLength(m, s, j);
        Out(if len < 0 then NoteError else Note, k, m, r2.(length := len))
  }

  function HandleRest(s: string, m: Mml, i: nat, r: Sound): (o: Out)
    requires i <= |s|
    ensures i <= o.pos <= |s|
  {
    if m.mode.TupletMode? then Out(Rest, i, m.(curTuplet := m.curTuplet + 1), r.(length := TupletShare(m)))
    else
      var (len, k) := SampleLength(m, s, i);
      Out(if len < 0 then RestError else Rest, k, m, r.(length := len))
  }

  predicate IsOctaveCode(c: char)
  {
    c == 'O' || c == '>' || c == '<'
  }

  function HandleOctave(s: string, m: Mml, i: nat, code: char, r: Sound): (o: Out)
    requires i <= |s|
    ensures i <= o.pos <= |s|
    ensures o.kind == Octave || o.kind == OctaveError
    ensures o.mml == m.(curOctave := o.mml.curOctave)
    ensures forall k :: i <= k < o.pos ==> IsDigit(s[k])
    ensures |o.sound.noteIdx| == |r.noteIdx| && o.sound.chordNotes == r.chordNotes
  {
    if code == '>' then Out(Octave, i, m.(curOctave := m.curOctave + 1), r.(length := m.curOctave + 1))
    else if code == '<' then Out(Octave, i, m.(curOctave := m.curOctave - 1), r.(length := m.curOctave - 1))
    else if IsDigit(At(s, i)) then
      Out(Octave, i + Digits(s, i), m.(curOctave := Atoi(s, i)), r.(length := Atoi(s, i)))
    else Out(OctaveError, i, m, r)
  }

  /** One code inside a chord: a note, which beyond the fifth is dropped, or an octave change. */
  function ChordCode(s: string, m: Mml, i: nat, code: char, r: Sound): (o: Out)
    requires i <= |s|
    requires |r.noteIdx| == MAX_CHORD_NOTES
    ensures o.kind == Chord || o.kind == ChordError
    ensures i <= o.pos <= |s|
    ensures o.mml == m.(curOctave := o.mml.curOctave)
    ensures |o.sound.noteIdx| == MAX_CHORD_NOTES
  {
    if NoteIndex(code) >= 0 then
      var (d, k) := HalfScale(s, i);
      Out(Chord, k, m, AddChordNote(r, NoteIndex(code) + d + m.curOctave * 12))
    else if IsOctaveCode(code) then
      var o := HandleOctave(s, m, i, code, r);
      if o.kind == OctaveError then o.(kind := ChordError) else o.(kind := Chord)
    else Out(ChordError, i, m, r)
  }

  function AddChordNote(r: Sound, note: int): (r': Sound)
    requires |r.noteIdx| == MAX_CHORD_NOTES
    ensures |r'.noteIdx| == MAX_CHORD_NOTES
  {
    if r.chordNotes < MAX_CHORD_NOTES
    then r.(noteIdx := r.noteIdx[r.chordNotes := note], chordNotes := r.chordNotes + 1)
    else r
  }

  lemma {:induction false} ChordCodeAvoids(s: string, m: Mml, i: nat, code: char, r: Sound)
    requires i <= |s|
    requires |r.noteIdx| == MAX_CHORD_NOTES
    ensures forall k :: i <= k < ChordCode(s, m, i, code, r).pos ==> s[k] != ']'
  {
    hide HalfScale, HandleOctave, AddChordNote;
  }

  /** The inside of a chord, up to and including its `]`. An unclosed chord
      leaves the cursor one past the terminator. */
  function ChordCodes(s: string, m: Mml, i: nat, r: Sound): (o: Out)
    requires i <= |s|
    requires |r.noteIdx| == MAX_CHORD_NOTES
    ensures o.kind == Chord || o.kind == ChordError
    ensures i <= o.pos <= |s| + 1
    ensures o.kind == Chord ==> i < o.pos <= |s|
    decreases |s| - i
  {
    hide ChordCode, SkipSpace;
    var j := SkipSpace(s, i);
    var code := At(s, j);
    if code == ']' then Out(Chord, j + 1, m, r)
    else if code == '\0' then Out(ChordError, j + 1, m, r)
    else
      var o := ChordCode(s, m, j + 1, code, r);
      if o.kind == ChordError then o else ChordCodes(s, o.mml, o.pos, o.sound)
  }

  /** A chord changes nothing but the octave, and ends with its bracket. */
  lemma {:induction false} ChordKeeps(s: string, m: Mml, i: nat, r: Sound)
    requires i <= |s| && |r.noteIdx| == MAX_CHORD_NOTES
    ensures var o := ChordCodes(s, m, i, r);
            o.mml == m.(curOctave := o.mml.curOctave) && (o.kind == Chord ==> s[o.pos - 1] == ']')
    decreases |s| - i
  {
    hide ChordCode, SkipSpace;
    var j := SkipSpace(s, i);
    var code := At(s, j);
    if code != ']' && code != '\0' {
      var o := ChordCode(s, m, j + 1, code, r);
      if o.kind != ChordError {
        ChordKeeps(s, o.mml, o.pos, o.sound);
      }
    }
  }

  function HandleChord(s: string, m: Mml, i: nat, r: Sound): (o: Out)
    requires i <= |s|
    requires |r.noteIdx| == MAX_CHORD_NOTES
    ensures i <= o.pos <= |s| + 1
    ensures o.kind == Chord || o.kind == ChordError
    ensures o.pos <= |s| || o.kind == ChordError
  {
    var o := ChordCodes(s, m, i, r);
    if o.kind == ChordError then o
    else if o.mml.mode.TupletMode? then
      var len := TupletShare(o.mml);
      Out(if len < 0 then ChordError else Chord, o.pos, o.mml.(curTuplet := o.mml.curTuplet + 1), o.sound.(length := len))
    else
      var (len, k) := SampleLength(o.mml, s, o.pos);
      Out(if len < 0 then ChordError else Chord, k, o.mml, o.sound.(length := len))
  }

  // ----- tuplets -----

  predicate IsNoteLetter(c: char)
  {
    'A' <= c <= 'G' || c == 'R'
  }

  /** What the look-ahead finds: the closing brace, or the end of the score. */
  datatype Ahead = Ahead(closed: bool, notes: nat, pos: nat)

  function CountNotes(s: string, i: nat, notes: nat): (a: Ahead)
    requires i <= |s|
    ensures i <= a.pos <= |s| && a.notes >= notes
    ensures a.closed ==> a.pos < |s| && s[a.pos] == '}'
    decreases |s| - i
  {
    var j := SkipSpace(s, i);
    var c := At(s, j);
    if c == '}' then Ahead(true, notes, j)
    else if j == |s| then Ahead(false, notes + 1, j)
    else if IsNoteLetter(c) then CountNotes(s, j + 1, notes + 1)
    else if c == '[' then
      var k := SkipUntil(s, j, ']');
      if k == |s| then Ahead(false, notes + 1, k) else CountNotes(s, k + 1, notes + 1)
    else CountNotes(s, j + 1, notes)
  }

  function HandleStart(s: string, m: Mml, i: nat, r: Sound): (o: Out)
    requires i <= |s|
    ensures o.pos == i
  {
    if !m.mode.NormalMode? then Out(DoubleTuplet, i, m, r)
    else
      var a := CountNotes(s, i, 0);
      if !a.closed then Out(TupletError, i, m.(tupletNotes := a.notes), r)
      else
        var len := SampleLength(m, s, a.pos + 1).0;
        var m1 := m.(tupletNotes := a.notes, tupletLength := len);
        if a.notes == 0 then Out(TupletError, i, m1, r)
        else Out(TupletStart, i, m1.(mode := TupletMode, curTuplet := 0), r.(length := len))
  }

  function HandleStop(s: string, m: Mml, i: nat, r: Sound): (o: Out)
    requires i <= |s|
    ensures i <= o.pos <= |s|
  {
    var m1 := m.(mode := NormalMode);
    Out(if m.curTuplet != m.tupletNotes then TooFew else TupletDone, SampleLength(m1, s, i).1, m1, r)
  }

  // ----- settings -----

  function HandleTempo(s: string, m: Mml, i: nat, r: Sound): (o: Out)
    requires i <= |s|
    ensures i <= o.pos <= |s|
  {
    if IsDigit(At(s, i)) then
      Out(Tempo, i + Digits(s, i), m.(curTempo := Atoi(s, i)), r.(length := Atoi(s, i)))
    else Out(TempoError, i, m, r)
  }

  function HandleLength(s: string, m: Mml, i: nat, r: Sound): (o: Out)
    requires i <= |s|
    ensures i <= o.pos <= |s|
  {
    if IsDigit(At(s, i)) then
      Out(Length, i + Digits(s, i), m.(defLength := Atoi(s, i)), r.(length := Atoi(s, i)))
    else Out(LengthError, i, m, r)
  }

  function HandleVolume(s: string, m: Mml, i: nat, r: Sound): (o: Out)
    requires i <= |s|
    ensures i <= o.pos <= |s|
  {
    var v := Atoi(s, i);
    Out(if v < 0 || v > 100 then VolumeError else Volume, i + Digits(s, i), m, r.(length := v))
  }

  function HandleTone(s: string, m: Mml, i: nat, r: Sound): (o: Out)
    requires i <= |s|
    requires |r.noteIdx| == MAX_CHORD_NOTES
    ensures i <= o.pos <= |s|
  {
    if IsDigit(At(s, i)) then
      Out(Tone, i + Digits(s, i), m, r.(noteIdx := r.noteIdx[0 := Atoi(s, i)]))
    else Out(ToneError, i, m, r)
  }

  /** `parse_mml`: one token. */
  function Parse(s: string, m: Mml, i: nat, r0: Sound): (o: Out)
    requires i <= |s|
    requires |r0.noteIdx| == MAX_CHORD_NOTES
    ensures i <= o.pos <= |s| + 1
    ensures o.pos > |s| ==> o.kind == ChordError
    ensures CString(s) && o.kind != Eof ==> o.pos > i
  {
    var j := SkipSpace(s, i);
    var code := At(s, j);
    var r := r0.(chordNotes := 0);
    if 'A' <= code <= 'G' then HandleNotes(s, m, j + 1, code, r)
    else if code == 'R' then HandleRest(s, m, j + 1, r)
    else if code == 'T' then HandleTempo(s, m, j + 1, r)
    else if code == 'L' then HandleLength(s, m, j + 1, r)
    else if IsOctaveCode(code) then HandleOctave(s, m, j + 1, code, r)
    else if code == 'V' then HandleVolume(s, m, j + 1, r)
    else if code == '[' then HandleChord(s, m, j + 1, r)
    else if code == '{' then HandleStart(s, m, j + 1, r)
    else if code == '}' then HandleStop(s, m, j + 1, r)
    else if code == '@' then HandleTone(s, m, j + 1, r)
    else if code == '\0' then Out(Eof, j, m, r)
    else Out(Composition, j + 1, m, r)
  }
}
