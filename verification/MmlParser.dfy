/**
The MML parser as the source writes it: fields updated in place, a cursor that
loops advance. Each method is proved against the function of `MmlModel` it computes.
*/
module MmlParser {
  import opened MmlFault
  import opened MmlModel
  import opened CArith

  datatype LengthState = NumberRead | PlusRead

  method SkipSpaces(s: string, i: nat) returns (j: nat)
    requires i <= |s|
    ensures j == SkipSpace(s, i)
  {
    j := i;
    while j < |s| && IsSpace(s[j])
      invariant i <= j <= |s|
      invariant SkipSpace(s, j) == SkipSpace(s, i)
    {
      j := j + 1;
    }
  }

  method NextCode(s: string, i: nat) returns (code: char, j: nat)
    requires i <= |s|
    ensures j == SkipSpace(s, i) + 1 && code == At(s, j - 1)
  {
    j := SkipSpaces(s, i);
    code := At(s, j);
    j := j + 1;
  }

  method SkipTo(s: string, i: nat, until: char) returns (j: nat)
    requires CString(s) && i <= |s|
    ensures j == SkipUntil(s, i, until)
  {
    j := i;
    while At(s, j) != until && At(s, j) != '\0'
      invariant i <= j <= |s| && SkipUntil(s, j, until) == SkipUntil(s, i, until)
      decreases |s| - j
    {
      j := j + 1;
    }
  }

  method CountDigits(s: string, i: nat) returns (n: nat)
    requires i <= |s|
    ensures n == Digits(s, i)
  {
    n := 0;
    while i + n < |s| && IsDigit(s[i + n])
      invariant i + n <= |s|
      invariant Digits(s, i) == n + Digits(s, i + n)
    {
      n := n + 1;
    }
  }

  method ReadHalfScale(s: string, i: nat) returns (delta: int, j: nat)
    requires i <= |s|
    ensures (delta, j) == HalfScale(s, i)
  {
    delta, j := 0, i;
    while At(s, j) == '+' || At(s, j) == '#' || At(s, j) == '-'
      invariant i <= j <= |s|
      invariant HalfScale(s, i).0 == delta + HalfScale(s, j).0 && HalfScale(s, i).1 == HalfScale(s, j).1
      decreases |s| - j
    {
      if At(s, j) == '-' {
        delta := delta - 1;
      } else {
        delta := delta + 1;
      }
      j := j + 1;
    }
  }

  /** `fault` is set where the source divides by zero; the result then means nothing. */
  method ComputeSamples(fs: int, tempo: int, num: int, dots: nat) returns (samples: int, fault: bool)
    ensures samples == CalcSamples(fs, tempo, num, dots)
    ensures fault == (IsNoteValue(num) && dots <= 4 && tempo == 0)
  {
    if !IsNoteValue(num) || dots > 4 {
      return -EINVAL, false;
    }
    var n := match num case 0 => 3 case 1 => 2 case 2 => 1 case _ => 0;
    var div := match num case 8 => 1 case 16 => 2 case 32 => 3 case 64 => 4 case _ => 0;
    var mul, d := 16, dots;
    while d > 0
      invariant 0 <= d <= dots
      invariant mul + DotMultiplier(d) - 16 == DotMultiplier(dots)
    {
      mul := mul + Pow2(4 - d);
      d := d - 1;
    }
    if tempo == 0 {
      return 0, true;
    }
    samples, fault := CDiv((15 * fs * mul) * Pow2(n) / Pow2(2 + div), tempo), false;
  }

  class Parser {
    var curTempo: int
    var curOctave: int
    var defLength: int
    var fs: int
    var mode: Mode
    var curTuplet: int
    var tupletNotes: int
    var tupletLength: int
    var faulted: bool        // a division by zero has been met

    ghost function View(): Mml
      reads this
    {
      Mml(curTempo, curOctave, defLength, fs, mode, curTuplet, tupletNotes, tupletLength)
    }

    constructor (fs: int, tempo: int, octave: int, length: int)
      ensures View() == Mml(tempo, octave, length, fs, NormalMode, 0, 0, 0) && !faulted
    {
      faulted := false;
      this.fs, curTempo, curOctave, defLength := fs, tempo, octave, length;
      mode, curTuplet, tupletNotes, tupletLength := NormalMode, 0, 0, 0;
    }

    method Samples(samples: int, num: int, dots: nat, plus: bool) returns (r: int)
      modifies this`faulted
      ensures r == GetSamples(View(), samples, num, dots, plus)
      ensures faulted == (old(faulted) || TermFaults(View(), num, dots))
      ensures curTempo == 0 ==> TermFaults(View(), num, dots) || r < 0
    {
      var len, fault := ComputeSamples(fs, curTempo, if num < 0 then defLength else num, dots);
      faulted := faulted || fault;
      r := if len > 0 && plus then samples + len else len;
    }

    /** Where the length scanner stands: the answer it will still come to. */
    ghost function Pending(s: string, j: nat, state: LengthState, num: int, dots: nat, plus: bool, samples: int): (int, nat)
      reads this
      requires j <= |s|
    {
      if state == NumberRead then Numbered(View(), s, j, num, dots, plus, samples)
      else if IsDigit(At(s, j)) then Numbered(View(), s, j + Digits(s, j), Atoi(s, j), dots, true, samples)
      else (-EINVAL, j)
    }

    /** The state loop of `sample_length` from the first number or dot on. */
    method ReadTerms(s: string, i: nat, num0: int, dots0: nat, samples0: int) returns (samples: int, j: nat)
      requires i <= |s|
      modifies this`faulted
      ensures (samples, j) == Numbered(View(), s, i, num0, dots0, false, samples0)
      ensures faulted == (old(faulted) || TermFaults(View(), num0, dots0 + DotRun(s, i)))
    {
      hide GetSamples, Atoi, Digits, DotRun, IsNoteValue;
      var dots: nat, num, plus := dots0, num0, false;
      var state, parsing := NumberRead, true;
      samples, j := samples0, i;
      ghost var fault := TermFaults(View(), num0, dots0 + DotRun(s, i));
      while parsing
        invariant i <= j <= |s|
        invariant state == PlusRead ==> plus
        invariant Numbered(View(), s, i, num0, dots0, false, samples0) ==
                  if parsing then Pending(s, j, state, num, dots, plus, samples) else (samples, j)
        invariant !plus && parsing ==> num == num0 && dots + DotRun(s, j) == dots0 + DotRun(s, i) && faulted == old(faulted)
        invariant plus || !parsing ==> faulted == (old(faulted) || fault)
        invariant plus && parsing && curTempo == 0 ==> faulted
        decreases |s| - j, parsing
      {
        DotRunHere(s, j);
        if state == PlusRead {
          if IsDigit(At(s, j)) {
            num := Atoi(s, j);
            var n := CountDigits(s, j);
            j := j + n;
            state := NumberRead;
          } else {
            samples := -EINVAL;
            parsing := false;
          }
        } else if At(s, j) == '.' {
          dots := dots + 1;
          j := j + 1;
        } else if At(s, j) == '+' {
          samples := Samples(samples, num, dots, plus);
          if samples < 0 {
            parsing := false;
          }
          plus, num := true, -1;
          j := j + 1;
          state := PlusRead;
        } else {
          samples := Samples(samples, num, dots, plus);
          parsing := false;
        }
      }
    }

    /** `sample_length`: the state before the first number or dot is left at once. */
    method ReadLength(s: string, i: nat) returns (samples: int, j: nat)
      requires i <= |s|
      modifies this`faulted
      ensures (samples, j) == SampleLength(View(), s, i)
      ensures faulted == (old(faulted) || LengthFaults(View(), s, i))
    {
      hide GetSamples, Atoi, Digits, DotRun, IsNoteValue, Numbered;
      j := i;
      samples := Samples(0, -1, 0, false);
      if !IsQualifier(At(s, j)) {
        return;
      }
      if IsDigit(At(s, j)) {
        DigitsAreCounted(s, j);
        var num := Atoi(s, j);
        var n := CountDigits(s, j);
        samples, j := ReadTerms(s, j + n, num, 0, samples);
      } else {
        samples, j := ReadTerms(s, j + 1, -1, 1, samples);
      }
    }

    method NextTupletShare() returns (length: int)
      modifies this`curTuplet, this`faulted
      ensures length == old(TupletShare(View()))
      ensures View() == old(View()).(curTuplet := old(curTuplet) + 1)
      ensures faulted == (old(faulted) || old(tupletNotes) == 0)
    {
      if tupletNotes == 0 {
        faulted, length := true, 0;
      } else {
        length := CDiv(tupletLength, tupletNotes);
      }
      curTuplet := curTuplet + 1;
      if curTuplet == tupletNotes {
        length := tupletLength - length * (tupletNotes - 1);
      }
    }

    method ReadNotes(s: string, i: nat, code: char, r: Sound) returns (kind: Kind, j: nat, r': Sound)
      requires i <= |s| && |r.noteIdx| == MAX_CHORD_NOTES
      modifies this
      ensures Out(kind, j, View(), r') == HandleNotes(s, old(View()), i, code, r)
      ensures faulted == (old(faulted) ||
                           if old(mode) == TupletMode then old(tupletNotes) == 0 && old(curTuplet) < 0
                           else LengthFaults(old(View()), s, HalfScale(s, i).1))
    {
      kind, j, r' := Note, i, r.(chordNotes := 1);
      if mode == TupletMode && curTuplet >= tupletNotes {
        kind := TooMany;
        return;
      }
      var delta;
      delta, j := ReadHalfScale(s, i);
      r' := r'.(noteIdx := r'.noteIdx[0 := NoteIndex(code) + delta + curOctave * 12]);
      var length;
      if mode == TupletMode {
        length := NextTupletShare();
      } else {
        length, j := ReadLength(s, j);
        kind := if length < 0 then NoteError else Note;
      }
      r' := r'.(length := length);
    }

    method ReadRest(s: string, i: nat, r: Sound) returns (kind: Kind, j: nat, r': Sound)
      requires i <= |s|
      modifies this
      ensures Out(kind, j, View(), r') == HandleRest(s, old(View()), i, r)
      ensures faulted == (old(faulted) || if old(mode) == TupletMode then old(tupletNotes) == 0 else LengthFaults(old(View()), s, i))
    {
      var length;
      if mode == TupletMode {
        length := NextTupletShare();
        kind, j := Rest, i;
      } else {
        length, j := ReadLength(s, i);
        kind := if length < 0 then RestError else Rest;
      }
      r' := r.(length := length);
    }

    method ReadOctave(s: string, i: nat, code: char, r: Sound) returns (kind: Kind, j: nat, r': Sound)
      requires i <= |s|
      modifies this`curOctave
      ensures Out(kind, j, View(), r') == HandleOctave(s, old(View()), i, code, r)
    {
      kind, j, r' := Octave, i, r;
      if code == '>' {
        curOctave := curOctave + 1;
        r' := r.(length := curOctave);
      } else if code == '<' {
        curOctave := curOctave - 1;
        r' := r.(length := curOctave);
      } else if IsDigit(At(s, i)) {
        curOctave := Atoi(s, i);
        r' := r.(length := curOctave);
        var n := CountDigits(s, i);
        j := i + n;
      } else {
        kind := OctaveError;
      }
    }

    /** One pass of the chord loop. */
    method ReadChordCode(s: string, i: nat, code: char, r: Sound) returns (kind: Kind, j: nat, r': Sound)
      requires i <= |s| && |r.noteIdx| == MAX_CHORD_NOTES
      modifies this`curOctave
      ensures Out(kind, j, View(), r') == ChordCode(s, old(View()), i, code, r)
    {
      kind, j, r' := Chord, i, r;
      var note := NoteIndex(code);
      if note >= 0 {
        var delta;
        delta, j := ReadHalfScale(s, i);
        note := note + delta + curOctave * 12;
        if r.chordNotes < MAX_CHORD_NOTES {
          r' := r.(noteIdx := r.noteIdx[r.chordNotes := note], chordNotes := r.chordNotes + 1);
        }
      } else if IsOctaveCode(code) {
        kind, j, r' := ReadOctave(s, i, code, r);
        kind := if kind == OctaveError then ChordError else Chord;
      } else {
        kind := ChordError;
      }
    }

    method ReadChord(s: string, i: nat, r: Sound) returns (kind: Kind, j: nat, r': Sound)
      requires CString(s) && i <= |s| && |r.noteIdx| == MAX_CHORD_NOTES
      modifies this
      ensures Out(kind, j, View(), r') == HandleChord(s, old(View()), i, r)
      ensures var o := ChordCodes(s, old(View()), i, r);
              faulted == (old(faulted) ||
                          (o.kind == Chord && if old(mode) == TupletMode then old(tupletNotes) == 0 else LengthFaults(old(View()), s, o.pos)))
    {
      hide ChordCode, SkipSpace, TupletShare, SampleLength;
      ghost var goal := ChordCodes(s, View(), i, r);
      var code;
      r' := r;
      ghost var at := i;
      code, j := NextCode(s, i);
      while code != ']' && code != '\0'
        invariant at <= |s| && j == SkipSpace(s, at) + 1 && code == At(s, j - 1)
        invariant |r'.noteIdx| == MAX_CHORD_NOTES
        invariant mode == old(mode) && faulted == old(faulted)
        invariant tupletNotes == old(tupletNotes) && curTempo == old(curTempo) && defLength == old(defLength)
        invariant goal == ChordCodes(s, View(), at, r')
        decreases |s| - at
      {
        kind, j, r' := ReadChordCode(s, j, code, r');
        if kind == ChordError {
          return;
        }
        at := j;
        code, j := NextCode(s, j);
      }
      if code == '\0' {
        kind := ChordError;
        return;
      }
      var length;
      if mode == TupletMode {
        length := NextTupletShare();
      } else {
        length, j := ReadLength(s, j);
      }
      kind := if length < 0 then ChordError else Chord;
      r' := r'.(length := length);
    }

    method LookAhead(s: string, i: nat) returns (ok: bool, j: nat)
      requires CString(s) && i <= |s| && tupletNotes == 0
      modifies this`tupletNotes
      ensures tupletNotes >= 0 && Ahead(ok, tupletNotes, j) == CountNotes(s, i, 0)
    {
      hide SkipSpace, SkipUntil, CountNotes;
      j := SkipSpaces(s, i);
      SpacesDoNotCount(s, i, 0);
      while At(s, j) != '}'
        invariant i <= j <= |s| && !IsSpace(At(s, j)) && tupletNotes >= 0
        invariant CountNotes(s, j, tupletNotes) == CountNotes(s, i, 0)
        decreases |s| - j
      {
        CountHere(s, j, tupletNotes);
        if IsNoteLetter(At(s, j)) || At(s, j) == '\0' {
          tupletNotes := tupletNotes + 1;
        } else if At(s, j) == '[' {
          j := SkipTo(s, j, ']');
          tupletNotes := tupletNotes + 1;
        }
        if At(s, j) == '\0' {
          return false, j;
        }
        SpacesDoNotCount(s, j + 1, tupletNotes);
        j := SkipSpaces(s, j + 1);
      }
      CountEnd(s, j, tupletNotes);
      ok := true;
    }

    lemma {:induction false} CountEnd(s: string, j: nat, notes: nat)
      requires j <= |s| && At(s, j) == '}'
      ensures CountNotes(s, j, notes) == Ahead(true, notes, j)
    {
    }

    /** One step of the count at a character that is not white space. */
    lemma {:induction false} CountHere(s: string, j: nat, notes: nat)
      requires CString(s) && j <= |s| && !IsSpace(At(s, j)) && At(s, j) != '}'
      ensures CountNotes(s, j, notes) ==
              if j == |s| then Ahead(false, notes + 1, j)
              else if IsNoteLetter(s[j]) then CountNotes(s, j + 1, notes + 1)
              else if s[j] == '[' then
                var k := SkipUntil(s, j, ']');
                if k == |s| then Ahead(false, notes + 1, k) else CountNotes(s, k + 1, notes + 1)
              else CountNotes(s, j + 1, notes)
    {
      hide SkipSpace, SkipUntil;
      NoSpaceHere(s, j);
    }

    lemma {:induction false} NoSpaceHere(s: string, j: nat)
      requires j <= |s| && !IsSpace(At(s, j))
      ensures SkipSpace(s, j) == j
    {
    }

    lemma {:induction false} SpacesDoNotCount(s: string, i: nat, notes: nat)
      requires i <= |s|
      ensures CountNotes(s, SkipSpace(s, i), notes) == CountNotes(s, i, notes)
    {
    }

    method ReadStart(s: string, i: nat, r: Sound) returns (kind: Kind, j: nat, r': Sound)
      requires CString(s) && i <= |s|
      modifies this
      ensures Out(kind, j, View(), r') == HandleStart(s, old(View()), i, r)
      ensures var a := CountNotes(s, i, 0);
              faulted == (old(faulted) || (old(mode) == NormalMode && a.closed && LengthFaults(old(View()), s, a.pos + 1)))
    {
      hide SampleLength, CountNotes, DotRun, Atoi, Digits, IsNoteValue;
      j, r' := i, r;
      if mode != NormalMode {
        kind := DoubleTuplet;
        return;
      }
      tupletNotes := 0;
      var ok, end := LookAhead(s, i);
      kind := TupletError;
      if !ok {
        return;
      }
      assert SampleLength(View(), s, end + 1) == SampleLength(old(View()), s, end + 1) by {
        LengthIgnoresTuplets(View(), old(View()), s, end + 1);
      }
      var length, _ := ReadLength(s, end + 1);
      tupletLength := length;
      if tupletNotes == 0 {
        return;
      }
      mode := TupletMode;
      curTuplet := 0;
      r' := r.(length := length);
      kind := TupletStart;
    }

    method ReadStop(s: string, i: nat, r: Sound) returns (kind: Kind, j: nat, r': Sound)
      requires i <= |s|
      modifies this`mode, this`faulted
      ensures Out(kind, j, View(), r') == HandleStop(s, old(View()), i, r)
      ensures faulted == (old(faulted) || LengthFaults(old(View()), s, i))
    {
      mode := NormalMode;
      var _, k := ReadLength(s, i);
      kind, j, r' := if curTuplet != tupletNotes then TooFew else TupletDone, k, r;
    }

    /** `T`, `L`, `V` and `@` with their numbers. */
    method ReadSetting(s: string, i: nat, code: char, r: Sound) returns (kind: Kind, j: nat, r': Sound)
      requires i <= |s| && |r.noteIdx| == MAX_CHORD_NOTES
      requires code == 'T' || code == 'L' || code == 'V' || code == '@'
      modifies this
      ensures Out(kind, j, View(), r') ==
              if code == 'T' then HandleTempo(s, old(View()), i, r)
              else if code == 'L' then HandleLength(s, old(View()), i, r)
              else if code == 'V' then HandleVolume(s, old(View()), i, r)
              else HandleTone(s, old(View()), i, r)
      ensures faulted == old(faulted)
    {
      var n := CountDigits(s, i);
      var value := Atoi(s, i);
      j, r' := i + n, r;
      if code == 'V' {
        r' := r.(length := value);
        kind := if value < 0 || value > 100 then VolumeError else Volume;
      } else if !IsDigit(At(s, i)) {
        kind := if code == 'T' then TempoError else if code == 'L' then LengthError else ToneError;
      } else if code == 'T' {
        curTempo := value;
        kind, r' := Tempo, r.(length := value);
      } else if code == 'L' {
        defLength := value;
        kind, r' := Length, r.(length := value);
      } else {
        kind, r' := Tone, r.(noteIdx := r.noteIdx[0 := value]);
      }
    }

    method ParseMml(s: string, i: nat, r: Sound) returns (kind: Kind, j: nat, r': Sound)
      requires CString(s) && i <= |s| && |r.noteIdx| == MAX_CHORD_NOTES
      modifies this
      ensures Out(kind, j, View(), r') == Parse(s, old(View()), i, r)
      ensures faulted == (old(faulted) || Faults(s, old(View()), i, r))
    {
      hide HandleNotes, HandleRest, HandleOctave, HandleChord, HandleStart, HandleStop, HandleTempo, HandleLength, HandleVolume, HandleTone, SkipSpace;
      var code;
      code, j := NextCode(s, i);
      r' := r.(chordNotes := 0);
      if 'A' <= code <= 'G' {
        kind, j, r' := ReadNotes(s, j, code, r');
      } else if code == 'R' {
        kind, j, r' := ReadRest(s, j, r');
      } else if code == 'T' || code == 'L' || code == 'V' || code == '@' {
        kind, j, r' := ReadSetting(s, j, code, r');
      } else if IsOctaveCode(code) {
        kind, j, r' := ReadOctave(s, j, code, r');
      } else if code == '[' {
        kind, j, r' := ReadChord(s, j, r');
      } else if code == '{' {
        kind, j, r' := ReadStart(s, j, r');
      } else if code == '}' {
        kind, j, r' := ReadStop(s, j, r');
      } else if code == '\0' {
        kind := Eof;
        j := j - 1;
      } else {
        kind := Composition;
      }
    }
  }

  /** A length depends on the rate, the tempo and the default length only. */
  lemma {:induction false} LengthIgnoresTuplets(m: Mml, m': Mml, s: string, i: nat)
    requires i <= |s|
    requires m.fs == m'.fs && m.curTempo == m'.curTempo && m.defLength == m'.defLength
    ensures SampleLength(m, s, i) == SampleLength(m', s, i)
  {
    hide CalcSamples;
    if IsDigit(At(s, i)) {
      NumberedIgnoresTuplets(m, m', s, i + Digits(s, i), Atoi(s, i), 0, false, GetSamples(m, 0, -1, 0, false));
    } else if At(s, i) == '.' {
      NumberedIgnoresTuplets(m, m', s, i + 1, -1, 1, false, GetSamples(m, 0, -1, 0, false));
    }
  }

  lemma {:induction false} NumberedIgnoresTuplets(m: Mml, m': Mml, s: string, i: nat, num: int, dots: nat, plus: bool, samples: int)
    requires i <= |s|
    requires m.fs == m'.fs && m.curTempo == m'.curTempo && m.defLength == m'.defLength
    ensures Numbered(m, s, i, num, dots, plus, samples) == Numbered(m', s, i, num, dots, plus, samples)
    decreases |s| - i
  {
    hide CalcSamples;
    if At(s, i) == '.' {
      NumberedIgnoresTuplets(m, m', s, i + 1, num, dots + 1, plus, samples);
    } else if At(s, i) == '+' && IsDigit(At(s, i + 1)) {
      NumberedIgnoresTuplets(m, m', s, i + 1 + Digits(s, i + 1), Atoi(s, i + 1), dots, true, GetSamples(m, samples, num, dots, plus));
    }
  }
}
