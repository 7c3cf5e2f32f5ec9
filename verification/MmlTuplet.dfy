/**
Tuplets: the look-ahead that counts notes at `{` agrees with the calls that
later report them, and the shares they are given add up to the tuplet's length.
*/
module MmlTuplet {
  import opened MmlModel

  /** A call reported a token that is not well formed. */
  predicate Malformed(k: Kind)
  {
    k.NoteError? || k.RestError? || k.TempoError? || k.LengthError? || k.OctaveError? || k.VolumeError? ||
    k.TupletError? || k.ToneError? || k.ChordError? || k.Composition? || k.DoubleTuplet?
  }

  predicate Sounding(k: Kind)
  {
    k.Note? || k.Rest? || k.Chord?
  }

  /** Characters the look-ahead passes over without counting. */
  predicate Neutral(c: char)
  {
    !IsNoteLetter(c) && c != '[' && c != '}'
  }

  lemma {:induction false} CountNeutral(s: string, i: nat, j: nat, notes: nat)
    requires i <= j <= |s|
    requires forall k :: i <= k < j ==> Neutral(s[k])
    ensures CountNotes(s, i, notes) == CountNotes(s, j, notes)
    decreases j - i
  {
    hide CountNotes;
    if i < j {
      CountOneNeutral(s, i, notes);
      CountNeutral(s, i + 1, j, notes);
    }
  }

  lemma {:induction false} CountOneNeutral(s: string, i: nat, notes: nat)
    requires i < |s| && Neutral(s[i])
    ensures CountNotes(s, i, notes) == CountNotes(s, i + 1, notes)
  {
    if IsSpace(s[i]) {
      assert SkipSpace(s, i) == SkipSpace(s, i + 1);
      hide SkipSpace, SkipUntil;
    } else {
      assert SkipSpace(s, i) == i;
      hide SkipSpace, SkipUntil;
    }
  }

  lemma {:induction false} CountOneNote(s: string, j: nat, notes: nat)
    requires j < |s| && IsNoteLetter(s[j])
    ensures CountNotes(s, j, notes) == CountNotes(s, j + 1, notes + 1)
  {
    assert SkipSpace(s, j) == j;
  }

  lemma {:induction false} CountOneChord(s: string, j: nat, notes: nat, end: nat)
    requires j < |s| && s[j] == '[' && j + 1 < end <= |s| && s[end - 1] == ']'
    requires forall k :: j < k < end - 1 ==> s[k] != ']'
    ensures CountNotes(s, j, notes) == CountNotes(s, end, notes + 1)
  {
    assert SkipSpace(s, j) == j;
    assert SkipUntil(s, j, ']') == end - 1;
  }

  lemma {:induction false} CountStops(s: string, j: nat, notes: nat)
    requires j < |s| && s[j] == '}'
    ensures CountNotes(s, j, notes) == Ahead(true, notes, j)
  {
    assert SkipSpace(s, j) == j;
  }

  /** Inside a tuplet that ends at `close`: the notes reported so far and those ahead make up the count. */
  ghost predicate InTuplet(s: string, m: Mml, i: nat, close: nat)
  {
    && CString(s) && i <= |s|
    && m.mode.TupletMode?
    && 0 <= m.curTuplet <= m.tupletNotes && 0 < m.tupletNotes
    && var a := CountNotes(s, i, m.curTuplet);
       a.closed && a.notes == m.tupletNotes && a.pos == close
  }

  /** What one well-formed call inside a tuplet does. */
  ghost predicate GoodCall(s: string, m: Mml, i: nat, o: Out, close: nat)
    requires i <= |s|
  {
    if Sounding(o.kind) then
      && m.curTuplet < m.tupletNotes
      && InTuplet(s, o.mml, o.pos, close)
      && o.mml.curTuplet == m.curTuplet + 1
      && o.mml.tupletNotes == m.tupletNotes && o.mml.tupletLength == m.tupletLength
      && o.mml.fs == m.fs && (m.curTempo >= 0 ==> o.mml.curTempo >= 0)
      && o.sound.length == TupletShare(m)
    else if o.kind.TupletDone? then
      && m.curTuplet == m.tupletNotes && SkipSpace(s, i) == close < |s|
      && o.mml == m.(mode := NormalMode) && o.pos == SampleLength(o.mml, s, close + 1).1
    else
      && (o.kind.Tempo? || o.kind.Length? || o.kind.Octave? || o.kind.Volume? || o.kind.Tone?)
      && InTuplet(s, o.mml, o.pos, close)
      && o.mml.curTuplet == m.curTuplet
      && o.mml.tupletNotes == m.tupletNotes && o.mml.tupletLength == m.tupletLength
      && o.mml.fs == m.fs && (m.curTempo >= 0 ==> o.mml.curTempo >= 0)
  }

  lemma {:induction false} CallNote(s: string, m: Mml, j: nat, r: Sound, close: nat)
    requires InTuplet(s, m, j, close) && j < |s| && 'A' <= s[j] <= 'G'
    requires |r.noteIdx| == MAX_CHORD_NOTES
    ensures GoodCall(s, m, j, HandleNotes(s, m, j + 1, s[j], r), close)
  {
    hide SampleLength, TupletShare, Quotient, CountNotes, HalfScale, SkipSpace;
    CountOneNote(s, j, m.curTuplet);
    var (_, k) := HalfScale(s, j + 1);
    CountNeutral(s, j + 1, k, m.curTuplet + 1);
  }

  /** A chord that is read to its end stops at the first `]`. */
  lemma {:induction false} ChordStopsAtFirst(s: string, m: Mml, i: nat, r: Sound)
    requires i <= |s|
    requires |r.noteIdx| == MAX_CHORD_NOTES
    requires ChordCodes(s, m, i, r).kind == Chord
    ensures forall k :: i <= k < ChordCodes(s, m, i, r).pos - 1 ==> s[k] != ']'
    decreases |s| - i
  {
    hide ChordCode, SkipSpace;
    var j := SkipSpace(s, i);
    if At(s, j) != ']' {
      var o := ChordCode(s, m, j + 1, At(s, j), r);
      ChordCodeAvoids(s, m, j + 1, At(s, j), r);
      ChordStopsAtFirst(s, o.mml, o.pos, o.sound);
    }
  }

  lemma {:induction false} CallChord(s: string, m: Mml, j: nat, r: Sound, close: nat)
    requires InTuplet(s, m, j, close) && j < |s| && s[j] == '['
    requires |r.noteIdx| == MAX_CHORD_NOTES
    ensures var o := HandleChord(s, m, j + 1, r); Malformed(o.kind) || GoodCall(s, m, j, o, close)
  {
    hide ChordCodes, CountNotes, SampleLength, Quotient;
    var o := ChordCodes(s, m, j + 1, r);
    ChordKeeps(s, m, j + 1, r);
    if o.kind == Chord {
      ChordStopsAtFirst(s, m, j + 1, r);
      CountOneChord(s, j, m.curTuplet, o.pos);
    }
  }

  lemma {:induction false} CallSetting(s: string, m: Mml, j: nat, o: Out, close: nat)
    requires InTuplet(s, m, j, close) && j < |s| && Neutral(s[j]) && !IsSpace(s[j])
    requires j < o.pos <= |s| && forall k :: j + 1 <= k < o.pos ==> IsDigit(s[k])
    requires o.kind.Tempo? || o.kind.Length? || o.kind.Octave? || o.kind.Volume? || o.kind.Tone?
    requires m.curTempo >= 0 ==> o.mml.curTempo >= 0
    requires o.mml == m.(curTempo := o.mml.curTempo, defLength := o.mml.defLength, curOctave := o.mml.curOctave)
    ensures GoodCall(s, m, j, o, close)
  {
    CountNeutral(s, j, o.pos, m.curTuplet);
  }

  lemma {:induction false} NumberNotNegative(s: string, i: nat)
    requires i <= |s| && IsDigit(At(s, i))
    ensures Atoi(s, i) >= 0
  {
  }

  lemma {:induction false} TupletCall(s: string, m: Mml, i: nat, r: Sound, close: nat)
    requires InTuplet(s, m, i, close)
    requires |r.noteIdx| == MAX_CHORD_NOTES
    ensures var o := Parse(s, m, i, r); Malformed(o.kind) || GoodCall(s, m, i, o, close)
  {
    hide HandleChord, HandleNotes, HandleOctave, SampleLength, CountNotes, Atoi, Digits, SkipSpace, TupletShare;
    var j := SkipSpace(s, i);
    CountNeutral(s, i, j, m.curTuplet);
    assert j < |s|;
    var r1 := r.(chordNotes := 0);
    var o := Parse(s, m, i, r);
    if 'A' <= s[j] <= 'G' {
      CallNote(s, m, j, r1, close);
    } else if s[j] == '[' {
      CallChord(s, m, j, r1, close);
    } else if s[j] == 'R' {
      CountOneNote(s, j, m.curTuplet);
    } else if s[j] == '}' {
      CountStops(s, j, m.curTuplet);
    } else if s[j] == 'T' || s[j] == 'L' || IsOctaveCode(s[j]) || s[j] == 'V' || s[j] == '@' {
      if !Malformed(o.kind) {
        if s[j] == 'T' {
          NumberNotNegative(s, j + 1);
        }
        CallSetting(s, m, j, o, close);
      }
    }
  }

  // ----- all calls up to the closing brace -----

  /** How a run of calls ended, where the token of the last one stands and the cursor and state it left,
      how many notes, rests and chords were reported, and their total length. */
  datatype Report = Report(last: Kind, at: nat, pos: nat, mml: Mml, notes: nat, total: int)

  predicate Ends(k: Kind)
  {
    Malformed(k) || k.TupletDone? || k.TooFew? || k.TooMany? || k.Eof?
  }

  function Calls(s: string, m: Mml, i: nat, r: Sound): (p: Report)
    requires CString(s) && i <= |s|
    requires |r.noteIdx| == MAX_CHORD_NOTES
    decreases |s| - i
  {
    hide Parse;
    var o := Parse(s, m, i, r);
    if Ends(o.kind) then Report(o.kind, SkipSpace(s, i), o.pos, o.mml, 0, 0)
    else
      var rest := Calls(s, o.mml, o.pos, r);
      if Sounding(o.kind) then rest.(notes := rest.notes + 1, total := rest.total + o.sound.length) else rest
  }

  lemma {:induction false} CallsConserve(s: string, m: Mml, i: nat, r: Sound, close: nat)
    requires InTuplet(s, m, i, close)
    requires |r.noteIdx| == MAX_CHORD_NOTES
    requires !Malformed(Calls(s, m, i, r).last)
    ensures var p := Calls(s, m, i, r);
            && p.last == TupletDone && p.at == close < |s| && s[close] == '}'
            && p.mml.mode.NormalMode? && p.mml.fs == m.fs && (m.curTempo >= 0 ==> p.mml.curTempo >= 0)
            && p.pos == SampleLength(p.mml, s, close + 1).1
            && p.notes == m.tupletNotes - m.curTuplet
            && p.total == if m.curTuplet == m.tupletNotes then 0
                          else m.tupletLength - m.curTuplet * Quotient(m.tupletLength, m.tupletNotes)
    decreases |s| - i
  {
    hide Parse, Quotient, CountNotes, SampleLength, SkipSpace;
    TupletCall(s, m, i, r, close);
    var o := Parse(s, m, i, r);
    if !Ends(o.kind) {
      CallsConserve(s, o.mml, o.pos, r, close);
      OneShareMore(m.curTuplet, Quotient(m.tupletLength, m.tupletNotes));
    }
  }

  lemma {:induction false} OneShareMore(n: int, share: int)
    ensures (n + 1) * share == n * share + share
  {
  }

  /** A successful `{` enters the tuplet at its first note. Its length is the one written behind the
      brace that the look-ahead stops at. */
  lemma {:induction false} StartsTuplet(s: string, m: Mml, i: nat, r: Sound)
    requires CString(s) && i <= |s| && |r.noteIdx| == MAX_CHORD_NOTES
    requires Parse(s, m, i, r).kind == TupletStart
    ensures var o := Parse(s, m, i, r);
            && o.pos <= |s| && m.mode.NormalMode? && o.mml.curTuplet == 0 && o.mml.fs == m.fs && o.mml.curTempo == m.curTempo
            && var close := CountNotes(s, o.pos, 0).pos;
               InTuplet(s, o.mml, o.pos, close) && close < |s| && o.mml.tupletLength == SampleLength(m, s, close + 1).0
  {
    hide SampleLength, HandleChord, HandleOctave, CountNotes, SkipSpace, HalfScale, Atoi, Digits, TupletShare;
  }

  /** After a successful `{`, unless a malformed token is reported first, the calls reach `}` without a
      too-few or too-many result and report exactly the notes counted ahead. Their lengths sum to what a
      note would get from the length written behind that `}`, and the last call reads over that length. */
  lemma {:induction false} TupletAgrees(s: string, m: Mml, i: nat, r: Sound)
    requires CString(s) && i <= |s|
    requires |r.noteIdx| == MAX_CHORD_NOTES
    requires Parse(s, m, i, r).kind == TupletStart
    ensures var o := Parse(s, m, i, r);
            var p := Calls(s, o.mml, o.pos, r);
            && o.pos <= |s|
            && (!Malformed(p.last) ==>
                  && p.last == TupletDone && p.notes == o.mml.tupletNotes && p.total == o.mml.tupletLength
                  && p.at < |s| && s[p.at] == '}'
                  && p.total == SampleLength(m, s, p.at + 1).0
                  && p.mml.mode.NormalMode? && p.mml.fs == m.fs && (m.curTempo >= 0 ==> p.mml.curTempo >= 0)
                  && p.pos == SampleLength(p.mml, s, p.at + 1).1)
  {
    hide Parse, Calls, CountNotes, Quotient, SampleLength;
    StartsTuplet(s, m, i, r);
    var o := Parse(s, m, i, r);
    if !Malformed(Calls(s, o.mml, o.pos, r).last) {
      CallsConserve(s, o.mml, o.pos, r, CountNotes(s, o.pos, 0).pos);
    }
  }
}
