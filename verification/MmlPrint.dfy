/**
Scores that are written and read back. `Print` writes notes, rests, chords and
settings as text; `ScoreReads` proves that reading the text call by call
reports each of them with its pitches, its length or its value, and then the
end of the score. Tuplets are the subject of `MmlTuplet` and `MmlTotal`.
*/
module MmlPrint {
  import opened MmlModel
  import opened MmlChain
  import opened MmlCalls

  /** What stands in a chord: notes and changes of the octave. */
  datatype Code = NoteC(letter: char, acc: string) | OctaveC(n: nat) | UpC | DownC

  /** Lengths are chains, or empty for the default length. */
  datatype Token =
    | NoteT(letter: char, acc: string, lengths: seq<Term>)
    | RestT(lengths: seq<Term>)
    | ChordT(codes: seq<Code>, lengths: seq<Term>)
    | SettingT(letter: char, n: nat)
    | UpT
    | DownT

  predicate WellCode(c: Code)
  {
    c.NoteC? ==> IsNoteName(c.letter) && Accidentals(c.acc)
  }

  predicate WellToken(t: Token)
  {
    match t
    case NoteT(letter, acc, lengths) => IsNoteName(letter) && Accidentals(acc) && (lengths == [] || Chain(lengths))
    case RestT(lengths) => lengths == [] || Chain(lengths)
    case ChordT(codes, lengths) => (forall k :: 0 <= k < |codes| ==> WellCode(codes[k])) && (lengths == [] || Chain(lengths))
    case SettingT(letter, _) => letter == 'T' || letter == 'L' || letter == 'O' || letter == 'V' || letter == '@'
    case _ => true
  }

  // ----- writing -----

  function LengthText(terms: seq<Term>): string
  {
    if terms == [] then "" else ChainText(terms, false)
  }

  function CodeText(c: Code): string
  {
    match c
    case NoteC(letter, acc) => [letter] + acc
    case OctaveC(n) => "O" + Written(n)
    case UpC => ">"
    case DownC => "<"
  }

  function CodesText(codes: seq<Code>): string
  {
    if codes == [] then "]" else CodeText(codes[0]) + CodesText(codes[1..])
  }

  function Body(t: Token): string
  {
    match t
    case NoteT(letter, acc, lengths) => [letter] + (acc + LengthText(lengths))
    case RestT(lengths) => "R" + LengthText(lengths)
    case ChordT(codes, lengths) => "[" + (CodesText(codes) + LengthText(lengths))
    case SettingT(letter, n) => [letter] + Written(n)
    case UpT => ">"
    case DownT => "<"
  }

  function Print(tokens: seq<Token>): string
  {
    if tokens == [] then "" else Body(tokens[0]) + (" " + Print(tokens[1..]))
  }

  // ----- meaning -----

  /** A call as its caller sees it. */
  datatype Heard = Heard(kind: Kind, pitches: seq<int>, value: int)

  function HeardOf(o: Out): Heard
  {
    if (o.kind == Note || o.kind == Chord) && o.sound.chordNotes <= |o.sound.noteIdx| then
      Heard(o.kind, o.sound.noteIdx[..o.sound.chordNotes], o.sound.length)
    else if o.kind == Tone && o.sound.noteIdx != [] then Heard(Tone, [], o.sound.noteIdx[0])
    else if o.kind == Eof then Heard(Eof, [], 0)
    else Heard(o.kind, [], o.sound.length)
  }

  /** A chain whose terms are all note values. */
  predicate Playable(m: Mml, terms: seq<Term>)
    requires terms == [] || Chain(terms)
  {
    if terms == [] then CalcSamples(m.fs, m.curTempo, m.defLength, 0) >= 0
    else (ChainHas(terms); forall k :: 0 <= k < |terms| ==> Worths(m, terms, 0)[k] >= 0)
  }

  function LengthOf(m: Mml, terms: seq<Term>): int
    requires terms == [] || Chain(terms)
  {
    if terms == [] then CalcSamples(m.fs, m.curTempo, m.defLength, 0)
    else (ChainHas(terms); SumSinceZero(Worths(m, terms, 0)))
  }

  function OctaveAfter(codes: seq<Code>, octave: int): int
  {
    if codes == [] then octave
    else OctaveAfter(codes[1..], match codes[0] case NoteC(_, _) => octave case OctaveC(n) => n case UpC => octave + 1 case DownC => octave - 1)
  }

  function Pitches(codes: seq<Code>, octave: int): seq<int>
  {
    if codes == [] then []
    else match codes[0]
      case NoteC(letter, acc) => [Pitch(letter, acc, octave)] + Pitches(codes[1..], octave)
      case OctaveC(n) => Pitches(codes[1..], n)
      case UpC => Pitches(codes[1..], octave + 1)
      case DownC => Pitches(codes[1..], octave - 1)
  }

  function FirstFive(p: seq<int>): seq<int>
  {
    if |p| <= MAX_CHORD_NOTES then p else p[..MAX_CHORD_NOTES]
  }

  predicate PlayableToken(m: Mml, t: Token)
    requires WellToken(t)
  {
    t.NoteT? || t.RestT? || t.ChordT? ==> Playable(m, t.lengths)
  }

  function Meaning(m: Mml, t: Token): Heard
    requires WellToken(t)
  {
    match t
    case NoteT(letter, acc, lengths) => Heard(Note, [Pitch(letter, acc, m.curOctave)], LengthOf(m, lengths))
    case RestT(lengths) => Heard(Rest, [], LengthOf(m, lengths))
    case ChordT(codes, lengths) => Heard(Chord, FirstFive(Pitches(codes, m.curOctave)), LengthOf(m, lengths))
    case SettingT(letter, n) =>
      Heard(match letter
            case 'T' => Tempo
            case 'L' => Length
            case 'O' => Octave
            case 'V' => if n <= 100 then Volume else VolumeError
            case _ => Tone, [], n)
    case UpT => Heard(Octave, [], m.curOctave + 1)
    case DownT => Heard(Octave, [], m.curOctave - 1)
  }

  function Then(m: Mml, t: Token): Mml
  {
    match t
    case ChordT(codes, _) => m.(curOctave := OctaveAfter(codes, m.curOctave))
    case SettingT(letter, n) =>
      if letter == 'T' then m.(curTempo := n) else if letter == 'L' then m.(defLength := n)
      else if letter == 'O' then m.(curOctave := n) else m
    case UpT => m.(curOctave := m.curOctave + 1)
    case DownT => m.(curOctave := m.curOctave - 1)
    case _ => m
  }

  predicate PlayableScore(m: Mml, tokens: seq<Token>)
    decreases |tokens|
  {
    tokens != [] ==> WellToken(tokens[0]) && PlayableToken(m, tokens[0]) && PlayableScore(Then(m, tokens[0]), tokens[1..])
  }

  function Meanings(m: Mml, tokens: seq<Token>): seq<Heard>
    requires PlayableScore(m, tokens)
    decreases |tokens|
  {
    if tokens == [] then [Heard(Eof, [], 0)]
    else [Meaning(m, tokens[0])] + Meanings(Then(m, tokens[0]), tokens[1..])
  }

  /** The calls on a score, one after the other to its end. */
  function ReadAll(s: string, m: Mml, i: nat, r: Sound): seq<Heard>
    requires i <= |s| && |r.noteIdx| == MAX_CHORD_NOTES
    decreases |s| - i
  {
    hide Parse;
    var o := Parse(s, m, i, r);
    if o.kind == Eof || o.pos <= i || o.pos > |s| then [HeardOf(o)]
    else [HeardOf(o)] + ReadAll(s, o.mml, o.pos, r)
  }

  // ----- lengths -----

  lemma {:induction false} SumNotNegative(ws: seq<int>)
    requires forall k :: 0 <= k < |ws| ==> ws[k] >= 0
    ensures SumSinceZero(ws) >= 0
    decreases |ws|
  {
    if ws != [] {
      SumNotNegative(ws[..|ws| - 1]);
    }
  }

  lemma {:induction false} LengthReads(s: string, m: Mml, i: nat, terms: seq<Term>)
    requires (terms == [] || Chain(terms)) && Playable(m, terms) && StandsAt(s, i, LengthText(terms) + " ")
    ensures SampleLength(m, s, i) == (LengthOf(m, terms), i + |LengthText(terms)|) && LengthOf(m, terms) >= 0
  {
    hide CalcSamples, Numbered, Reading, Worths, ReadLength, MoreText, Atoi, SumSinceZero;
    SplitAt(s, i, LengthText(terms), " ");
    FirstChar(s, i + |LengthText(terms)|, " ");
    if terms != [] {
      ChainHas(terms);
      var ws := Worths(m, terms, 0);
      ChainLength(m, s, i, terms, false);
      NoError(ws, 0);
      SumNotNegative(ws);
      WholeLength(terms, false);
    }
  }

  /** A length does not depend on the octave. */
  lemma {:induction false} WorthsKeep(m: Mml, octave: int, terms: seq<Term>, before: nat)
    requires forall k :: 0 <= k < |terms| ==> FirstTerm(terms[k])
    ensures Worths(m.(curOctave := octave), terms, before) == Worths(m, terms, before)
    decreases |terms|
  {
    hide CalcSamples, Decimal;
    if terms != [] {
      WorthsKeep(m, octave, terms[1..], before + terms[0].dots);
    }
  }

  lemma {:induction false} LengthKeeps(m: Mml, octave: int, terms: seq<Term>)
    requires terms == [] || Chain(terms)
    ensures Playable(m.(curOctave := octave), terms) <==> Playable(m, terms)
    ensures LengthOf(m.(curOctave := octave), terms) == LengthOf(m, terms)
  {
    hide CalcSamples, SumSinceZero, Worths;
    if terms != [] {
      ChainHas(terms);
      WorthsKeep(m, octave, terms, 0);
    }
  }

  /** What may follow the accidentals of a note. */
  lemma {:induction false} LengthBegins(terms: seq<Term>)
    requires terms == [] || Chain(terms)
    ensures var t := LengthText(terms) + " "; !IsAccidental(t[0]) && !IsDigit(' ')
  {
    if terms != [] {
      assert ChainText(terms, false) == if terms[0].num == "" then Dots(terms[0].dots) + MoreText(terms[1..], false) else terms[0].num + (Dots(terms[0].dots) + MoreText(terms[1..], false));
    }
  }

  // ----- chords -----

  /** Notes are kept in order up to the fifth. */
  ghost predicate Collected(before: Sound, after: Sound, pitches: seq<int>)
  {
    && |before.noteIdx| == |after.noteIdx| == MAX_CHORD_NOTES && before.chordNotes <= MAX_CHORD_NOTES && after.chordNotes <= MAX_CHORD_NOTES
    && after.noteIdx[..after.chordNotes] == FirstFive(before.noteIdx[..before.chordNotes] + pitches)
  }

  lemma {:induction false} OneMoreNote(r: Sound, after: Sound, p: int, rest: seq<int>)
    requires |r.noteIdx| == MAX_CHORD_NOTES && r.chordNotes <= MAX_CHORD_NOTES && Collected(AddChordNote(r, p), after, rest)
    ensures Collected(r, after, [p] + rest)
  {
    var kept := r.noteIdx[..r.chordNotes];
    assert kept + ([p] + rest) == (kept + [p]) + rest;
    if r.chordNotes < MAX_CHORD_NOTES {
      assert AddChordNote(r, p).noteIdx[..r.chordNotes + 1] == kept + [p];
    } else {
      assert FirstFive(kept + rest) == kept == FirstFive(kept + ([p] + rest));
    }
  }

  lemma {:induction false} SameCollected(r: Sound, r': Sound, after: Sound, rest: seq<int>)
    requires Collected(r', after, rest) && r'.noteIdx == r.noteIdx && r'.chordNotes == r.chordNotes
    ensures Collected(r, after, rest)
  {
  }

  lemma {:induction false} NoSpaceHere(s: string, i: nat)
    requires i <= |s| && !IsSpace(At(s, i))
    ensures SkipSpace(s, i) == i
  {
  }

  lemma {:induction false} CodesBegin(codes: seq<Code>)
    requires forall k :: 0 <= k < |codes| ==> WellCode(codes[k])
    ensures CodesText(codes) != ""
    ensures var c := CodesText(codes)[0]; !IsAccidental(c) && !IsDigit(c) && !IsSpace(c) && c != '\0'
    ensures codes != [] ==> CodesText(codes)[0] == CodeText(codes[0])[0] && CodesText(codes)[0] != ']'
  {
    if codes != [] {
      assert WellCode(codes[0]);
    }
  }

  lemma {:induction false} NoteCodeReads(s: string, m: Mml, i: nat, letter: char, acc: string, r: Sound)
    requires IsNoteName(letter) && Accidentals(acc) && StandsAt(s, i, [letter] + acc) && !IsAccidental(At(s, i + 1 + |acc|))
    requires |r.noteIdx| == MAX_CHORD_NOTES
    ensures i < |s| && ChordCode(s, m, i + 1, letter, r) == Out(Chord, i + 1 + |acc|, m, AddChordNote(r, Pitch(letter, acc, m.curOctave)))
  {
    hide HalfScale, IndexIn, Shift, StandsAt, NoteIndex, AddChordNote, IsAccidental, Accidentals;
    SplitAt(s, i, [letter], acc);
    FirstChar(s, i, [letter]);
    HalfScaleShifts(s, i + 1, acc);
    NamesInScale(letter);
  }

  lemma {:induction false} OctaveCodeReads(s: string, m: Mml, i: nat, n: nat, r: Sound)
    requires StandsAt(s, i, "O" + Written(n)) && !IsDigit(At(s, i + 1 + |Written(n)|)) && |r.noteIdx| == MAX_CHORD_NOTES
    ensures i < |s|
    ensures ChordCode(s, m, i + 1, 'O', r) == Out(Chord, i + 1 + |Written(n)|, m.(curOctave := n), r.(length := n))
  {
    hide Atoi, Digits, Written, Decimal, StandsAt, NoteIndex;
    SplitAt(s, i, "O", Written(n));
    FirstChar(s, i, "O");
    ReadsBack(n);
    ReadNumber(s, i + 1, Written(n));
    NotNotes();
  }

  lemma {:induction false} StepCodeReads(s: string, m: Mml, i: nat, code: char, r: Sound)
    requires i < |s| && (code == '>' || code == '<') && |r.noteIdx| == MAX_CHORD_NOTES
    ensures var octave := m.curOctave + if code == '>' then 1 else -1;
            ChordCode(s, m, i + 1, code, r) == Out(Chord, i + 1, m.(curOctave := octave), r.(length := octave))
  {
    hide NoteIndex;
    NotNotes();
  }

  lemma {:induction false} OneCodeOctave(c: Code, octave: int)
    ensures OctaveAfter([c], octave) ==
            match c case NoteC(_, _) => octave case OctaveC(n) => n case UpC => octave + 1 case DownC => octave - 1
  {
    assert [c][1..] == [];
  }

  lemma {:induction false} CodeReads(s: string, m: Mml, i: nat, c: Code, rest: seq<Code>, r: Sound)
    requires WellCode(c) && (forall k :: 0 <= k < |rest| ==> WellCode(rest[k]))
    requires StandsAt(s, i, CodeText(c) + CodesText(rest)) && |r.noteIdx| == MAX_CHORD_NOTES
    ensures i < |s| && s[i] == CodeText(c)[0]
    ensures var o := ChordCode(s, m, i + 1, s[i], r);
            && o.kind == Chord && o.pos == i + |CodeText(c)| && o.mml == m.(curOctave := OctaveAfter([c], m.curOctave))
            && (if c.NoteC? then o.sound == AddChordNote(r, Pitch(c.letter, c.acc, m.curOctave))
                else o.sound.noteIdx == r.noteIdx && o.sound.chordNotes == r.chordNotes)
  {
    hide CodesText, ChordCode, Written, Pitch, StandsAt, IsAccidental, IsDigit, Accidentals, IsNoteName, AddChordNote, OctaveAfter;
    SplitAt(s, i, CodeText(c), CodesText(rest));
    CodesBegin(rest);
    FirstChar(s, i + |CodeText(c)|, CodesText(rest));
    FirstChar(s, i, CodeText(c));
    OneCodeOctave(c, m.curOctave);
    match c
    case NoteC(letter, acc) => NoteCodeReads(s, m, i, letter, acc, r);
    case OctaveC(n) => OctaveCodeReads(s, m, i, n, r);
    case _ => StepCodeReads(s, m, i, s[i], r);
  }

  lemma {:induction false} NotNotes()
    ensures NoteIndex('O') == -1 && NoteIndex('>') == -1 && NoteIndex('<') == -1
  {
  }

  lemma {:induction false} ChordReads(s: string, m: Mml, i: nat, codes: seq<Code>, r: Sound)
    requires forall k :: 0 <= k < |codes| ==> WellCode(codes[k])
    requires StandsAt(s, i, CodesText(codes)) && |r.noteIdx| == MAX_CHORD_NOTES && r.chordNotes <= MAX_CHORD_NOTES
    ensures var o := ChordCodes(s, m, i, r);
            && o.kind == Chord && o.pos == i + |CodesText(codes)| && o.mml == m.(curOctave := OctaveAfter(codes, m.curOctave))
            && Collected(r, o.sound, Pitches(codes, m.curOctave))
    decreases |codes|
  {
    hide SkipSpace, ChordCode, StandsAt, Collected, CodeText, Pitch, AddChordNote;
    CodesBegin(codes);
    FirstChar(s, i, CodesText(codes));
    NoSpaceHere(s, i);
    if codes == [] {
      NothingCollected(r);
    } else {
      var c, rest := codes[0], codes[1..];
      assert CodesText(codes) == CodeText(c) + CodesText(rest);
      CodeReads(s, m, i, c, rest, r);
      SplitAt(s, i, CodeText(c), CodesText(rest));
      var o := ChordCode(s, m, i + 1, s[i], r);
      KeepsFive(s, m, i + 1, s[i], r);
      ChordReads(s, o.mml, o.pos, rest, o.sound);
      OctaveStep(codes, m.curOctave);
      var after := ChordCodes(s, o.mml, o.pos, o.sound).sound;
      if c.NoteC? {
        OneMoreNote(r, after, Pitch(c.letter, c.acc, m.curOctave), Pitches(rest, m.curOctave));
      } else {
        SameCollected(r, o.sound, after, Pitches(rest, o.mml.curOctave));
      }
    }
  }

  lemma {:induction false} KeepsFive(s: string, m: Mml, i: nat, code: char, r: Sound)
    requires i <= |s| && |r.noteIdx| == MAX_CHORD_NOTES && r.chordNotes <= MAX_CHORD_NOTES
    ensures ChordCode(s, m, i, code, r).sound.chordNotes <= MAX_CHORD_NOTES
  {
    hide HalfScale, Atoi, Digits;
  }

  lemma {:induction false} NothingCollected(r: Sound)
    requires |r.noteIdx| == MAX_CHORD_NOTES && r.chordNotes <= MAX_CHORD_NOTES
    ensures Collected(r, r, [])
  {
    assert r.noteIdx[..r.chordNotes] + [] == r.noteIdx[..r.chordNotes];
  }

  lemma {:induction false} OctaveStep(codes: seq<Code>, octave: int)
    requires codes != []
    ensures var next := OctaveAfter([codes[0]], octave);
            && OctaveAfter(codes, octave) == OctaveAfter(codes[1..], next)
            && Pitches(codes, octave) == (if codes[0].NoteC? then [Pitch(codes[0].letter, codes[0].acc, octave)] else []) + Pitches(codes[1..], next)
            && (codes[0].NoteC? ==> next == octave)
  {
    hide Pitch;
    var one := [codes[0]];
    assert one[1..] == [];
    assert [] + Pitches(codes[1..], OctaveAfter(one, octave)) == Pitches(codes[1..], OctaveAfter(one, octave));
  }

  // ----- tokens -----

  /** A call at `t` reports what it means, brings about the state it should, and stops right behind it. */
  ghost predicate Reads(s: string, m: Mml, i: nat, r: Sound, t: Token)
    requires i <= |s| && |r.noteIdx| == MAX_CHORD_NOTES && WellToken(t)
  {
    var o := Parse(s, m, i, r);
    HeardOf(o) == Meaning(m, t) && o.mml == Then(m, t) && o.pos == SkipSpace(s, i) + |Body(t)|
  }

  lemma {:induction false} NoteText(t: Token)
    requires t.NoteT?
    ensures Body(t) + " " == [t.letter] + (t.acc + (LengthText(t.lengths) + " ")) && |Body(t)| == 1 + |t.acc| + |LengthText(t.lengths)|
  {
    hide LengthText;
  }

  lemma {:induction false} ChordText(t: Token)
    requires t.ChordT?
    ensures Body(t) + " " == "[" + (CodesText(t.codes) + (LengthText(t.lengths) + " ")) && |Body(t)| == 1 + |CodesText(t.codes)| + |LengthText(t.lengths)|
  {
    hide LengthText, CodesText;
  }

  lemma {:induction false} ChordTokenReads(s: string, m: Mml, i: nat, r: Sound, t: Token)
    requires t.ChordT? && WellToken(t) && Playable(m, t.lengths) && m.mode.NormalMode? && |r.noteIdx| == MAX_CHORD_NOTES
    requires i <= |s| && StandsAt(s, SkipSpace(s, i), Body(t) + " ")
    ensures Reads(s, m, i, r, t)
  {
    hide SkipSpace, StandsAt, CodesText, ChordCodes, SampleLength, LengthOf, LengthText, Pitches, OctaveAfter, Playable, Chain, WellCode,
      Parse, HeardOf, Meaning, Body, Collected;
    var codes, lengths := t.codes, t.lengths;
    var j, len := SkipSpace(s, i), LengthText(lengths) + " ";
    ChordText(t);
    SplitAt(s, j, "[", CodesText(codes) + len);
    FirstChar(s, j, "[");
    SplitAt(s, j + 1, CodesText(codes), len);
    ChordReads(s, m, j + 1, codes, r.(chordNotes := 0));
    var o := ChordCodes(s, m, j + 1, r.(chordNotes := 0));
    LengthKeeps(m, o.mml.curOctave, lengths);
    LengthReads(s, o.mml, o.pos, lengths);
    ChordParses(s, m, i, r);
    SameSound(r.(chordNotes := 0), o.sound, Parse(s, m, i, r).sound.length, Pitches(codes, m.curOctave));
    ChordHeard(m, t, r.(chordNotes := 0), Parse(s, m, i, r));
  }

  lemma {:induction false} ChordParses(s: string, m: Mml, i: nat, r: Sound)
    requires i <= |s| && |r.noteIdx| == MAX_CHORD_NOTES && At(s, SkipSpace(s, i)) == '['
    ensures SkipSpace(s, i) < |s| && Parse(s, m, i, r) == HandleChord(s, m, SkipSpace(s, i) + 1, r.(chordNotes := 0))
  {
    hide SkipSpace, HandleChord;
  }

  lemma {:induction false} ChordHeard(m: Mml, t: Token, r: Sound, o: Out)
    requires t.ChordT? && WellToken(t) && o.kind == Chord && r.chordNotes == 0 && Collected(r, o.sound, Pitches(t.codes, m.curOctave))
    requires o.sound.length == LengthOf(m, t.lengths)
    ensures HeardOf(o) == Meaning(m, t)
  {
    hide Pitches, LengthOf;
    assert r.noteIdx[..0] + Pitches(t.codes, m.curOctave) == Pitches(t.codes, m.curOctave);
  }

  lemma {:induction false} SameSound(before: Sound, after: Sound, length: int, pitches: seq<int>)
    requires Collected(before, after, pitches)
    ensures Collected(before, after.(length := length), pitches)
  {
  }

  lemma {:induction false} NoteReads(s: string, m: Mml, i: nat, r: Sound, t: Token)
    requires t.NoteT? && WellToken(t) && Playable(m, t.lengths) && m.mode.NormalMode? && |r.noteIdx| == MAX_CHORD_NOTES
    requires i <= |s| && StandsAt(s, SkipSpace(s, i), Body(t) + " ")
    ensures Reads(s, m, i, r, t)
  {
    hide SkipSpace, StandsAt, Parse, SampleLength, LengthOf, LengthText, Playable, Pitch, Chain, IsAccidental, IsDigit, IsNoteName, Accidentals,
      HeardOf, Meaning, Body;
    var j, len := SkipSpace(s, i), LengthText(t.lengths) + " ";
    NoteText(t);
    SplitAt(s, j, [t.letter], t.acc + len);
    FirstChar(s, j, [t.letter]);
    SplitAt(s, j + 1, t.acc, len);
    LengthBegins(t.lengths);
    FirstChar(s, j + 1 + |t.acc|, len);
    NoteCall(s, m, i, r, t.acc);
    LengthReads(s, m, j + 1 + |t.acc|, t.lengths);
    NoteHeard(m, t, Parse(s, m, i, r));
  }

  lemma {:induction false} NoteHeard(m: Mml, t: Token, o: Out)
    requires t.NoteT? && WellToken(t) && o.kind == Note && |o.sound.noteIdx| == MAX_CHORD_NOTES && o.sound.chordNotes == 1
    requires o.sound.noteIdx[0] == Pitch(t.letter, t.acc, m.curOctave) && o.sound.length == LengthOf(m, t.lengths)
    ensures HeardOf(o) == Meaning(m, t)
  {
    hide Pitch, LengthOf;
    assert o.sound.noteIdx[..1] == [o.sound.noteIdx[0]];
  }

  lemma {:induction false} RestReads(s: string, m: Mml, i: nat, r: Sound, t: Token)
    requires t.RestT? && WellToken(t) && Playable(m, t.lengths) && m.mode.NormalMode? && |r.noteIdx| == MAX_CHORD_NOTES
    requires i <= |s| && StandsAt(s, SkipSpace(s, i), Body(t) + " ")
    ensures Reads(s, m, i, r, t)
  {
    hide SkipSpace, StandsAt, Parse, SampleLength, LengthOf, LengthText, Playable;
    var j, len := SkipSpace(s, i), LengthText(t.lengths) + " ";
    assert Body(t) + " " == "R" + len;
    SplitAt(s, j, "R", len);
    FirstChar(s, j, "R");
    RestCall(s, m, i, r);
    LengthReads(s, m, j + 1, t.lengths);
  }

  lemma {:induction false} SettingReads(s: string, m: Mml, i: nat, r: Sound, t: Token)
    requires t.SettingT? && WellToken(t) && |r.noteIdx| == MAX_CHORD_NOTES
    requires i <= |s| && StandsAt(s, SkipSpace(s, i), Body(t) + " ")
    ensures Reads(s, m, i, r, t)
  {
    hide SkipSpace, StandsAt, Parse, Written;
    var j, number := SkipSpace(s, i), Written(t.n);
    assert Body(t) + " " == [t.letter] + (number + " ");
    SplitAt(s, j, [t.letter], number + " ");
    FirstChar(s, j, [t.letter]);
    SplitAt(s, j + 1, number, " ");
    FirstChar(s, j + 1 + |number|, " ");
    SettingCall(s, m, i, r, t.n);
  }

  lemma {:induction false} OctaveReads(s: string, m: Mml, i: nat, r: Sound, t: Token)
    requires (t.UpT? || t.DownT?) && |r.noteIdx| == MAX_CHORD_NOTES
    requires i <= |s| && StandsAt(s, SkipSpace(s, i), Body(t) + " ")
    ensures Reads(s, m, i, r, t)
  {
    hide SkipSpace, StandsAt, Parse, IndexIn, Shift;
    FirstChar(s, SkipSpace(s, i), Body(t) + " ");
    OctaveCall(s, m, i, r);
    var o := Parse(s, m, i, r);
    assert Pitch('C', "", o.mml.curOctave) == Pitch('C', "", m.curOctave) + if t.UpT? then 12 else -12;
  }

  lemma {:induction false} TokenReads(s: string, m: Mml, i: nat, r: Sound, t: Token)
    requires WellToken(t) && PlayableToken(m, t) && m.mode.NormalMode? && |r.noteIdx| == MAX_CHORD_NOTES
    requires i <= |s| && StandsAt(s, SkipSpace(s, i), Body(t) + " ")
    ensures Reads(s, m, i, r, t)
  {
    hide SkipSpace, StandsAt, Body, Playable, Reads;
    match t
    case NoteT(_, _, _) => NoteReads(s, m, i, r, t);
    case RestT(_) => RestReads(s, m, i, r, t);
    case ChordT(_, _) => ChordTokenReads(s, m, i, r, t);
    case SettingT(_, _) => SettingReads(s, m, i, r, t);
    case _ => OctaveReads(s, m, i, r, t);
  }

  // ----- scores -----

  lemma {:induction false} BodyBegins(t: Token)
    requires WellToken(t)
    ensures Body(t) != "" && !IsSpace(Body(t)[0])
  {
  }

  lemma {:induction false} OneSpace(s: string, i: nat)
    requires i < |s| && s[i] == ' ' && !IsSpace(At(s, i + 1))
    ensures SkipSpace(s, i) == i + 1
  {
    NoSpaceHere(s, i + 1);
  }

  /** Reading a printed score reports every token as it was meant, and then the end. */
  lemma {:induction false} ScoreReadsFrom(s: string, m: Mml, i: nat, r: Sound, tokens: seq<Token>)
    requires PlayableScore(m, tokens) && m.mode.NormalMode? && |r.noteIdx| == MAX_CHORD_NOTES
    requires i <= |s| && var j := SkipSpace(s, i); StandsAt(s, j, Print(tokens)) && j + |Print(tokens)| == |s|
    ensures ReadAll(s, m, i, r) == Meanings(m, tokens)
    decreases |tokens|
  {
    hide SkipSpace, StandsAt, Parse, Body, Meaning, Then, HeardOf, PlayableToken;
    var j := SkipSpace(s, i);
    if tokens == [] {
      AtEnd(s, m, i, r);
    } else {
      var t, rest := tokens[0], tokens[1..];
      assert Print(tokens) == (Body(t) + " ") + Print(rest);
      SplitAt(s, j, Body(t) + " ", Print(rest));
      SplitAt(s, j, Body(t), " ");
      FirstChar(s, j + |Body(t)|, " ");
      BodyBegins(t);
      TokenReads(s, m, i, r, t);
      NotTheEnd(m, t);
      var o := Parse(s, m, i, r);
      if rest != [] {
        BodyBegins(rest[0]);
        FirstChar(s, o.pos + 1, Print(rest));
      }
      OneSpace(s, o.pos);
      KeepsNormal(m, t);
      ScoreReadsFrom(s, o.mml, o.pos, r, rest);
    }
  }

  lemma {:induction false} AtEnd(s: string, m: Mml, i: nat, r: Sound)
    requires i <= |s| && SkipSpace(s, i) == |s| && |r.noteIdx| == MAX_CHORD_NOTES
    ensures Parse(s, m, i, r).kind == Eof && HeardOf(Parse(s, m, i, r)) == Heard(Eof, [], 0)
  {
    hide SkipSpace;
  }

  lemma {:induction false} NotTheEnd(m: Mml, t: Token)
    requires WellToken(t)
    ensures forall o: Out :: HeardOf(o) == Meaning(m, t) ==> o.kind != Eof
  {
    hide LengthOf, Pitch, Pitches;
  }

  lemma {:induction false} KeepsNormal(m: Mml, t: Token)
    ensures Then(m, t).mode == m.mode
  {
  }

  /** A score that was printed is read back. */
  lemma {:induction false} ScoreReads(m: Mml, r: Sound, tokens: seq<Token>)
    requires PlayableScore(m, tokens) && m.mode.NormalMode? && |r.noteIdx| == MAX_CHORD_NOTES
    ensures ReadAll(Print(tokens), m, 0, r) == Meanings(m, tokens)
  {
    hide ReadAll, Meanings, SkipSpace, Body;
    var s := Print(tokens);
    if tokens != [] {
      BodyBegins(tokens[0]);
    }
    NoSpaceHere(s, 0);
    assert s[0..|s|] == s;
    ScoreReadsFrom(s, m, 0, r, tokens);
  }
}
