/**
The length of a tuplet. It is written behind the closing brace, read ahead at
the opening one, and read over once more at the closing one, by then perhaps
with another default length. `TupletTotal` says what the notes of the tuplet
get in all, and `CursorExactly` when the two readings end at the same place.
*/
module MmlTotal {
  import opened CArith
  import opened MmlModel
  import opened MmlTuplet
  import opened MmlChain

  /** The notes of a tuplet get in all what the chain of lengths behind its `}` is worth. */
  lemma {:induction false} TupletTotal(s: string, m: Mml, i: nat, r: Sound, terms: seq<Term>, dangling: bool)
    requires CString(s) && i <= |s| && |r.noteIdx| == MAX_CHORD_NOTES && Parse(s, m, i, r).kind == TupletStart
    requires var o := Parse(s, m, i, r);
             o.pos <= |s| && var p := Calls(s, o.mml, o.pos, r);
             && !Malformed(p.last) && Chain(terms) && StandsAt(s, p.at + 1, ChainText(terms, dangling))
             && EndsChain(At(s, p.at + 1 + |ChainText(terms, dangling)|), terms[|terms| - 1], dangling)
    ensures var o := Parse(s, m, i, r);
            var p := Calls(s, o.mml, o.pos, r);
            var (v, n) := Reading(Worths(m, terms, 0), 0);
            && p.last == TupletDone && p.notes == o.mml.tupletNotes
            && p.total == (if dangling && v >= 0 then -EINVAL else v)
    ensures var o := Parse(s, m, i, r);
            !dangling && (forall k :: 0 <= k < |terms| ==> Worths(m, terms, 0)[k] > 0) ==>
              Calls(s, o.mml, o.pos, r).total == Sum(Worths(m, terms, 0))
  {
    hide Parse, Calls, SampleLength, Reading, Worths, StandsAt, EndsChain, MoreText, ChainText;
    TupletAgrees(s, m, i, r);
    var o := Parse(s, m, i, r);
    var p := Calls(s, o.mml, o.pos, r);
    ChainLength(m, s, p.at + 1, terms, dangling);
    if !dangling && (forall k :: 0 <= k < |terms| ==> Worths(m, terms, 0)[k] > 0) {
      PlainChain(m, s, p.at + 1, terms);
    }
  }

  /** Without a length behind the `}` they get the default length. */
  lemma {:induction false} TupletDefault(s: string, m: Mml, i: nat, r: Sound)
    requires CString(s) && i <= |s| && |r.noteIdx| == MAX_CHORD_NOTES && Parse(s, m, i, r).kind == TupletStart
    ensures var o := Parse(s, m, i, r);
            && o.pos <= |s|
            && var p := Calls(s, o.mml, o.pos, r);
               !Malformed(p.last) && !IsQualifier(At(s, p.at + 1)) ==>
                 p.total == CalcSamples(m.fs, m.curTempo, m.defLength, 0) && p.pos == p.at + 1
  {
    hide Parse, Calls, CalcSamples;
    TupletAgrees(s, m, i, r);
  }

  // ----- the two readings of the length -----

  /** The dots at the cursor. */
  function DotsAt(s: string, i: nat): (n: nat)
    requires i <= |s|
    ensures i + n <= |s| && At(s, i + n) != '.'
    ensures forall k :: i <= k < i + n ==> s[k] == '.'
    decreases |s| - i
  {
    if i < |s| && s[i] == '.' then 1 + DotsAt(s, i + 1) else 0
  }

  predicate Positive(m: Mml)
  {
    m.fs >= 0 && m.curTempo >= 0
  }

  lemma {:induction false} CalcError(fs: int, tempo: int, num: int, dots: nat)
    requires fs >= 0 && tempo >= 0
    ensures CalcSamples(fs, tempo, num, dots) < 0 <==> !IsNoteValue(num) || dots > 4
  {
    hide DotMultiplier, Pow2, CDiv;
    if IsNoteValue(num) && dots <= 4 {
      var n := match num case 0 => 3 case 1 => 2 case 2 => 1 case _ => 0;
      var div := match num case 8 => 1 case 16 => 2 case 32 => 3 case 64 => 4 case _ => 0;
      Product(15 * fs, DotMultiplier(dots));
      Product(15 * fs * DotMultiplier(dots), Pow2(n));
      Divide((15 * fs * DotMultiplier(dots)) * Pow2(n), Pow2(2 + div));
      if tempo > 0 {
        CDivNotNegative((15 * fs * DotMultiplier(dots)) * Pow2(n) / Pow2(2 + div), tempo);
      }
    }
  }

  lemma {:induction false} CDivNotNegative(a: int, b: int)
    requires a >= 0 && b > 0
    ensures CDiv(a, b) >= 0
  {
    Divide(a, b);
  }

  lemma {:induction false} TermError(m: Mml, samples: int, num: int, dots: nat, plus: bool)
    requires Positive(m) && (plus ==> samples >= 0)
    ensures GetSamples(m, samples, num, dots, plus) < 0 <==> !IsNoteValue(if num < 0 then m.defLength else num) || dots > 4
  {
    hide CalcSamples;
    CalcError(m.fs, m.curTempo, if num < 0 then m.defLength else num, dots);
  }

  /** Where a length ends depends on which terms are errors, and on nothing else about the parser. */
  lemma {:induction false} NumberedCursor(m: Mml, n: Mml, s: string, i: nat, num: int, dots: nat, plus: bool, a: int, b: int)
    requires i <= |s| && Positive(m) && Positive(n) && (plus ==> a >= 0 && b >= 0)
    requires num >= 0 || (IsNoteValue(m.defLength) <==> IsNoteValue(n.defLength))
    ensures Numbered(m, s, i, num, dots, plus, a).1 == Numbered(n, s, i, num, dots, plus, b).1
    decreases |s| - i
  {
    hide GetSamples, Atoi, Digits;
    if At(s, i) == '.' {
      NumberedCursor(m, n, s, i + 1, num, dots + 1, plus, a, b);
    } else {
      TermError(m, a, num, dots, plus);
      TermError(n, b, num, dots, plus);
      var x, y := GetSamples(m, a, num, dots, plus), GetSamples(n, b, num, dots, plus);
      if At(s, i) == '+' && x >= 0 && IsDigit(At(s, i + 1)) {
        NumberNotNegative(s, i + 1);
        NumberedCursor(m, n, s, i + 1 + Digits(s, i + 1), Atoi(s, i + 1), dots, true, x, y);
      }
    }
  }

  lemma {:induction false} SkipDots(m: Mml, s: string, i: nat, samples: int)
    requires i < |s| && s[i] == '.'
    ensures var d := DotsAt(s, i);
            && d > 0
            && Numbered(m, s, i + 1, -1, 1, false, samples) == Numbered(m, s, i + d, -1, d, false, samples)
  {
    hide Numbered, DotsAt;
    var d := DotsAt(s, i);
    assert s[i + 1..i + d] == Dots(d - 1);
    NumberedDots(m, s, i + 1, d - 1, -1, 1, false, samples);
  }

  /** The end of a default length with dots. */
  lemma {:induction false} DottedDefault(m: Mml, s: string, j: nat, dots: nat, samples: int)
    requires j <= |s| && At(s, j) != '.' && Positive(m)
    ensures var end := Numbered(m, s, j, -1, dots, false, samples).1;
            if At(s, j) != '+' then end == j
            else if IsNoteValue(m.defLength) && dots <= 4 && IsDigit(At(s, j + 1)) then end > j + 1
            else end == j + 1
  {
    hide GetSamples, Atoi;
    TermError(m, samples, -1, dots, false);
  }

  /** Two states of the parser read a length to different places if and only if it begins with a dot, at
      most four dots are followed by a plus and a digit, and one of the default lengths is a note value
      and the other is not. */
  lemma {:induction false} CursorExactly(m: Mml, n: Mml, s: string, i: nat)
    requires i <= |s| && Positive(m) && Positive(n)
    ensures SampleLength(m, s, i).1 != SampleLength(n, s, i).1 <==>
            && At(s, i) == '.' && DotsAt(s, i) <= 4
            && At(s, i + DotsAt(s, i)) == '+' && IsDigit(At(s, i + DotsAt(s, i) + 1))
            && IsNoteValue(m.defLength) != IsNoteValue(n.defLength)
  {
    hide Numbered, GetSamples, Atoi, Digits, DotsAt, IsNoteValue;
    var a, b := GetSamples(m, 0, -1, 0, false), GetSamples(n, 0, -1, 0, false);
    if IsDigit(At(s, i)) {
      NumberNotNegative(s, i);
      NumberedCursor(m, n, s, i + Digits(s, i), Atoi(s, i), 0, false, a, b);
    } else if At(s, i) == '.' {
      if IsNoteValue(m.defLength) == IsNoteValue(n.defLength) {
        NumberedCursor(m, n, s, i + 1, -1, 1, false, a, b);
      } else {
        var d := DotsAt(s, i);
        SkipDots(m, s, i, a);
        SkipDots(n, s, i, b);
        DottedDefault(m, s, i + d, d, a);
        DottedDefault(n, s, i + d, d, b);
      }
    }
  }

  /** So the `}` reads over the length that the `{` read ahead, unless the tuplet itself has changed the
      default length to or from a note value and the length behind it begins with dots and a plus. */
  lemma {:induction false} TupletReadsOver(s: string, m: Mml, i: nat, r: Sound)
    requires CString(s) && i <= |s| && |r.noteIdx| == MAX_CHORD_NOTES && Positive(m) && Parse(s, m, i, r).kind == TupletStart
    ensures var o := Parse(s, m, i, r);
            && o.pos <= |s|
            && var p := Calls(s, o.mml, o.pos, r);
               !Malformed(p.last) ==>
                 && p.at < |s|
                 && var j := p.at + 1;
                    p.pos != SampleLength(m, s, j).1 <==>
                    && At(s, j) == '.' && DotsAt(s, j) <= 4 && At(s, j + DotsAt(s, j)) == '+' && IsDigit(At(s, j + DotsAt(s, j) + 1))
                    && IsNoteValue(m.defLength) != IsNoteValue(p.mml.defLength)
  {
    hide Parse, Calls, SampleLength, DotsAt, IsNoteValue;
    TupletAgrees(s, m, i, r);
    var o := Parse(s, m, i, r);
    var p := Calls(s, o.mml, o.pos, r);
    if !Malformed(p.last) {
      CursorExactly(m, p.mml, s, p.at + 1);
    }
  }

  /** An input: `.+8` behind a tuplet in which `L3` was set. The reading ahead takes all of it, the reading
      over stops behind the plus. */
  lemma {:induction false} TornLength(m: Mml)
    requires Positive(m) && m.defLength == 4
    ensures SampleLength(m, ".+8", 0).1 != SampleLength(m.(defLength := 3), ".+8", 0).1
  {
    hide SampleLength;
    CursorExactly(m, m.(defLength := 3), ".+8", 0);
    assert DotsAt(".+8", 1) == 0;
    assert DotsAt(".+8", 0) == 1;
  }
}
