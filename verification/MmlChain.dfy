/**
Note lengths n1+n2+...+nk with dots. The dots of a term are not forgotten at
the plus: a term is worth its number with all the dots up to and including its
own. `ChainLength` says for every chain what `sample_length` makes of it and how
far it reads.
*/
module MmlChain {
  import opened MmlModel

  /** A number, which only the first term may leave out, and the dots behind it. */
  datatype Term = Term(num: string, dots: nat)

  predicate Number(t: string)
  {
    t != [] && forall k :: 0 <= k < |t| ==> IsDigit(t[k])
  }

  predicate FirstTerm(t: Term)
  {
    Number(t.num) || (t.num == "" && t.dots > 0)
  }

  predicate Chain(terms: seq<Term>)
  {
    terms != [] && FirstTerm(terms[0]) && forall k :: 0 < k < |terms| ==> Number(terms[k].num)
  }

  function Dots(n: nat): (r: string)
    ensures |r| == n && forall k :: 0 <= k < n ==> r[k] == '.'
  {
    seq(n, _ => '.')
  }

  /** Later terms, each with its plus; `dangling` for a plus at the very end. */
  function MoreText(terms: seq<Term>, dangling: bool): string
  {
    if terms == [] then (if dangling then "+" else "")
    else "+" + (terms[0].num + (Dots(terms[0].dots) + MoreText(terms[1..], dangling)))
  }

  function ChainText(terms: seq<Term>, dangling: bool): string
    requires terms != []
  {
    terms[0].num + (Dots(terms[0].dots) + MoreText(terms[1..], dangling))
  }

  // ----- what a chain is worth -----

  /** The number of a term as the scanner holds it: -1 stands for the default length. */
  function NumOf(t: Term): int
    requires FirstTerm(t)
  {
    if t.num == "" then -1 else Decimal(t.num)
  }

  /** What a term is worth with that many dots. */
  function Worth(m: Mml, t: Term, dots: nat): int
    requires FirstTerm(t)
  {
    CalcSamples(m.fs, m.curTempo, if t.num == "" then m.defLength else Decimal(t.num), dots)
  }

  /** The worth of each term, with the dots of the terms before it added to its own. */
  function Worths(m: Mml, terms: seq<Term>, before: nat): (ws: seq<int>)
    requires forall k :: 0 <= k < |terms| ==> FirstTerm(terms[k])
    ensures |ws| == |terms|
    decreases |terms|
  {
    if terms == [] then []
    else
      var dots := before + terms[0].dots;
      [Worth(m, terms[0], dots)] + Worths(m, terms[1..], dots)
  }

  /** What adding up makes of the worths, and the last term that is looked at: an error
      ends it, and a term worth nothing clears the sum. */
  function Reading(ws: seq<int>, sum: int): (r: (int, nat))
    requires ws != []
    ensures r.1 < |ws|
    decreases |ws|
  {
    if ws[0] < 0 then (ws[0], 0)
    else
      var sum' := if ws[0] > 0 then sum + ws[0] else 0;
      if |ws| == 1 then (sum', 0)
      else
        var (v, n) := Reading(ws[1..], sum');
        (v, n + 1)
  }

  /** The characters behind the number of the first term that are read. */
  function ReadLength(terms: seq<Term>, n: nat, dangling: bool): nat
    requires n < |terms|
    decreases n
  {
    if n == 0 then terms[0].dots + (if |terms| > 1 || dangling then 1 else 0)
    else terms[0].dots + 1 + |terms[1].num| + ReadLength(terms[1..], n - 1, dangling)
  }

  // ----- places in the score -----

  predicate StandsAt(s: string, i: nat, t: string)
  {
    i + |t| <= |s| && s[i..i + |t|] == t
  }

  lemma {:induction false} SplitAt(s: string, i: nat, a: string, b: string)
    requires StandsAt(s, i, a + b)
    ensures StandsAt(s, i, a) && StandsAt(s, i + |a|, b)
  {
    assert s[i..i + |a|] == (a + b)[..|a|];
    assert s[i + |a|..i + |a| + |b|] == (a + b)[|a|..];
  }

  lemma {:induction false} FirstChar(s: string, i: nat, t: string)
    requires StandsAt(s, i, t) && t != ""
    ensures i < |s| && s[i] == t[0]
  {
    assert s[i..i + |t|][0] == t[0];
  }

  lemma {:induction false} DigitsRun(s: string, i: nat, t: string)
    requires StandsAt(s, i, t) && forall k :: 0 <= k < |t| ==> IsDigit(t[k])
    requires !IsDigit(At(s, i + |t|))
    ensures Digits(s, i) == |t|
    decreases |t|
  {
    if t != [] {
      assert s[i] == t[0];
      assert s[i + 1..i + |t|] == t[1..];
      DigitsRun(s, i + 1, t[1..]);
    }
  }

  lemma {:induction false} ReadNumber(s: string, i: nat, t: string)
    requires StandsAt(s, i, t) && Number(t) && !IsDigit(At(s, i + |t|))
    ensures IsDigit(At(s, i)) && Digits(s, i) == |t| && Atoi(s, i) == Decimal(t)
  {
    DigitsRun(s, i, t);
    assert s[i] == t[0];
    assert s[i..i + Digits(s, i)] == t;
  }

  /** What may follow a chain: nothing that would go on with it. */
  predicate EndsChain(c: char, last: Term, dangling: bool)
  {
    if dangling then !IsDigit(c) else c != '.' && c != '+' && (last.dots == 0 ==> !IsDigit(c))
  }

  /** Behind a number stands a dot, a plus, or the end of the chain. */
  lemma {:induction false} NumberEnds(s: string, i: nat, terms: seq<Term>, dangling: bool)
    requires terms != [] && StandsAt(s, i, Dots(terms[0].dots) + MoreText(terms[1..], dangling))
    requires EndsChain(At(s, i + |Dots(terms[0].dots) + MoreText(terms[1..], dangling)|), terms[|terms| - 1], dangling)
    ensures !IsDigit(At(s, i))
  {
    var text := Dots(terms[0].dots) + MoreText(terms[1..], dangling);
    if text != "" {
      FirstChar(s, i, text);
      assert terms[0].dots == 0 ==> text == MoreText(terms[1..], dangling);
    }
  }

  /** Dots are counted up. */
  lemma {:induction false} NumberedDots(m: Mml, s: string, i: nat, n: nat, num: int, dots: nat, plus: bool, samples: int)
    requires StandsAt(s, i, Dots(n))
    ensures Numbered(m, s, i, num, dots, plus, samples) == Numbered(m, s, i + n, num, dots + n, plus, samples)
    decreases n
  {
    hide GetSamples, Atoi, Digits, Dots;
    if n > 0 {
      FirstChar(s, i, Dots(n));
      assert s[i + 1..i + n] == Dots(n)[1..] == Dots(n - 1);
      NumberedDots(m, s, i + 1, n - 1, num, dots + 1, plus, samples);
    }
  }

  // ----- reading a chain -----

  /** The sum so far, which counts only behind a plus. */
  function SoFar(plus: bool, samples: int): int
  {
    if plus then samples else 0
  }

  lemma {:induction false} TermIs(m: Mml, t: Term, dots: nat, plus: bool, samples: int)
    requires FirstTerm(t)
    ensures var w := Worth(m, t, dots);
            GetSamples(m, samples, NumOf(t), dots, plus) == if w > 0 then SoFar(plus, samples) + w else w
  {
    hide CalcSamples;
  }

  /** One step at the end of a term, past its dots. */
  lemma {:induction false} NumberedAt(m: Mml, s: string, i: nat, t: Term, dots: nat, plus: bool, samples: int)
    requires i <= |s| && FirstTerm(t) && At(s, i) != '.'
    ensures var w := Worth(m, t, dots);
            var sum := if w > 0 then SoFar(plus, samples) + w else w;
            Numbered(m, s, i, NumOf(t), dots, plus, samples) ==
            if At(s, i) != '+' then (sum, i)
            else if sum < 0 then (sum, i + 1)
            else if IsDigit(At(s, i + 1)) then Numbered(m, s, i + 1 + Digits(s, i + 1), Atoi(s, i + 1), dots, true, sum)
            else (-EINVAL, i + 1)
  {
    hide GetSamples, Worth, Atoi, Digits, Decimal;
    TermIs(m, t, dots, plus, samples);
  }

  /** The reading of a chain from that of the chain without its first term. */
  lemma {:induction false} ReadingStep(m: Mml, terms: seq<Term>, dangling: bool, before: nat, sum: int)
    requires Chain(terms)
    ensures var dots := before + terms[0].dots;
            var w := Worth(m, terms[0], dots);
            var sum' := if w > 0 then sum + w else w;
            var (v, n) := Reading(Worths(m, terms, before), sum);
            if w < 0 || |terms| == 1 then
              v == sum' && n == 0 && ReadLength(terms, n, dangling) == terms[0].dots + if |terms| > 1 || dangling then 1 else 0
            else
              && Chain(terms[1..])
              && var (v', n') := Reading(Worths(m, terms[1..], dots), sum');
                 && v == v' && n == n' + 1
                 && ReadLength(terms, n, dangling) == terms[0].dots + 1 + |terms[1].num| + ReadLength(terms[1..], n', dangling)
  {
    hide Worth;
    var ws := Worths(m, terms, before);
    assert ws[1..] == Worths(m, terms[1..], before + terms[0].dots);
  }

  /** The chain from just behind the number of its first term on. */
  lemma {:induction false} NumberedChain(m: Mml, s: string, i: nat, terms: seq<Term>, dangling: bool, before: nat, plus: bool, samples: int)
    requires Chain(terms) && (plus ==> samples >= 0)
    requires StandsAt(s, i, Dots(terms[0].dots) + MoreText(terms[1..], dangling))
    requires EndsChain(At(s, i + |Dots(terms[0].dots) + MoreText(terms[1..], dangling)|), terms[|terms| - 1], dangling)
    ensures var ws := Worths(m, terms, before);
            var (v, n) := Reading(ws, SoFar(plus, samples));
            Numbered(m, s, i, NumOf(terms[0]), before, plus, samples) ==
            (if dangling && v >= 0 then -EINVAL else v, i + ReadLength(terms, n, dangling))
    decreases |terms|
  {
    hide Numbered, CalcSamples, Worth, Worths, Reading, ReadLength, Atoi, Digits, Decimal, StandsAt, MoreText, NumOf, EndsChain, Chain, Dots, IsDigit;
    ChainHas(terms);
    var t := terms[0];
    ReadingStep(m, terms, dangling, before, SoFar(plus, samples));
    var dots := before + t.dots;
    var more := MoreText(terms[1..], dangling);
    SplitAt(s, i, Dots(t.dots), more);
    NumberedDots(m, s, i, t.dots, NumOf(t), before, plus, samples);
    var j := i + t.dots;
    AfterDots(s, j, terms, dangling);
    NumberedAt(m, s, j, t, dots, plus, samples);
    if |terms| > 1 {
      var w := Worth(m, t, dots);
      var sum := if w > 0 then SoFar(plus, samples) + w else w;
      NextTerm(s, j, terms, dangling);
      if w >= 0 {
        NumberedChain(m, s, j + 1 + |terms[1].num|, terms[1..], dangling, dots, true, sum);
      }
    }
  }

  lemma {:induction false} ChainHas(terms: seq<Term>)
    requires Chain(terms)
    ensures terms != [] && FirstTerm(terms[0]) && forall k :: 0 <= k < |terms| ==> FirstTerm(terms[k])
  {
  }

  /** What stands behind the dots of the first term. */
  lemma {:induction false} AfterDots(s: string, j: nat, terms: seq<Term>, dangling: bool)
    requires terms != [] && StandsAt(s, j, MoreText(terms[1..], dangling))
    requires EndsChain(At(s, j + |MoreText(terms[1..], dangling)|), terms[|terms| - 1], dangling)
    ensures j <= |s| && At(s, j) != '.' && (At(s, j) == '+' <==> |terms| > 1 || dangling)
    ensures |terms| == 1 && dangling ==> !IsDigit(At(s, j + 1))
  {
    var more := MoreText(terms[1..], dangling);
    if more != "" {
      FirstChar(s, j, more);
    }
  }

  lemma {:induction false} MoreTextStep(terms: seq<Term>, dangling: bool)
    requires terms != []
    ensures MoreText(terms, dangling) == "+" + (terms[0].num + (Dots(terms[0].dots) + MoreText(terms[1..], dangling)))
  {
  }

  /** From the plus behind one term to just behind the number of the next. */
  lemma {:induction false} NextTerm(s: string, j: nat, terms: seq<Term>, dangling: bool)
    requires Chain(terms) && |terms| > 1 && StandsAt(s, j, MoreText(terms[1..], dangling))
    requires EndsChain(At(s, j + |MoreText(terms[1..], dangling)|), terms[|terms| - 1], dangling)
    ensures var rest := terms[1..];
            var k := j + 1 + |rest[0].num|;
            && Chain(rest) && rest[|rest| - 1] == terms[|terms| - 1]
            && IsDigit(At(s, j + 1)) && Digits(s, j + 1) == |rest[0].num| && Atoi(s, j + 1) == Decimal(rest[0].num) == NumOf(rest[0])
            && StandsAt(s, k, Dots(rest[0].dots) + MoreText(rest[1..], dangling))
            && k + |Dots(rest[0].dots) + MoreText(rest[1..], dangling)| == j + |MoreText(rest, dangling)|
  {
    hide Digits, Atoi, Decimal, StandsAt, MoreText, Dots, EndsChain, IsDigit;
    var rest := terms[1..];
    var tail := Dots(rest[0].dots) + MoreText(rest[1..], dangling);
    MoreTextStep(rest, dangling);
    SplitAt(s, j, "+", rest[0].num + tail);
    SplitAt(s, j + 1, rest[0].num, tail);
    NumberEnds(s, j + 1 + |rest[0].num|, rest, dangling);
    ReadNumber(s, j + 1, rest[0].num);
  }

  /** What `sample_length` reads off any chain, dotted or not, with an error in it or not. */
  lemma {:induction false} ChainLength(m: Mml, s: string, i: nat, terms: seq<Term>, dangling: bool)
    requires Chain(terms) && StandsAt(s, i, ChainText(terms, dangling))
    requires EndsChain(At(s, i + |ChainText(terms, dangling)|), terms[|terms| - 1], dangling)
    ensures var (v, n) := Reading(Worths(m, terms, 0), 0);
            SampleLength(m, s, i) ==
            (if dangling && v >= 0 then -EINVAL else v, i + |terms[0].num| + ReadLength(terms, n, dangling))
  {
    hide Numbered, Atoi, Digits, Decimal, CalcSamples, MoreText, Worths, Reading;
    var t := terms[0];
    var tail := Dots(t.dots) + MoreText(terms[1..], dangling);
    SplitAt(s, i, t.num, tail);
    var samples := GetSamples(m, 0, -1, 0, false);
    NumberedChain(m, s, i + |t.num|, terms, dangling, 0, false, samples);
    if t.num != "" {
      NumberEnds(s, i + |t.num|, terms, dangling);
      ReadNumber(s, i, t.num);
    } else {
      FirstChar(s, i, tail);
      NumberedFirstDot(m, s, i, samples);
    }
  }

  lemma {:induction false} NumberedFirstDot(m: Mml, s: string, i: nat, samples: int)
    requires i < |s| && s[i] == '.'
    ensures Numbered(m, s, i, -1, 0, false, samples) == Numbered(m, s, i + 1, -1, 1, false, samples)
  {
  }

  // ----- what that comes to -----

  function Sum(ws: seq<int>): int
  {
    if ws == [] then 0 else Sum(ws[..|ws| - 1]) + ws[|ws| - 1]
  }

  /** The sum of the worths behind the last one that is nothing. */
  function SumSinceZero(ws: seq<int>): int
  {
    if ws == [] || ws[|ws| - 1] == 0 then 0 else SumSinceZero(ws[..|ws| - 1]) + ws[|ws| - 1]
  }

  /** Without an error the whole chain is read, and is worth the sum of its terms behind
      the last one that is worth nothing. */
  lemma {:induction false} NoError(ws: seq<int>, sum: int)
    requires ws != [] && forall k :: 0 <= k < |ws| ==> ws[k] >= 0
    ensures Reading(ws, sum).1 == |ws| - 1
    ensures Reading(ws, sum).0 == SumSinceZero(ws) + if exists k :: 0 <= k < |ws| && ws[k] == 0 then 0 else sum
    decreases |ws|
  {
    if |ws| == 1 {
      assert SumSinceZero(ws[..0]) == 0;
    } else {
      var sum' := if ws[0] > 0 then sum + ws[0] else 0;
      NoError(ws[1..], sum');
      SumFromSecond(ws);
      assert forall k :: 0 < k < |ws| ==> ws[k] == ws[1..][k - 1];
    }
  }

  lemma {:induction false} SumFromSecond(ws: seq<int>)
    requires |ws| > 1 && forall k :: 0 <= k < |ws| ==> ws[k] >= 0
    ensures SumSinceZero(ws) == SumSinceZero(ws[1..]) + if exists k :: 0 < k < |ws| && ws[k] == 0 then 0 else ws[0]
    decreases |ws|
  {
    var init, last := ws[..|ws| - 1], ws[|ws| - 1];
    assert ws[1..][..|ws| - 2] == init[1..];
    assert ws[1..][|ws| - 2] == last;
    if last > 0 {
      if |init| > 1 {
        SumFromSecond(init);
        assert forall k :: 0 < k < |init| ==> ws[k] == init[k];
      } else {
        assert init[..0] == [] && SumSinceZero(init) == ws[0];
        assert ws[1..][..0] == [];
      }
    }
  }

  /** Terms that are all worth something simply add up. */
  lemma {:induction false} PlainSum(ws: seq<int>)
    requires forall k :: 0 <= k < |ws| ==> ws[k] > 0
    ensures SumSinceZero(ws) == Sum(ws)
    decreases |ws|
  {
    if ws != [] {
      PlainSum(ws[..|ws| - 1]);
    }
  }

  /** The first error is the answer, and nothing behind its term is looked at. */
  lemma {:induction false} FirstError(ws: seq<int>, sum: int, j: nat)
    requires j < |ws| && ws[j] < 0 && forall k :: 0 <= k < j ==> ws[k] >= 0
    ensures Reading(ws, sum) == (ws[j], j)
    decreases |ws|
  {
    if j > 0 {
      FirstError(ws[1..], if ws[0] > 0 then sum + ws[0] else 0, j - 1);
    }
  }

  /** With no dots before the last term, every term is worth what it is worth alone. */
  lemma {:induction false} UndottedWorths(m: Mml, terms: seq<Term>)
    requires forall k :: 0 <= k < |terms| ==> FirstTerm(terms[k])
    requires forall k :: 0 <= k < |terms| - 1 ==> terms[k].dots == 0
    ensures forall k :: 0 <= k < |terms| ==> Worths(m, terms, 0)[k] == Worth(m, terms[k], terms[k].dots)
    decreases |terms|
  {
    hide Worth;
    if |terms| > 1 {
      UndottedWorths(m, terms[1..]);
    }
  }

  /** For a positive rate and tempo, a term is an error exactly when its number is no note
      value or more than four dots have come up. */
  lemma {:induction false} ErrorExactly(m: Mml, t: Term, dots: nat)
    requires FirstTerm(t) && m.fs > 0 && m.curTempo > 0
    ensures Worth(m, t, dots) < 0 <==> !IsNoteValue(if t.num == "" then m.defLength else Decimal(t.num)) || dots > 4
  {
    hide Decimal, DotMultiplier, Pow2;
    var num := if t.num == "" then m.defLength else Decimal(t.num);
    if IsNoteValue(num) && dots <= 4 {
      var n := match num case 0 => 3 case 1 => 2 case 2 => 1 case _ => 0;
      var div := match num case 8 => 1 case 16 => 2 case 32 => 3 case 64 => 4 case _ => 0;
      Product(15 * m.fs, DotMultiplier(dots));
      Product(15 * m.fs * DotMultiplier(dots), Pow2(n));
      Divide((15 * m.fs * DotMultiplier(dots)) * Pow2(n), Pow2(2 + div));
      Divide((15 * m.fs * DotMultiplier(dots)) * Pow2(n) / Pow2(2 + div), m.curTempo);
    }
  }

  lemma {:induction false} Product(a: int, b: int)
    requires a >= 0 && b >= 0
    ensures a * b >= 0
  {
  }

  lemma {:induction false} Divide(a: int, b: int)
    requires a >= 0 && b > 0
    ensures a / b >= 0
  {
  }

  /** An undotted chain of terms that are worth something is worth their sum. */
  lemma {:induction false} PlainChain(m: Mml, s: string, i: nat, terms: seq<Term>)
    requires Chain(terms) && StandsAt(s, i, ChainText(terms, false))
    requires EndsChain(At(s, i + |ChainText(terms, false)|), terms[|terms| - 1], false)
    requires forall k :: 0 <= k < |terms| ==> Worths(m, terms, 0)[k] > 0
    ensures SampleLength(m, s, i) == (Sum(Worths(m, terms, 0)), i + |ChainText(terms, false)|)
  {
    hide SampleLength, Reading, Worth, MoreText, StandsAt, EndsChain;
    var ws := Worths(m, terms, 0);
    ChainLength(m, s, i, terms, false);
    NoError(ws, 0);
    PlainSum(ws);
    WholeLength(terms, false);
  }

  lemma {:induction false} WholeLength(terms: seq<Term>, dangling: bool)
    requires terms != []
    ensures ReadLength(terms, |terms| - 1, dangling) == |Dots(terms[0].dots) + MoreText(terms[1..], dangling)|
    decreases |terms|
  {
    if |terms| > 1 {
      WholeLength(terms[1..], dangling);
    }
  }
}
