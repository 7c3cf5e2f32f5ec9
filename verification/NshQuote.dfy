/**
Words that are written with quotes and read back. A word is put together from
bare and quoted pieces; a line of such words, taken apart argument by argument,
gives the words without their quotes, whatever separators stand inside them.
*/
module NshQuote {
  import opened NshBasics
  import opened NshEscape
  import opened NshArgument

  datatype Piece = Bare(text: string) | Quoted(quote: char, text: string)

  predicate WellPiece(p: Piece)
  {
    match p
    case Bare(text) => text != "" && forall k :: 0 <= k < |text| ==> !IsSeparator(text[k]) && !Opens(text[k])
    case Quoted(quote, text) => Opens(quote) && quote !in text
  }

  function PieceText(p: Piece): string
  {
    match p
    case Bare(text) => text
    case Quoted(quote, text) => [quote] + (text + [quote])
  }

  /** What is meant: the text without its quotes; what stands in back-quotes is to be run and keeps them. */
  function PieceValue(p: Piece): string
  {
    if p.Quoted? && p.quote == '`' then PieceText(p) else p.text
  }

  function WordText(w: seq<Piece>): string
  {
    if w == [] then "" else PieceText(w[0]) + WordText(w[1..])
  }

  function WordValue(w: seq<Piece>): string
  {
    if w == [] then "" else PieceValue(w[0]) + WordValue(w[1..])
  }

  /** A word that is not taken for a pipe or a comment. */
  predicate WellWord(w: seq<Piece>)
  {
    && w != [] && (forall k :: 0 <= k < |w| ==> WellPiece(w[k]))
    && (w[0].Bare? ==> w[0].text[0] != '|' && w[0].text[0] != '#')
  }

  function LineText(words: seq<seq<Piece>>): string
  {
    if words == [] then "" else WordText(words[0]) + (" " + LineText(words[1..]))
  }

  function Values(words: seq<seq<Piece>>): seq<string>
  {
    if words == [] then [] else [WordValue(words[0])] + Values(words[1..])
  }

  /** The arguments of a line, one after the other. */
  function AllWords(t: string): seq<string>
    decreases |t|
  {
    var r := NextArgument(t);
    if r.Word? && |r.rest| < |t| then [r.text] + AllWords(r.rest) else []
  }

  lemma {:induction false} BareReads(text: string, t: string)
    requires forall k :: 0 <= k < |text| ==> !IsSeparator(text[k]) && !Opens(text[k])
    ensures Read(text + t, Outside) == Prepend(text, Read(t, Outside))
    decreases |text|
  {
    if text == "" {
      assert text + t == t;
      PrependTwice("", "", Read(t, Outside));
    } else {
      assert (text + t)[1..] == text[1..] + t;
      BareReads(text[1..], t);
      PrependTwice([text[0]], text[1..], Read(t, Outside));
      assert [text[0]] + text[1..] == text;
    }
  }

  lemma {:induction false} IndexOfQuote(text: string, quote: char, t: string)
    requires quote !in text
    ensures IndexOf(text + ([quote] + t), quote) == |text|
  {
    hide IndexOf;
    var u := text + ([quote] + t);
    assert u[|text|] == quote && forall k :: 0 <= k < |text| ==> u[k] == text[k];
  }

  lemma {:induction false} QuotedReads(quote: char, text: string, t: string)
    requires Opens(quote) && quote !in text
    ensures Read([quote] + (text + [quote]) + t, Outside) == Prepend(PieceValue(Quoted(quote, text)), Read(t, Outside))
  {
    hide Read, IndexOf;
    var u := text + ([quote] + t);
    var all := [quote] + (text + [quote]) + t;
    assert all == [quote] + u && all[1..] == u;
    ReadOpens(all);
    IndexOfQuote(text, quote, t);
    ReadInside(u, quote);
    assert u[|text| + 1..] == t && u[..|text|] == text && u[..|text| + 1] == text + [quote];
    PrependTwice([quote], text + [quote], Read(t, Outside));
    PrependTwice("", text, Read(t, Outside));
    assert "" + text == text;
  }

  lemma {:induction false} PieceReads(p: Piece, t: string)
    requires WellPiece(p)
    ensures Read(PieceText(p) + t, Outside) == Prepend(PieceValue(p), Read(t, Outside))
  {
    hide Read;
    match p
    case Bare(text) => BareReads(text, t);
    case Quoted(quote, text) => QuotedReads(quote, text, t);
  }

  lemma {:induction false} WordReads(w: seq<Piece>, t: string)
    requires forall k :: 0 <= k < |w| ==> WellPiece(w[k])
    ensures Read(WordText(w) + t, Outside) == Prepend(WordValue(w), Read(t, Outside))
    decreases |w|
  {
    hide Read, WellPiece, PieceText, PieceValue;
    if w == [] {
      assert WordText(w) + t == t;
      PrependTwice("", "", Read(t, Outside));
    } else {
      var rest := WordText(w[1..]);
      assert WordText(w) + t == PieceText(w[0]) + (rest + t);
      PieceReads(w[0], rest + t);
      WordReads(w[1..], t);
      PrependTwice(PieceValue(w[0]), WordValue(w[1..]), Read(t, Outside));
    }
  }

  lemma {:induction false} WordBegins(w: seq<Piece>)
    requires WellWord(w)
    ensures WordText(w) != "" && var c := WordText(w)[0]; !IsSeparator(c) && c != '|' && c != '#'
  {
    assert WellPiece(w[0]);
  }

  /** A line of written words is taken apart into what they mean. */
  lemma {:induction false} WordsReadBack(words: seq<seq<Piece>>)
    requires forall k :: 0 <= k < |words| ==> WellWord(words[k])
    ensures AllWords(LineText(words)) == Values(words)
    decreases |words|
  {
    hide WordText, WordValue, WellWord, Read;
    if words != [] {
      var w, tail := words[0], LineText(words[1..]);
      var t := WordText(w) + (" " + tail);
      assert WellWord(w);
      Pieces(w);
      WordBegins(w);
      WordReads(w, " " + tail);
      AfterSpace(tail);
      assert t[0] == WordText(w)[0];
      NotSkipped(t);
      assert WordValue(w) + "" == WordValue(w);
      WordsReadBack(words[1..]);
    }
  }

  lemma {:induction false} Pieces(w: seq<Piece>)
    requires WellWord(w)
    ensures forall k :: 0 <= k < |w| ==> WellPiece(w[k])
  {
  }

  lemma {:induction false} AfterSpace(tail: string)
    ensures Read(" " + tail, Outside) == Word("", tail)
  {
    assert (" " + tail)[1..] == tail;
  }

  lemma {:induction false} NotSkipped(t: string)
    requires t != "" && !IsSeparator(t[0])
    ensures SkipSeparators(t) == t
  {
  }

  /** Separators in front make no difference; then a bar ends the command and a `#` the line. */
  lemma {:induction false} BarAndComment(before: string, t: string)
    requires forall k :: 0 <= k < |before| ==> IsSeparator(before[k])
    ensures NextArgument(before + t) == NextArgument(t)
    ensures NextArgument("|" + t) == Pipe(t) && NextArgument("#" + t) == Comment && NextArgument("") == NoMore
    decreases |before|
  {
    assert ("|" + t)[1..] == t;
    if before == "" {
      assert before + t == t;
    } else {
      assert (before + t)[1..] == before[1..] + t;
      BarAndComment(before[1..], t);
    }
  }
}
