/**
Run-length encoding of one image row: every pixel becomes the index of the
nearest palette colour, and equal neighbours are gathered into runs of at most
255. The encoding loses nothing and no encoding with that cap is shorter.
*/
module RleRow {

  const MAX_RUN := 255

  type Color = (int, int, int)

  function Square(x: int): nat
  {
    x * x
  }

  function Distance(a: Color, b: Color): nat
  {
    Square(a.0 - b.0) + Square(a.1 - b.1) + Square(a.2 - b.2)
  }

  /** The squared Euclidean distance: it depends on the differences of the channels only, each channel adds
      its own, and `d` in one channel is `d` squared. */
  lemma {:induction false} Euclidean(a: Color, b: Color, d: int)
    ensures Distance(a, b) == Distance(b, a)
    ensures Distance((a.0 + d, a.1 + d, a.2 + d), (b.0 + d, b.1 + d, b.2 + d)) == Distance(a, b)
    ensures Distance(a, b) == Distance(a, (b.0, a.1, a.2)) + Distance(a, (a.0, b.1, a.2)) + Distance(a, (a.0, a.1, b.2))
    ensures Distance(a, (a.0 + d, a.1, a.2)) == Distance(a, (a.0, a.1 + d, a.2)) == Distance(a, (a.0, a.1, a.2 + d)) == d * d
  {
    SquareEven(a.0 - b.0);
    SquareEven(a.1 - b.1);
    SquareEven(a.2 - b.2);
    SquareEven(d);
  }

  lemma {:induction false} SquareEven(x: int)
    ensures Square(-x) == Square(x) == x * x && Square(0) == 0
  {
  }

  /** The first of the palette colours nearest to `color`. */
  ghost predicate IsNearest(color: Color, palette: seq<Color>, index: nat)
  {
    && index < |palette|
    && (forall k :: 0 <= k < |palette| ==> Distance(color, palette[index]) <= Distance(color, palette[k]))
    && (forall k :: 0 <= k < index ==> Distance(color, palette[k]) > Distance(color, palette[index]))
  }

  /** `quantize`: the first exact match, or else the first of the nearest colours. */
  method Quantize(color: Color, palette: seq<Color>) returns (index: nat)
    requires palette != []
    ensures IsNearest(color, palette, index)
    ensures color in palette ==> palette[index] == color
  {
    index := 0;
    while index < |palette| && palette[index] != color
      invariant 0 <= index <= |palette|
      invariant forall k :: 0 <= k < index ==> palette[k] != color
    {
      index := index + 1;
    }
    if index < |palette| {
      ExactIsNearest(color, palette, index);
      return;
    }
    index := 0;
    for x := 1 to |palette|
      invariant index < |palette|
      invariant forall k :: 0 <= k < x ==> Distance(color, palette[index]) <= Distance(color, palette[k])
      invariant forall k :: 0 <= k < index ==> Distance(color, palette[k]) > Distance(color, palette[index])
    {
      if Distance(color, palette[x]) < Distance(color, palette[index]) {
        index := x;
      }
    }
  }

  lemma {:induction false} ExactIsNearest(color: Color, palette: seq<Color>, index: nat)
    requires index < |palette| && palette[index] == color
    requires forall k :: 0 <= k < index ==> palette[k] != color
    ensures Distance(color, palette[index]) == 0
    ensures forall k :: 0 <= k < index ==> Distance(color, palette[k]) > 0
  {
    forall k | 0 <= k < index
      ensures Distance(color, palette[k]) > 0
    {
      var c := palette[k];
      if color.0 != c.0 {
        Positive(color.0 - c.0);
      } else if color.1 != c.1 {
        Positive(color.1 - c.1);
      } else {
        Positive(color.2 - c.2);
      }
    }
  }

  lemma {:induction false} Positive(x: int)
    requires x != 0
    ensures Square(x) > 0
  {
    assert x * x > 0;
  }

  // ----- runs -----

  datatype Run = Run(repeats: nat, color: nat)

  function Repeat(n: nat, c: nat): (r: seq<nat>)
    ensures |r| == n && forall i :: 0 <= i < n ==> r[i] == c
  {
    seq(n, _ => c)
  }

  function Decode(runs: seq<Run>): seq<nat>
  {
    if runs == [] then [] else Repeat(runs[0].repeats, runs[0].color) + Decode(runs[1..])
  }

  predicate Capped(runs: seq<Run>)
  {
    forall k :: 0 <= k < |runs| ==> 1 <= runs[k].repeats <= MAX_RUN
  }

  lemma {:induction false} OneMore(n: nat, c: nat)
    ensures Repeat(n + 1, c) == Repeat(n, c) + [c]
    ensures Repeat(0, c) == []
  {
    hide Repeat;
  }

  lemma {:induction false} DecodeFront(r: Run, runs: seq<Run>)
    ensures Decode([r] + runs) == Repeat(r.repeats, r.color) + Decode(runs)
  {
    assert ([r] + runs)[1..] == runs;
  }

  // ----- the shortest encoding -----

  /** How long a run the row begins with, up to the cap. */
  function FirstRun(row: seq<nat>, n: nat): (k: nat)
    requires 0 < n <= |row| && n <= MAX_RUN && forall i :: 0 <= i < n ==> row[i] == row[0]
    ensures n <= k <= |row| && k <= MAX_RUN
    ensures forall i :: 0 <= i < k ==> row[i] == row[0]
    ensures k == |row| || k == MAX_RUN || row[k] != row[0]
    decreases |row| - n
  {
    if n < |row| && n < MAX_RUN && row[n] == row[0] then FirstRun(row, n + 1) else n
  }

  lemma {:induction false} FirstRunIs(row: seq<nat>, k: nat)
    requires 0 < k <= |row| && k <= MAX_RUN
    requires forall i :: 0 <= i < k ==> row[i] == row[0]
    requires k == |row| || k == MAX_RUN || row[k] != row[0]
    ensures FirstRun(row, 1) == k
  {
    hide *;
    var f := FirstRun(row, 1);
    assert f < |row| && f < MAX_RUN ==> row[f] != row[0];
  }

  /** Taking the longest run each time. */
  function Greedy(row: seq<nat>): seq<Run>
    decreases |row|
  {
    if row == [] then []
    else
      var k := FirstRun(row, 1);
      [Run(k, row[0])] + Greedy(row[k..])
  }

  /** Dropping pixels from the front never takes more runs. */
  lemma {:induction false} SuffixNoLonger(row: seq<nat>, d: nat)
    requires d <= |row|
    ensures |Greedy(row[d..])| <= |Greedy(row)|
    decreases |row|
  {
    hide FirstRun, Greedy;
    if row != [] && d > 0 {
      var k := FirstRun(row, 1);
      GreedyLength(row);
      if d >= k {
        assert row[k..][d - k..] == row[d..];
        SuffixNoLonger(row[k..], d - k);
      } else {
        var rest := row[d..];
        var j := FirstRun(rest, 1);
        GreedyLength(rest);
        RunGoesFurther(row, d);
        assert rest[j..] == row[k..][d + j - k..];
        SuffixNoLonger(row[k..], d + j - k);
      }
    } else {
      assert row[d..] == row;
    }
  }

  lemma {:induction false} GreedyLength(row: seq<nat>)
    requires row != []
    ensures |Greedy(row)| == 1 + |Greedy(row[FirstRun(row, 1)..])|
  {
    hide FirstRun;
  }

  /** From inside the first run the next one goes at least to its end. */
  lemma {:induction false} RunGoesFurther(row: seq<nat>, d: nat)
    requires row != [] && 0 < d < FirstRun(row, 1)
    ensures d + FirstRun(row[d..], 1) >= FirstRun(row, 1)
  {
    hide FirstRun;
    var rest := row[d..];
    var j := FirstRun(rest, 1);
    assert j < |rest| ==> rest[j] == row[d + j];
  }

  /** The longest first run reaches at least as far as any other run. */
  lemma {:induction false} FirstRunReaches(row: seq<nat>, n: nat, c: nat, rest: seq<nat>)
    requires 1 <= n <= MAX_RUN && row == Repeat(n, c) + rest
    ensures n <= FirstRun(row, 1) <= |row|
    ensures row[FirstRun(row, 1)..] == rest[FirstRun(row, 1) - n..]
  {
    hide FirstRun, Repeat;
    var k := FirstRun(row, 1);
    assert forall i :: 0 <= i < n ==> row[i] == c;
  }

  lemma {:induction false} NothingToDecode()
    ensures Decode([]) == [] && Greedy([]) == []
  {
  }

  /** No run list with the cap that decodes to the row has fewer entries. */
  lemma {:induction false} GreedyIsShortest(row: seq<nat>, runs: seq<Run>)
    requires Capped(runs) && Decode(runs) == row
    ensures |Greedy(row)| <= |runs|
    decreases |runs|
  {
    hide FirstRun, Repeat, Greedy, Decode;
    if runs == [] {
      NothingToDecode();
    } else {
      var rest := Decode(runs[1..]);
      DecodeFront(runs[0], runs[1..]);
      assert [runs[0]] + runs[1..] == runs;
      FirstRunReaches(row, runs[0].repeats, runs[0].color, rest);
      GreedyLength(row);
      GreedyIsShortest(rest, runs[1..]);
      SuffixNoLonger(rest, FirstRun(row, 1) - runs[0].repeats);
    }
  }

  /** A run that cannot join the last one is a run of its own. */
  predicate Separate(runs: seq<Run>, c: nat)
  {
    runs == [] || runs[|runs| - 1].repeats == MAX_RUN || runs[|runs| - 1].color != c
  }

  lemma {:induction false} GreedyFront(row: seq<nat>)
    requires row != []
    ensures Greedy(row) == [Run(FirstRun(row, 1), row[0])] + Greedy(row[FirstRun(row, 1)..])
    ensures row == Repeat(FirstRun(row, 1), row[0]) + row[FirstRun(row, 1)..]
  {
    hide FirstRun, Repeat;
    var k := FirstRun(row, 1);
    assert row == row[..k] + row[k..];
    assert row[..k] == Repeat(k, row[0]);
  }

  lemma {:induction false} GreedyAppend(row: seq<nat>, n: nat, c: nat)
    requires 1 <= n <= MAX_RUN && Separate(Greedy(row), c)
    ensures Greedy(row + Repeat(n, c)) == Greedy(row) + [Run(n, c)]
    decreases |row|
  {
    hide FirstRun, Repeat, Greedy;
    NothingToDecode();
    var more := Repeat(n, c);
    if row == [] {
      assert row + more == more;
      FirstRunIs(more, n);
      GreedyFront(more);
      assert more[n..] == [];
    } else {
      var k := FirstRun(row, 1);
      GreedyFront(row);
      var all := row + more;
      assert k == |row| ==> row[k..] == [];
      assert forall i :: 0 <= i < k ==> all[i] == row[i];
      assert if k < |row| then all[k] == row[k] else all[k] == c;
      FirstRunIs(all, k);
      GreedyFront(all);
      assert all[k..] == row[k..] + more;
      GreedyAppend(row[k..], n, c);
    }
  }

  lemma {:induction false} GreedyDecodes(row: seq<nat>)
    ensures Decode(Greedy(row)) == row && Capped(Greedy(row))
    decreases |row|
  {
    assert Decode(Greedy([])) == [];
    hide FirstRun, Decode, Repeat, Greedy;
    if row != [] {
      var k := FirstRun(row, 1);
      GreedyFront(row);
      DecodeFront(Run(k, row[0]), Greedy(row[k..]));
      GreedyDecodes(row[k..]);
    } else {
      assert Capped(Greedy([])) by { NothingToDecode(); }
    }
  }

  // ----- the loop -----

  /** `row` is `before`, whose runs are written, and a run that is still open. */
  ghost predicate SoFar(row: seq<nat>, before: seq<nat>, repeats: nat, color: nat, entries: seq<Run>)
  {
    row == before + Repeat(repeats, color) && entries == Greedy(before) && Separate(entries, color)
  }

  lemma {:induction false} OpenFirst(c: nat)
    ensures SoFar([c], [], 1, c, [])
  {
    OneMore(0, c);
  }

  lemma {:induction false} OpenLonger(row: seq<nat>, before: seq<nat>, repeats: nat, color: nat, entries: seq<Run>)
    requires SoFar(row, before, repeats, color, entries)
    ensures SoFar(row + [color], before, repeats + 1, color, entries)
  {
    hide Greedy, Repeat, Separate;
    OneMore(repeats, color);
  }

  lemma {:induction false} CloseRun(row: seq<nat>, before: seq<nat>, repeats: nat, color: nat, entries: seq<Run>)
    requires SoFar(row, before, repeats, color, entries) && 1 <= repeats <= MAX_RUN
    ensures entries + [Run(repeats, color)] == Greedy(row)
  {
    hide Greedy, Repeat, Separate;
    GreedyAppend(before, repeats, color);
  }

  lemma {:induction false} OpenNext(row: seq<nat>, entries: seq<Run>, r: Run, c: nat)
    requires entries + [r] == Greedy(row) && (r.repeats == MAX_RUN || r.color != c)
    ensures SoFar(row + [c], row, 1, c, entries + [r])
  {
    hide Greedy, Repeat;
    OneMore(0, c);
  }

  /** `encode_row`. `row` is the row of palette indices the entries stand for. */
  method EncodeRow(pixels: seq<Color>, palette: seq<Color>) returns (entries: seq<Run>, ghost row: seq<nat>)
    requires pixels != [] ==> palette != []
    ensures |row| == |pixels| && forall k :: 0 <= k < |row| ==> IsNearest(pixels[k], palette, row[k])
    ensures Decode(entries) == row
    ensures Capped(entries)
    ensures forall runs :: Capped(runs) && Decode(runs) == row ==> |entries| <= |runs|
  {
    hide Distance, IsNearest, Decode, Greedy, Capped, Repeat, SoFar;
    entries, row := [], [];
    var started, color, repeats := false, 0, 0;
    ghost var before: seq<nat> := [];
    var x := 0;
    while x < |pixels|
      invariant 0 <= x <= |pixels| && |row| == x && started == (x > 0)
      invariant forall k :: 0 <= k < x ==> IsNearest(pixels[k], palette, row[k])
      invariant if started then 1 <= repeats <= MAX_RUN && SoFar(row, before, repeats, color, entries) else entries == []
    {
      var c := Quantize(pixels[x], palette);
      if started && c == color && repeats < MAX_RUN {
        OpenLonger(row, before, repeats, color, entries);
        repeats := repeats + 1;
      } else {
        if started {
          CloseRun(row, before, repeats, color, entries);
          OpenNext(row, entries, Run(repeats, color), c);
          entries := entries + [Run(repeats, color)];
        } else {
          OpenFirst(c);
          assert row == [] && row + [c] == [c];
        }
        before := row;
        repeats := 1;
        color := c;
      }
      row := row + [c];
      started := true;
      x := x + 1;
    }
    if started {
      CloseRun(row, before, repeats, color, entries);
      entries := entries + [Run(repeats, color)];
    } else {
      NothingToDecode();
    }
    GreedyDecodes(row);
    forall runs | Capped(runs) && Decode(runs) == row
      ensures |entries| <= |runs|
    {
      GreedyIsShortest(row, runs);
    }
  }
}
