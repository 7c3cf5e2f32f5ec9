/**
What the wave forms look like. The sine is pinned down by its table, which goes
round by a 1024th of a turn from entry to entry, by interpolation within a
quarter turn, and by its symmetries; the other waves by one line law each.
*/
module FmShape {
  import opened CArith
  import opened FmWave

  // ----- the table -----

  /** Entry `k` of the quarter: the sine of `k` steps of a 1024th of a turn. */
  function Entry(k: nat): int
    requires k <= 256
  {
    SinTable(k + 1)
  }

  /** From `(cos, sin)` one step on, by the addition theorem with the sine and cosine of the step to six
      places: `next` is right to less than one unit, and larger. */
  predicate Turns(sin: int, cos: int, next: int)
  {
    sin < next && -1000000 < 1000000 * next - 999981 * sin - 6136 * cos < 1000000
  }

  /** A row of the table and the row behind it, against the row that holds its cosines backwards and the one behind that. */
  predicate RowsTurn(a: seq<int>, a': seq<int>, b: seq<int>, b': seq<int>)
  {
    && |a| == 16 && |b| == 16 && a' != [] && b' != []
    && Turns(a[0], b'[0], a[1]) && Turns(a[1], b[15], a[2]) && Turns(a[2], b[14], a[3]) && Turns(a[3], b[13], a[4])
    && Turns(a[4], b[12], a[5]) && Turns(a[5], b[11], a[6]) && Turns(a[6], b[10], a[7]) && Turns(a[7], b[9], a[8])
    && Turns(a[8], b[8], a[9]) && Turns(a[9], b[7], a[10]) && Turns(a[10], b[6], a[11]) && Turns(a[11], b[5], a[12])
    && Turns(a[12], b[4], a[13]) && Turns(a[13], b[3], a[14]) && Turns(a[14], b[2], a[15]) && Turns(a[15], b[1], a'[0])
  }

  function RowAt(k: nat): seq<int>
    requires k <= 16
  {
    if k == 16 then [SHRT_MAX] else TableRow(k)
  }

  predicate RowTurns(k: nat)
    requires k < 16
  {
    RowsTurn(RowAt(k), RowAt(k + 1), RowAt(15 - k), RowAt(16 - k))
  }

  lemma {:induction false} Rows0And1()
    ensures RowsTurn(Row0(), Row1(), Row15(), [SHRT_MAX])
    ensures RowsTurn(Row1(), Row2(), Row14(), Row15())
  {
  }

  lemma {:induction false} Rows2And3()
    ensures RowsTurn(Row2(), Row3(), Row13(), Row14())
    ensures RowsTurn(Row3(), Row4(), Row12(), Row13())
  {
  }

  lemma {:induction false} Rows4And5()
    ensures RowsTurn(Row4(), Row5(), Row11(), Row12())
    ensures RowsTurn(Row5(), Row6(), Row10(), Row11())
  {
  }

  lemma {:induction false} Rows6And7()
    ensures RowsTurn(Row6(), Row7(), Row9(), Row10())
    ensures RowsTurn(Row7(), Row8(), Row8(), Row9())
  {
  }

  lemma {:induction false} Rows8And9()
    ensures RowsTurn(Row8(), Row9(), Row7(), Row8())
    ensures RowsTurn(Row9(), Row10(), Row6(), Row7())
  {
  }

  lemma {:induction false} Rows10And11()
    ensures RowsTurn(Row10(), Row11(), Row5(), Row6())
    ensures RowsTurn(Row11(), Row12(), Row4(), Row5())
  {
  }

  lemma {:induction false} Rows12And13()
    ensures RowsTurn(Row12(), Row13(), Row3(), Row4())
    ensures RowsTurn(Row13(), Row14(), Row2(), Row3())
  {
  }

  lemma {:induction false} Rows14And15()
    ensures RowsTurn(Row14(), Row15(), Row1(), Row2())
    ensures RowsTurn(Row15(), [SHRT_MAX], Row0(), Row1())
  {
  }

  lemma {:induction false} EveryRow(k: nat)
    requires k < 16
    ensures RowTurns(k)
  {
    hide RowsTurn, Row0, Row1, Row2, Row3, Row4, Row5, Row6, Row7, Row8, Row9, Row10, Row11, Row12, Row13, Row14, Row15;
    Rows0And1();
    Rows2And3();
    Rows4And5();
    Rows6And7();
    Rows8And9();
    Rows10And11();
    Rows12And13();
    Rows14And15();
  }

  lemma {:induction false} RowsTurnAt(a: seq<int>, a': seq<int>, b: seq<int>, b': seq<int>, j: nat)
    requires RowsTurn(a, a', b, b') && j < 16
    ensures |a| == 16 && |b| == 16 && a' != [] && b' != []
    ensures Turns(a[j], if j == 0 then b'[0] else b[16 - j], if j == 15 then a'[0] else a[j + 1])
  {
    hide Turns;
  }

  /** The table goes round from zero to the maximum, 256 steps of a 1024th of a turn each. */
  lemma {:induction false} TableTurns(k: nat)
    requires k < 256
    ensures Turns(Entry(k), Entry(256 - k), Entry(k + 1))
    ensures Entry(0) == 0 && Entry(256) == SHRT_MAX
  {
    hide Turns, RowsTurn, TableRow;
    var i, j := k / 16, k % 16;
    EveryRow(i);
    RowsTurnAt(RowAt(i), RowAt(i + 1), RowAt(15 - i), RowAt(16 - i), j);
    FirstEntry();
    assert (k + 1) / 16 == (if j == 15 then i + 1 else i) && (k + 1) % 16 == (if j == 15 then 0 else j + 1);
    assert (256 - k) / 16 == (if j == 0 then 16 - i else 15 - i) && (256 - k) % 16 == (if j == 0 then 0 else 16 - j);
  }

  lemma {:induction false} FirstEntry()
    ensures TableRow(0)[0] == 0 && SinTable(1) == 0
  {
  }

  lemma {:induction false} EntriesGrow(k: nat)
    requires k <= 256
    ensures Entry(k) >= k
    decreases k
  {
    hide Entry;
    if k > 0 {
      TableTurns(k - 1);
      EntriesGrow(k - 1);
    } else {
      TableTurns(0);
    }
  }

  // ----- the sine -----

  /** Between two entries the sine is their linear interpolation, rounded down. */
  lemma {:induction false} SinInterpolates(q: nat, rest: nat)
    requires q < 256 && rest < 128
    ensures var v := PseudoSin(128 * q + rest);
            128 * v <= Entry(q) * (128 - rest) + Entry(q + 1) * rest < 128 * v + 128
  {
    hide SinTable, PseudoSin, Interpolate;
    var t := 128 * q + rest;
    assert t / 128 == q && t % 128 == rest;
    SinIsHalfSin(t);
    assert PhaseAdjust(t) == t;
    InterpolateFloors(Entry(q), Entry(q + 1), rest);
  }

  lemma {:induction false} InterpolateFloors(a: int, b: int, rest: int)
    ensures var v := Interpolate(a, b, rest); 128 * v <= a * (128 - rest) + b * rest < 128 * v + 128
  {
    var x := (b - a) * rest;
    assert a * (128 - rest) + b * rest == 128 * a + x;
  }

  /** The sine is positive on the first half turn and negative on the second. */
  lemma {:induction false} SinSign(theta: int)
    ensures var t := PhaseAdjust(theta);
            (PseudoSin(theta) > 0 <==> 0 < t < PI) && (PseudoSin(theta) == 0 <==> t == 0 || t == PI)
  {
    hide PseudoSin, HalfSin, PhaseAdjust;
    SinIsHalfSin(theta);
    var t := PhaseAdjust(theta);
    HalfSinZero();
    if t != 0 && t != PI {
      HalfSinPositive(if t < PI then t else t - PI);
    }
  }

  lemma {:induction false} HalfSinPositive(t: int)
    requires 0 < t < PI
    ensures HalfSin(t) > 0
  {
    hide SinTable, Interpolate;
    if t < PI / 2 {
      QuarterPositive(t / 128, t % 128);
    } else if t == PI / 2 {
      TableTurns(0);
      assert 513 - t / 128 == 257;
      InterpolateAt(SinTable(257), SinTable(256));
    } else {
      HalfReflected(PI - t);
      QuarterPositive((PI - t) / 128, (PI - t) % 128);
    }
  }

  lemma {:induction false} InterpolateAt(a: int, b: int)
    ensures Interpolate(a, b, 0) == a
  {
  }

  lemma {:induction false} QuarterPositive(q: int, rest: int)
    requires 0 <= q < 256 && 0 <= rest < 128 && (q > 0 || rest > 0)
    ensures Interpolate(SinTable(q + 1), SinTable(q + 2), rest) > 0
  {
    hide SinTable, Turns;
    EntriesGrow(q);
    TableTurns(q);
    Rises(q);
    if q == 0 {
      FirstStep();
      assert (201 * rest) / 128 >= 1;
    } else {
      InterpolateBetween(Entry(q), Entry(q + 1), rest);
    }
  }

  lemma {:induction false} Rises(k: nat)
    requires k < 256
    ensures Entry(k) < Entry(k + 1)
  {
    TableTurns(k);
    hide Entry;
  }

  lemma {:induction false} FirstStep()
    ensures SinTable(1) == 0 && SinTable(2) == 201
  {
    assert TableRow(0) == Row0();
  }

  /** Whole turns make no difference, for negative angles too. */
  lemma {:induction false} SinPeriodic(theta: int)
    ensures PseudoSin(theta + 2 * PI) == PseudoSin(theta)
  {
    hide PseudoSin;
    if theta >= 0 {
      SameAdjusted(theta, theta + 2 * PI);
    } else {
      var u := -theta;
      SinOdd(u);
      if u >= 2 * PI {
        SinOdd(u - 2 * PI);
        SameAdjusted(u - 2 * PI, u);
      } else {
        TurnBack(u);
      }
    }
  }

  lemma {:induction false} SameAdjusted(a: int, b: int)
    requires 0 <= a && b == a + 2 * PI
    ensures PseudoSin(a) == PseudoSin(b)
  {
    hide PseudoSin, HalfSin, PhaseAdjust;
    Adjusted(a);
    SinIsHalfSin(a);
    SinIsHalfSin(b);
  }

  /** What a whole turn more does to an angle brought into one turn. */
  lemma {:induction false} Adjusted(theta: int)
    ensures var t, t' := PhaseAdjust(theta), PhaseAdjust(theta + 2 * PI);
            if theta >= 0 || theta < -2 * PI then t' == t
            else t' == theta + 2 * PI && t == if t' <= PI then PI - t' else 3 * PI - t'
  {
    if theta >= 0 {
      WholeTurn(theta);
    } else if theta < -2 * PI {
      WholeTurn(PI - theta - 2 * PI);
    } else if theta + 2 * PI <= PI {
      WholeTurn(PI - theta - 2 * PI);
    }
  }

  lemma {:induction false} WholeTurn(a: int)
    ensures (a + 2 * PI) % (2 * PI) == a % (2 * PI)
  {
  }

  lemma {:induction false} WithinTurn()
    ensures forall t :: 0 <= t < 2 * PI ==> PhaseAdjust(t) == t
  {
  }

  lemma {:induction false} TurnBack(u: int)
    requires 0 < u < 2 * PI
    ensures PseudoSin(2 * PI - u) == -PseudoSin(u)
  {
    hide PseudoSin, HalfSin, PhaseAdjust;
    WithinTurn();
    SinIsHalfSin(u);
    SinIsHalfSin(2 * PI - u);
    HalfSinZero();
    if u < PI {
      SinReflected(u);
      SinIsHalfSin(PI - u);
    } else if u > PI {
      SinReflected(u - PI);
      SinIsHalfSin(u - PI);
      SinIsHalfSin(2 * PI - u);
    }
  }

  // ----- the other waves -----

  /** A zigzag with the slope one: up, down through zero, and up again. */
  function Zigzag(t: int): int
  {
    if t <= PI / 2 then t else if t <= 3 * PI / 2 then PI - t else t - 2 * PI
  }

  /** The triangle is that zigzag scaled to the maximum; the sawtooth rises by one every two steps; both
      are rounded down. The square has the sign of the sine. */
  lemma {:induction false} WaveLines(theta: int)
    ensures var t, v := PhaseAdjust(theta), TriangleWave(theta); 32768 * v <= SHRT_MAX * Zigzag(t) < 32768 * (v + 1)
    ensures var t, v := PhaseAdjust(theta), SawtoothWave(theta); 2 * v <= t - 2 * SHRT_MAX < 2 * (v + 1)
    ensures SquareWave(theta) == SHRT_MAX || SquareWave(theta) == -SHRT_MAX
    ensures PseudoSin(theta) > 0 ==> SquareWave(theta) > 0
    ensures PseudoSin(theta) < 0 ==> SquareWave(theta) < 0
  {
    hide PseudoSin, PhaseAdjust;
    SinSign(theta);
  }

  /** An angle stands for itself less whole turns; a negative one for its mirror image about the quarter turn. */
  lemma {:induction false} Adjusts(theta: int)
    ensures theta >= 0 ==> (theta - PhaseAdjust(theta)) % (2 * PI) == 0
    ensures theta < 0 ==> (PI - theta - PhaseAdjust(theta)) % (2 * PI) == 0
  {
  }

  /** A whole turn more makes no difference, except that just below zero the mirrored sawtooth falls
      where it should rise, and the square is the wrong way round at the two jumps. */
  lemma {:induction false} PeriodicExactly(w: Wave, theta: int)
    ensures Generate(w, theta + 2 * PI) == Generate(w, theta) <==>
            || theta >= 0 || theta < -2 * PI || w.Sin? || w.Triangle?
            || (w.Square? && theta != -PI && theta != -2 * PI)
            || (w.Sawtooth? && (theta == -PI / 2 || theta == -3 * PI / 2))
  {
    hide PseudoSin, PhaseAdjust, TriangleWave;
    Adjusted(theta);
    SinPeriodic(theta);
    TrianglePeriodic(theta);
  }

  lemma {:induction false} TrianglePeriodic(theta: int)
    ensures TriangleWave(theta + 2 * PI) == TriangleWave(theta)
  {
    hide PseudoSin, PhaseAdjust, TriangleWave, SawtoothWave, SquareWave;
    Adjusted(theta);
    WaveLines(theta);
    WaveLines(theta + 2 * PI);
  }
}
