/**
The wave forms of the FM synthesiser: an integer sine by table and linear
interpolation, and the triangle, sawtooth and square waves. Angles are integers
with a half turn of 65536.
*/
module FmWave {
  import opened CArith

  const SHRT_MAX := 32767
  const PI := 65536

  // ----- the table -----

  predicate SampleRow(r: seq<int>)
  {
    |r| == 16 && forall i :: 0 <= i < 16 ==> 0 <= r[i] <= SHRT_MAX
  }

  function Row0(): (r: seq<int>)
    ensures SampleRow(r)
  {
    [0, 201, 402, 603, 804, 1005, 1206, 1406, 1607, 1808, 2009, 2209, 2410, 2610, 2811, 3011]
  }

  function Row1(): (r: seq<int>)
    ensures SampleRow(r)
  {
    [3211, 3411, 3611, 3811, 4011, 4210, 4409, 4608, 4807, 5006, 5205, 5403, 5601, 5799, 5997, 6195]
  }

  function Row2(): (r: seq<int>)
    ensures SampleRow(r)
  {
    [6392, 6589, 6786, 6982, 7179, 7375, 7571, 7766, 7961, 8156, 8351, 8545, 8739, 8932, 9126, 9319]
  }

  function Row3(): (r: seq<int>)
    ensures SampleRow(r)
  {
    [9511, 9703, 9895, 10087, 10278, 10469, 10659, 10849, 11038, 11227, 11416, 11604, 11792, 11980, 12166, 12353]
  }

  function Row4(): (r: seq<int>)
    ensures SampleRow(r)
  {
    [12539, 12724, 12909, 13094, 13278, 13462, 13645, 13827, 14009, 14191, 14372, 14552, 14732, 14911, 15090, 15268]
  }

  function Row5(): (r: seq<int>)
    ensures SampleRow(r)
  {
    [15446, 15623, 15799, 15975, 16150, 16325, 16499, 16672, 16845, 17017, 17189, 17360, 17530, 17699, 17868, 18036]
  }

  function Row6(): (r: seq<int>)
    ensures SampleRow(r)
  {
    [18204, 18371, 18537, 18702, 18867, 19031, 19194, 19357, 19519, 19680, 19840, 20000, 20159, 20317, 20474, 20631]
  }

  function Row7(): (r: seq<int>)
    ensures SampleRow(r)
  {
    [20787, 20942, 21096, 21249, 21402, 21554, 21705, 21855, 22004, 22153, 22301, 22448, 22594, 22739, 22883, 23027]
  }

  function Row8(): (r: seq<int>)
    ensures SampleRow(r)
  {
    [23169, 23311, 23452, 23592, 23731, 23869, 24006, 24143, 24278, 24413, 24546, 24679, 24811, 24942, 25072, 25201]
  }

  function Row9(): (r: seq<int>)
    ensures SampleRow(r)
  {
    [25329, 25456, 25582, 25707, 25831, 25954, 26077, 26198, 26318, 26437, 26556, 26673, 26789, 26905, 27019, 27132]
  }

  function Row10(): (r: seq<int>)
    ensures SampleRow(r)
  {
    [27244, 27355, 27466, 27575, 27683, 27790, 27896, 28001, 28105, 28208, 28309, 28410, 28510, 28608, 28706, 28802]
  }

  function Row11(): (r: seq<int>)
    ensures SampleRow(r)
  {
    [28897, 28992, 29085, 29177, 29268, 29358, 29446, 29534, 29621, 29706, 29790, 29873, 29955, 30036, 30116, 30195]
  }

  function Row12(): (r: seq<int>)
    ensures SampleRow(r)
  {
    [30272, 30349, 30424, 30498, 30571, 30643, 30713, 30783, 30851, 30918, 30984, 31049, 31113, 31175, 31236, 31297]
  }

  function Row13(): (r: seq<int>)
    ensures SampleRow(r)
  {
    [31356, 31413, 31470, 31525, 31580, 31633, 31684, 31735, 31785, 31833, 31880, 31926, 31970, 32014, 32056, 32097]
  }

  function Row14(): (r: seq<int>)
    ensures SampleRow(r)
  {
    [32137, 32176, 32213, 32249, 32284, 32318, 32350, 32382, 32412, 32441, 32468, 32495, 32520, 32544, 32567, 32588]
  }

  function Row15(): (r: seq<int>)
    ensures SampleRow(r)
  {
    [32609, 32628, 32646, 32662, 32678, 32692, 32705, 32717, 32727, 32736, 32744, 32751, 32757, 32761, 32764, 32766]
  }

  function TableRow(k: nat): (r: seq<int>)
    requires k < 16
    ensures SampleRow(r)
  {
    match k
    case 0 => Row0()
    case 1 => Row1()
    case 2 => Row2()
    case 3 => Row3()
    case 4 => Row4()
    case 5 => Row5()
    case 6 => Row6()
    case 7 => Row7()
    case 8 => Row8()
    case 9 => Row9()
    case 10 => Row10()
    case 11 => Row11()
    case 12 => Row12()
    case 13 => Row13()
    case 14 => Row14()
    case _ => Row15()
  }

  /** The quarter sine table, with one extra entry on either side for interpolation. */
  function SinTable(i: nat): (v: int)
    requires i < 258
    ensures i > 0 ==> 0 <= v <= SHRT_MAX
  {
    if i == 0 then -201
    else if i == 257 then SHRT_MAX
    else TableRow((i - 1) / 16)[(i - 1) % 16]
  }

  // ----- wave forms -----

  /** `PHASE_ADJUST`: an angle brought into one turn; a negative angle is turned by half. */
  function PhaseAdjust(theta: int): (r: int)
    ensures 0 <= r < 2 * PI
  {
    (if theta < 0 then PI - theta else theta) % (2 * PI)
  }

  /** `a` moved `rest` 128ths of the way to `b`, rounded down. */
  function Interpolate(a: int, b: int, rest: int): int
  {
    a + ((b - a) * rest) / 128
  }

  function PseudoSin(theta: int): int
  {
    var t := PhaseAdjust(theta);
    var rest := t % 128;
    var phase := t / (PI / 2);
    var tblidx := (t % (PI / 2)) / 128;
    var v := if phase % 2 == 1
             then Interpolate(SinTable(257 - tblidx), SinTable(256 - tblidx), rest)
             else Interpolate(SinTable(tblidx + 1), SinTable(tblidx + 2), rest);
    if phase >= 2 then -v else v
  }

  function TriangleWave(theta: int): int
  {
    var t := PhaseAdjust(theta);
    var phase := t / (PI / 2);
    var offset := t % (PI / 2);
    if phase == 0 then (SHRT_MAX * offset) / 32768
    else if phase == 1 then SHRT_MAX + (-SHRT_MAX * offset) / 32768
    else if phase == 2 then (-SHRT_MAX * offset) / 32768
    else -SHRT_MAX + (SHRT_MAX * offset) / 32768
  }

  function SawtoothWave(theta: int): int
  {
    PhaseAdjust(theta) / 2 - SHRT_MAX
  }

  function SquareWave(theta: int): int
  {
    if PhaseAdjust(theta) < PI then SHRT_MAX else -SHRT_MAX
  }

  datatype Wave = Sin | Triangle | Sawtooth | Square

  function Generate(w: Wave, theta: int): int
  {
    match w
    case Sin => PseudoSin(theta)
    case Triangle => TriangleWave(theta)
    case Sawtooth => SawtoothWave(theta)
    case Square => SquareWave(theta)
  }

  // ----- bounds -----

  lemma {:induction false} InterpolateBetween(a: int, b: int, rest: int)
    requires 0 <= rest < 128
    ensures if a <= b then a <= Interpolate(a, b, rest) <= b else b <= Interpolate(a, b, rest) <= a
  {
    if a <= b {
      MulMono(0, rest, b - a);
      MulMono(rest, 128, b - a);
    } else {
      MulMono(0, rest, a - b);
      MulMono(rest, 128, a - b);
      assert (b - a) * rest == -((a - b) * rest);
    }
  }

  lemma {:induction false} SinBounded(theta: int)
    ensures -SHRT_MAX <= PseudoSin(theta) <= SHRT_MAX
  {
    hide SinTable;
    var t := PhaseAdjust(theta);
    var tblidx := (t % (PI / 2)) / 128;
    InterpolateBetween(SinTable(257 - tblidx), SinTable(256 - tblidx), t % 128);
    InterpolateBetween(SinTable(tblidx + 1), SinTable(tblidx + 2), t % 128);
  }

  /** The largest value of a wave form. */
  function Peak(w: Wave): int
  {
    if w == Sawtooth then SHRT_MAX + 1 else SHRT_MAX
  }

  /** Sine, triangle and square stay within 32767. The sawtooth exceeds it, by
      one, exactly in the last two steps of a turn. */
  lemma {:induction false} WavesBounded(w: Wave, theta: int)
    ensures -SHRT_MAX <= Generate(w, theta) <= Peak(w)
    ensures Generate(w, theta) > SHRT_MAX <==> w == Sawtooth && PhaseAdjust(theta) >= 2 * PI - 2
  {
    hide PseudoSin;
    SinBounded(theta);
  }

  /** The smallest angle at which the bound fails. */
  lemma {:induction false} SawtoothTooHigh()
    ensures SawtoothWave(2 * PI - 2) == SHRT_MAX + 1
    ensures forall theta :: 0 <= theta < 2 * PI - 2 ==> SawtoothWave(theta) <= SHRT_MAX
  {
  }

  // ----- symmetry -----

  /** The sine on a half turn. */
  function HalfSin(t: int): int
    requires 0 <= t < PI
  {
    if t < PI / 2 then Interpolate(SinTable(t / 128 + 1), SinTable(t / 128 + 2), t % 128)
    else Interpolate(SinTable(513 - t / 128), SinTable(512 - t / 128), t % 128)
  }

  lemma {:induction false} SinIsHalfSin(theta: int)
    ensures var t := PhaseAdjust(theta);
            PseudoSin(theta) == if t < PI then HalfSin(t) else -HalfSin(t - PI)
  {
    hide SinTable, Interpolate;
    var t := PhaseAdjust(theta);
    assert (t % (PI / 2)) / 128 == t / 128 - 256 * (t / (PI / 2));
  }

  /** The sine is odd, exactly, for every angle. */
  lemma {:induction false} SinOdd(theta: int)
    ensures PseudoSin(-theta) == -PseudoSin(theta)
  {
    hide PseudoSin, HalfSin, PhaseAdjust;
    SinIsHalfSin(theta);
    SinIsHalfSin(-theta);
    if theta == 0 {
      HalfSinZero();
    } else if theta > 0 {
      HalfTurn(theta);
    } else {
      HalfTurn(-theta);
    }
  }

  /** A negative angle is half a turn away from the positive one. */
  lemma {:induction false} HalfTurn(theta: int)
    requires theta > 0
    ensures var t := PhaseAdjust(theta); PhaseAdjust(-theta) == if t < PI then t + PI else t - PI
  {
  }

  lemma {:induction false} HalfSinZero()
    ensures HalfSin(0) == 0 && PhaseAdjust(0) == 0
  {
    assert SinTable(1) == 0;
  }

  /** Going the other way along the same table step gives the same value in spite of rounding. */
  lemma {:induction false} InterpolateFlip(a: int, b: int, rest: int)
    requires 0 < rest < 128
    ensures Interpolate(a, b, rest) == Interpolate(b, a, 128 - rest)
  {
    var d := b - a;
    assert (a - b) * (128 - rest) == d * rest - 128 * d;
    assert (d * rest - 128 * d) / 128 == (d * rest) / 128 - d;
  }

  /** The sine is symmetric about the quarter turn, exactly. */
  lemma {:induction false} SinReflected(t: int)
    requires 0 <= t <= PI
    ensures PseudoSin(PI - t) == PseudoSin(t)
  {
    hide PseudoSin, HalfSin;
    SinIsHalfSin(t);
    SinIsHalfSin(PI - t);
    if t == 0 || t == PI {
      HalfSinZero();
    } else if t < PI / 2 {
      HalfReflected(t);
    } else if t > PI / 2 {
      HalfReflected(PI - t);
    }
  }

  lemma {:induction false} HalfReflected(t: int)
    requires 0 < t < PI / 2
    ensures HalfSin(PI - t) == HalfSin(t)
  {
    hide SinTable;
    var q, r := t / 128, t % 128;
    if r == 0 {
      assert (PI - t) / 128 == 512 - q && (PI - t) % 128 == 0;
    } else {
      assert (PI - t) / 128 == 511 - q && (PI - t) % 128 == 128 - r;
      InterpolateFlip(SinTable(q + 1), SinTable(q + 2), r);
    }
  }
}
