/** The adaptive state of the G.722 decoder: quantizer scale factors and predictor coefficients of its two bands. */
module Adpcm {

  const QQ4_CODE4: seq<int> := [0, -20456, -12896, -8968, -6288, -4240, -2584, -1200,
                                20456, 12896, 8968, 6288, 4240, 2584, 1200, 0]
  const QQ2_CODE2: seq<int> := [-7408, -1616, 7408, 1616]
  const WL_CODE: seq<int> := [-60, 3042, 1198, 538, 334, 172, 58, -30, 3042, 1198, 538, 334, 172, 58, -30, -60]
  const WH_CODE: seq<int> := [798, -214, 798, -214]
  const ILB: seq<int> := [2048, 2093, 2139, 2186, 2233, 2282, 2332, 2383, 2435, 2489, 2543, 2599, 2656, 2714, 2774,
                          2834, 2896, 2960, 3025, 3091, 3158, 3228, 3298, 3371, 3444, 3520, 3597, 3676, 3756, 3838,
                          3922, 4008]

  /**
   * A shift to the right by n, which rounds down for negative numbers too, as division by a positive number does here.
   */
  function Shr(a: int, n: nat): int {
    if n == 0 then a else Shr(a, n - 1) / 2
  }

  function Clamp(a: int, low: int, high: int): int
    requires low <= high
  {
    if a < low then low else if a > high then high else a
  }

  // ----- the scale factor

  /** Leak by 127/128, step by the code's weight, and stay in range. */
  function Logscale(code: int, nb: int, limit: nat): int {
    Clamp(nb * 127 / 128 + code, 0, limit)
  }

  function Ilb(i: nat): nat
    requires i < 32
  {
    ILB[i]
  }

  /** The scale factor of a logarithm: a table for the fraction and a shift for the octave. */
  function Scale(nb: int, shiftConstant: nat): int
    requires 0 <= nb < 2048 * (shiftConstant + 2)
  {
    Shr(Ilb(nb / 64 % 32), shiftConstant + 1 - nb / 2048) * 8
  }

  // ----- the predictor

  function Sign(a: int): int {
    if a >= 0 then 1 else -1
  }

  function Uppol2(al1: int, al2: int, plt: int, plt1: int, plt2: int): int {
    var wd2 := (if Sign(plt * plt1) == 1 then -(4 * al1) else 4 * al1) / 128;
    Clamp(wd2 + Sign(plt * plt2) * 128 + 127 * al2 / 128, -12288, 12288)
  }

  function Uppol1(al1: int, apl2: int, plt: int, plt1: int): int
    requires apl2 <= 15360
  {
    Clamp(al1 * 255 / 256 + Sign(plt * plt1) * 192, -(15360 - apl2), 15360 - apl2)
  }

  function Leaked(b: int): int {
    255 * b / 256
  }

  /** One coefficient of the zero section: leak by 255/256, and lean towards the sign of the correlation. */
  function Adapted(dlt: int, tap: int, b: int): int {
    if dlt == 0 then Leaked(b) else Sign(dlt * tap) * 128 + Leaked(b)
  }

  function AdaptedAll(dlt: int, taps: seq<int>, b: seq<int>): (r: seq<int>)
    requires |taps| == |b| == 6
    ensures |r| == 6
  {
    [Adapted(dlt, taps[0], b[0]), Adapted(dlt, taps[1], b[1]), Adapted(dlt, taps[2], b[2]),
     Adapted(dlt, taps[3], b[3]), Adapted(dlt, taps[4], b[4]), Adapted(dlt, taps[5], b[5])]
  }

  /** The delay line as the program moves it on: the third tap is never written. */
  function Delayed(dlt: int, taps: seq<int>): (r: seq<int>)
    requires |taps| == 6
    ensures |r| == 6
  {
    [dlt, taps[0], taps[2], taps[2], taps[3], taps[4]]
  }

  function ZeroSection(b: seq<int>, taps: seq<int>): int
    requires |taps| == |b| == 6
  {
    (b[0] * taps[0] + b[1] * taps[1] + b[2] * taps[2] + b[3] * taps[3] + b[4] * taps[4] + b[5] * taps[5]) / 0x4000
  }

  function PoleSection(rlt1: int, al1: int, rlt2: int, al2: int): int {
    (al1 * (2 * rlt1) + al2 * (2 * rlt2)) / 0x8000
  }

  // ----- one band

  datatype Band = Band(nb: int, det: int, al1: int, al2: int, plt1: int, plt2: int, rlt1: int, rlt2: int,
                       taps: seq<int>, b: seq<int>)

  /** What tells the bands apart: the range of the logarithm and the shift of the scale factor. */
  datatype Kind = Kind(limit: nat, shiftConstant: nat)

  const LOW := Kind(18432, 8)
  const HIGH := Kind(22528, 10)

  predicate IsKind(k: Kind) {
    k == LOW || k == HIGH
  }

  ghost predicate Sized(s: Band) {
    |s.taps| == |s.b| == 6
  }

  /** One step of a band on a received level and the weight of its code. */
  function Next(k: Kind, s: Band, level: int, weight: int): Band
    requires IsKind(k) && Sized(s)
  {
    var sz := ZeroSection(s.b, s.taps);
    var sl := PoleSection(s.rlt1, s.al1, s.rlt2, s.al2) + sz;
    var dlt := s.det * level / 0x8000;
    var nb := Logscale(weight, s.nb, k.limit);
    var plt := dlt + sz;
    var al2 := Uppol2(s.al1, s.al2, plt, s.plt1, s.plt2);
    Band(nb, Scale(nb, k.shiftConstant), Uppol1(s.al1, al2, plt, s.plt1), al2, plt, s.plt1, sl + dlt, s.rlt1,
         Delayed(dlt, s.taps), AdaptedAll(dlt, s.taps, s.b))
  }

  function Zeros(): (s: seq<int>)
    ensures |s| == 6
  {
    [0, 0, 0, 0, 0, 0]
  }

  function Start(det: int): (s: Band)
    ensures Sized(s)
  {
    Band(0, det, 0, 0, 0, 0, 0, 0, Zeros(), Zeros())
  }

  /** The low and the high band after a sequence of received bytes. */
  function After(inputs: seq<bv8>): (r: (Band, Band))
    ensures Sized(r.0) && Sized(r.1)
  {
    if inputs == [] then (Start(32), Start(8))
    else
      var before := After(inputs[..|inputs| - 1]);
      var input := inputs[|inputs| - 1];
      (NextLow(before.0, input), NextHigh(before.1, input))
  }

  function LowCode(input: bv8): (code: int)
    ensures 0 <= code < 16
  {
    ((input & 0x3f) >> 2) as int
  }

  function HighCode(input: bv8): (code: int)
    ensures 0 <= code < 4
  {
    (input >> 6) as int
  }

  function NextLow(s: Band, input: bv8): (r: Band)
    requires Sized(s)
    ensures Sized(r)
  {
    Next(LOW, s, QQ4_CODE4[LowCode(input)], WL_CODE[LowCode(input)])
  }

  function NextHigh(s: Band, input: bv8): (r: Band)
    requires Sized(s)
    ensures Sized(r)
  {
    Next(HIGH, s, QQ2_CODE2[HighCode(input)], WH_CODE[HighCode(input)])
  }

  // ----- bounds

  ghost predicate Bounded(k: Kind, s: Band) {
    && Sized(s)
    && 0 <= s.nb <= k.limit
    && (if k == LOW then 32 <= s.det <= 16384 else 8 <= s.det <= 16384)
    && -12288 <= s.al2 <= 12288 && -(15360 - s.al2) <= s.al1 <= 15360 - s.al2
    && (forall i :: 0 <= i < 6 ==> -32768 <= s.b[i] <= 32767)
  }

  /** Nothing ever reaches the third tap or those behind it, so their coefficients only grow or leak. */
  ghost predicate TwoTaps(s: Band) {
    Sized(s) && forall i :: 2 <= i < 6 ==> s.taps[i] == 0 && s.b[i] >= 0
  }

  lemma {:induction false} ShrMonotone(a: int, b: int, n: nat)
    requires a <= b
    ensures Shr(a, n) <= Shr(b, n)
  {
    if n > 0 { ShrMonotone(a, b, n - 1); }
  }

  lemma {:induction false} ShrShrinks(a: nat, n: nat, m: nat)
    requires n <= m
    ensures 0 <= Shr(a, m) <= Shr(a, n) <= a
  {
    if n < m {
      ShrShrinks(a, n, m - 1);
    } else if n > 0 {
      ShrShrinks(a, n - 1, m - 1);
    }
  }

  lemma {:induction false} ShrOfDouble(a: nat, n: nat)
    ensures Shr(2 * a, n + 1) == Shr(a, n)
  {
    if n > 0 { ShrOfDouble(a, n - 1); }
  }

  lemma {:induction false} TableIsMonotone(i: nat, j: nat)
    requires i <= j < 32
    ensures Ilb(i) <= Ilb(j)
    decreases j - i
  {
    if i < j { TableIsMonotone(i + 1, j); }
  }

  lemma IlbInRange(i: nat)
    requires i < 32
    ensures 2048 <= Ilb(i) < 4096 && Ilb(0) == 2048
  {
    TableIsMonotone(0, i);
    TableIsMonotone(i, 31);
  }

  lemma ShrConstants()
    ensures Shr(2048, 9) == 4 && Shr(2048, 11) == 1 && forall a :: Shr(a, 0) == a
  {
    assert Shr(2048, 3) == 256 && Shr(2048, 6) == 32;
  }

  /** The shift is never negative, and the scale factor stays between its value at 0 and its value at the limit. */
  lemma ScaleInRange(nb: int, k: Kind)
    requires IsKind(k) && 0 <= nb <= k.limit
    ensures nb / 2048 <= k.shiftConstant + 1
    ensures (if k == LOW then 32 else 8) <= Scale(nb, k.shiftConstant) <= 16384
  {
    hide Ilb, Shr;
    var entry, shift := Ilb(nb / 64 % 32), k.shiftConstant + 1 - nb / 2048;
    IlbInRange(nb / 64 % 32);
    ShrConstants();
    ShrMonotone(2048, entry, shift);
    ShrShrinks(2048, shift, k.shiftConstant + 1);
    if shift == 0 {
      assert nb == k.limit;
    } else {
      ShrMonotone(entry, 4096, shift);
      ShrOfDouble(2048, shift - 1);
      ShrShrinks(2048, 0, shift - 1);
    }
  }

  lemma CoefficientInRange(dlt: int, tap: int, b: int)
    requires -32768 <= b <= 32767
    ensures -32768 <= Adapted(dlt, tap, b) <= 32767
    ensures tap == 0 && b >= 0 ==> Adapted(dlt, tap, b) >= 0
  {
  }

  /** One step keeps every bound, whatever was received. */
  lemma NextKeepsBounds(k: Kind, s: Band, level: int, weight: int)
    requires IsKind(k) && Bounded(k, s)
    ensures Bounded(k, Next(k, s, level, weight))
    ensures TwoTaps(s) ==> TwoTaps(Next(k, s, level, weight))
  {
    hide Scale, ZeroSection, PoleSection, Adapted;
    var s' := Next(k, s, level, weight);
    ScaleInRange(s'.nb, k);
    forall i | 0 <= i < 6 ensures -32768 <= s'.b[i] <= 32767 && (s.taps[i] == 0 && s.b[i] >= 0 ==> s'.b[i] >= 0) {
      CoefficientInRange(s.det * level / 0x8000, s.taps[i], s.b[i]);
    }
  }

  /** Main result: after reset and any sequence of received bytes every bound holds in both bands. */
  lemma {:induction false} AlwaysBounded(inputs: seq<bv8>)
    ensures Bounded(LOW, After(inputs).0) && Bounded(HIGH, After(inputs).1)
    ensures TwoTaps(After(inputs).0) && TwoTaps(After(inputs).1)
  {
    hide Next, Bounded, TwoTaps;
    if inputs == [] {
      StartIsBounded();
    } else {
      var init, input := inputs[..|inputs| - 1], inputs[|inputs| - 1];
      AlwaysBounded(init);
      NextKeepsBounds(LOW, After(init).0, QQ4_CODE4[LowCode(input)], WL_CODE[LowCode(input)]);
      NextKeepsBounds(HIGH, After(init).1, QQ2_CODE2[HighCode(input)], WH_CODE[HighCode(input)]);
    }
  }

  lemma StartIsBounded()
    ensures Bounded(LOW, Start(32)) && Bounded(HIGH, Start(8)) && TwoTaps(Start(32)) && TwoTaps(Start(8))
  {
  }

  /**
   * Main result: since the delay line never fills its third tap, the zero sections of both bands predict from the last
   * two difference signals only, not from six.
   */
  lemma ZeroSectionSeesTwo(inputs: seq<bv8>)
    ensures var s := After(inputs).0; ZeroSection(s.b, s.taps) == (s.b[0] * s.taps[0] + s.b[1] * s.taps[1]) / 0x4000
    ensures var s := After(inputs).1; ZeroSection(s.b, s.taps) == (s.b[0] * s.taps[0] + s.b[1] * s.taps[1]) / 0x4000
  {
    hide After, ZeroSection, Bounded;
    AlwaysBounded(inputs);
    OnlyTwo(After(inputs).0.b, After(inputs).0.taps);
    OnlyTwo(After(inputs).1.b, After(inputs).1.taps);
  }

  lemma OnlyTwo(b: seq<int>, taps: seq<int>)
    requires |b| == |taps| == 6 && taps[2] == taps[3] == taps[4] == taps[5] == 0
    ensures ZeroSection(b, taps) == (b[0] * taps[0] + b[1] * taps[1]) / 0x4000
  {
    assert b[2] * 0 == b[3] * 0 == b[4] * 0 == b[5] * 0 == 0;
  }

  lemma AcrossOctaves(entry: nat, entry': nat, shift: nat, shift': nat)
    requires entry < 4096 && 2048 <= entry' && shift' < shift
    ensures Shr(entry, shift) <= Shr(entry', shift')
  {
    hide Shr;
    ShrMonotone(entry, 4096, shift);
    ShrOfDouble(2048, shift - 1);
    ShrMonotone(2048, entry', shift - 1);
    ShrShrinks(entry', shift', shift - 1);
  }

  lemma WithinOctave(nb: nat, nb': nat)
    requires nb <= nb' && nb / 2048 == nb' / 2048
    ensures nb / 64 % 32 <= nb' / 64 % 32
  {
    var q, q' := nb / 64, nb' / 64;
    assert q <= q' && q / 32 == nb / 2048 && q' / 32 == nb' / 2048;
    assert q % 32 == q - 32 * (q / 32) && q' % 32 == q' - 32 * (q' / 32);
  }

  /** A larger logarithm never means a smaller scale factor, also from one octave to the next. */
  lemma ScaleIsMonotone(nb: int, nb': int, k: Kind)
    requires IsKind(k) && 0 <= nb <= nb' <= k.limit
    ensures Scale(nb, k.shiftConstant) <= Scale(nb', k.shiftConstant)
  {
    hide Ilb, Shr;
    IlbInRange(nb / 64 % 32);
    IlbInRange(nb' / 64 % 32);
    var shift, shift' := k.shiftConstant + 1 - nb / 2048, k.shiftConstant + 1 - nb' / 2048;
    if shift == shift' {
      WithinOctave(nb, nb');
      TableIsMonotone(nb / 64 % 32, nb' / 64 % 32);
      ShrMonotone(Ilb(nb / 64 % 32), Ilb(nb' / 64 % 32), shift);
    } else {
      AcrossOctaves(Ilb(nb / 64 % 32), Ilb(nb' / 64 % 32), shift, shift');
    }
  }

  // ----- which way the state moves

  /**
   * The second pole coefficient: while the signal keeps its sign a larger first coefficient pulls it down, by 1 for
   * every 32, and otherwise up; agreement with the signal before last lifts it by 256 against disagreement; of its own
   * value 127 parts in 128 are kept. It stops at 12288 on either side.
   */
  lemma SecondCoefficientMoves(al1: int, al1': int, al2: int, plt: int, plt1: int, plt2: int, plt2': int)
    requires al1 <= al1' && plt * plt2 >= 0 > plt * plt2'
    ensures var (u, u') := (Uppol2(al1, al2, plt, plt1, plt2), Uppol2(al1', al2, plt, plt1, plt2));
      if plt * plt1 >= 0 then u' <= u else u <= u'
    ensures var (u, u') := (Uppol2(al1, al2, plt, plt1, plt2), Uppol2(al1 + 32, al2, plt, plt1, plt2));
      -12288 < u < 12288 && -12288 < u' < 12288 ==> u' == if plt * plt1 >= 0 then u - 1 else u + 1
    ensures var (u, u') := (Uppol2(al1, al2, plt, plt1, plt2), Uppol2(al1, al2, plt, plt1, plt2'));
      u' <= u <= u' + 256 && (-12288 < u < 12288 && -12288 < u' < 12288 ==> u == u' + 256)
    ensures var (u, u') := (Uppol2(al1, al2, plt, plt1, plt2), Uppol2(al1, al2 + 128, plt, plt1, plt2));
      u <= u' <= u + 127 && (-12288 < u < 12288 && -12288 < u' < 12288 ==> u' == u + 127)
    ensures Uppol2(0, 0, plt, plt1, plt2) == 128 && Uppol2(0, 0, plt, plt1, plt2') == -128
  {
  }

  /**
   * The first pole coefficient: agreement with the last signal lifts it by 384 against disagreement, and of its own
   * value 255 parts in 256 are kept. It stops where both coefficients together come to 15360.
   */
  lemma FirstCoefficientMoves(al1: int, al1': int, apl2: int, plt: int, plt1: int, plt1': int)
    requires al1 <= al1' && -12288 <= apl2 <= 12288 && plt * plt1 >= 0 > plt * plt1'
    ensures Uppol1(al1, apl2, plt, plt1) <= Uppol1(al1', apl2, plt, plt1)
    ensures var (u, u', limit) := (Uppol1(al1, apl2, plt, plt1), Uppol1(al1, apl2, plt, plt1'), 15360 - apl2);
      u' <= u <= u' + 384 && (-limit < u < limit && -limit < u' < limit ==> u == u' + 384)
    ensures var (u, u', limit) := (Uppol1(al1, apl2, plt, plt1), Uppol1(al1 + 256, apl2, plt, plt1), 15360 - apl2);
      u <= u' <= u + 255 && (-limit < u < limit && -limit < u' < limit ==> u' == u + 255)
    ensures Uppol1(0, apl2, plt, plt1) == 192 && Uppol1(0, apl2, plt, plt1') == -192
  {
  }

  /**
   * The pole section weighs the last output by the first coefficient and the one before by the second, in units of
   * 0x4000.
   */
  lemma PoleSectionWeighs(rlt1: int, al1: int, rlt2: int, al2: int)
    ensures PoleSection(rlt1 + 0x4000, al1, rlt2, al2) == PoleSection(rlt1, al1, rlt2, al2) + al1
    ensures PoleSection(rlt1, al1, rlt2 + 0x4000, al2) == PoleSection(rlt1, al1, rlt2, al2) + al2
    ensures PoleSection(0, al1, 0, al2) == 0
  {
    assert al1 * (2 * (rlt1 + 0x4000)) == al1 * (2 * rlt1) + 0x8000 * al1;
    assert al2 * (2 * (rlt2 + 0x4000)) == al2 * (2 * rlt2) + 0x8000 * al2;
  }

  /**
   * A zero coefficient keeps 255 parts in 256 of its value, and moves by 128 with the sign of the correlation unless
   * the difference signal is zero.
   */
  lemma ZeroCoefficientMoves(dlt: int, tap: int, b: int)
    ensures Adapted(dlt, tap, b + 256) == Adapted(dlt, tap, b) + 255
    ensures Adapted(dlt, tap, 0) == if dlt == 0 then 0 else if dlt * tap >= 0 then 128 else -128
  {
  }

  /** A logarithm keeps 127 parts in 128 of its value and moves by the weight of the code, between 0 and its limit. */
  lemma LogarithmMoves(code: int, nb: int, limit: nat)
    ensures var (n, n') := (Logscale(code, nb, limit), Logscale(code, nb + 128, limit));
      n <= n' <= n + 127 && (0 < n < limit && 0 < n' < limit ==> n' == n + 127)
    ensures 0 <= code <= limit ==> Logscale(code, 0, limit) == code
    ensures 0 <= nb <= limit && code <= 0 ==> Logscale(code, nb, limit) <= nb
  {
  }

  // ----- the program

  class Decoder {
    var nbl: int
    var detl: int
    var al1: int
    var al2: int
    var plt1: int
    var plt2: int
    var rlt1: int
    var rlt2: int
    const delBpl: array<int>
    const delDltx: array<int>
    var nbh: int
    var deth: int
    var ah1: int
    var ah2: int
    var ph1: int
    var ph2: int
    var rh1: int
    var rh2: int
    const delBph: array<int>
    const delDhx: array<int>

    ghost predicate Valid() {
      && delBpl.Length == delDltx.Length == delBph.Length == delDhx.Length == 6
      && delBpl != delDltx && delBpl != delBph && delBpl != delDhx && delDltx != delBph && delDltx != delDhx
      && delBph != delDhx
    }

    ghost function Low(): (s: Band)
      requires Valid()
      reads this, delBpl, delDltx
      ensures Sized(s)
    {
      Band(nbl, detl, al1, al2, plt1, plt2, rlt1, rlt2, delDltx[..], delBpl[..])
    }

    ghost function High(): (s: Band)
      requires Valid()
      reads this, delBph, delDhx
      ensures Sized(s)
    {
      Band(nbh, deth, ah1, ah2, ph1, ph2, rh1, rh2, delDhx[..], delBph[..])
    }

    constructor ()
      ensures Valid() && fresh(delBpl) && fresh(delDltx) && fresh(delBph) && fresh(delDhx)
    {
      delBpl, delDltx, delBph, delDhx := new int[6](_ => 0), new int[6](_ => 0), new int[6](_ => 0), new int[6](_ => 0);
    }

    static method ClearLine(line: array<int>)
      requires line.Length == 6
      modifies line
      ensures line[..] == Zeros()
    {
      for i := 0 to 6
        invariant forall k :: 0 <= k < i ==> line[k] == 0
      {
        line[i] := 0;
      }
      AllZero(line[..]);
    }

    method ResetLow()
      requires Valid()
      modifies `nbl, `detl, `al1, `al2, `plt1, `plt2, `rlt1, `rlt2, delBpl, delDltx
      ensures Low() == Start(32)
    {
      hide Zeros;
      detl := 32;
      nbl, al1, al2, plt1, plt2, rlt1, rlt2 := 0, 0, 0, 0, 0, 0, 0;
      ClearLine(delDltx);
      ClearLine(delBpl);
    }

    method ResetHigh()
      requires Valid()
      modifies `nbh, `deth, `ah1, `ah2, `ph1, `ph2, `rh1, `rh2, delBph, delDhx
      ensures High() == Start(8)
    {
      hide Zeros;
      deth := 8;
      nbh, ah1, ah2, ph1, ph2, rh1, rh2 := 0, 0, 0, 0, 0, 0, 0;
      ClearLine(delDhx);
      ClearLine(delBph);
    }

    method Reset()
      requires Valid()
      modifies this, delBpl, delDltx, delBph, delDhx
      ensures (Low(), High()) == After([])
    {
      hide After, Start;
      NothingReceived();
      ResetLow();
      ResetHigh();
    }

    /** Adapts the coefficients of a zero section and moves its delay line on, both in place. */
    static method Upzero(dlt: int, dlti: array<int>, bli: array<int>)
      requires dlti.Length == bli.Length == 6 && dlti != bli
      modifies dlti, bli
      ensures bli[..] == AdaptedAll(dlt, old(dlti[..]), old(bli[..])) && dlti[..] == Delayed(dlt, old(dlti[..]))
    {
      hide Adapted;
      ghost var taps, b := dlti[..], bli[..];
      for i := 0 to 6
        invariant dlti[..] == taps && forall k :: i <= k < 6 ==> bli[k] == b[k]
        invariant forall k :: 0 <= k < i ==> bli[k] == Adapted(dlt, taps[k], b[k])
      {
        bli[i] := Adapted(dlt, dlti[i], bli[i]);
      }
      assert bli[..] == AdaptedAll(dlt, taps, b);
      dlti[5] := dlti[4];
      dlti[4] := dlti[3];
      dlti[3] := dlti[2];
      dlti[1] := dlti[0];
      dlti[0] := dlt;
      assert dlti[..] == Delayed(dlt, taps);
    }

    /** The predictor output of a zero section. */
    static method Filtez(bpl: array<int>, dlt: array<int>) returns (r: int)
      requires bpl.Length == dlt.Length == 6
      ensures r == ZeroSection(bpl[..], dlt[..])
    {
      var zl := bpl[0] * dlt[0];
      for i := 1 to 6
        invariant zl == PartialSum(bpl[..], dlt[..], i)
      {
        zl := zl + bpl[i] * dlt[i];
      }
      r := zl / 0x4000;
      SumIsComplete(bpl[..], dlt[..]);
    }

    /** The low band's half of decode. */
    method DecodeLow(input: bv8)
      requires Valid() && 0 <= nbl <= 18432
      modifies `nbl, `detl, `al1, `al2, `plt1, `plt2, `rlt1, `rlt2, delBpl, delDltx
      ensures Low() == NextLow(old(Low()), input)
    {
      hide ZeroSection, PoleSection, Logscale, Scale, Uppol1, Uppol2, AdaptedAll, Delayed, LowCode;
      ghost var s := Low();
      var code := LowCode(input);
      var szl := Filtez(delBpl, delDltx);
      var sl := PoleSection(rlt1, al1, rlt2, al2) + szl;
      var dlt := detl * QQ4_CODE4[code] / 0x8000;
      nbl := Logscale(WL_CODE[code], nbl, 18432);
      LogscaleInRange(WL_CODE[code], s.nb, LOW);
      detl := Scale(nbl, 8);
      var plt := dlt + szl;
      Upzero(dlt, delDltx, delBpl);
      al2 := Uppol2(al1, al2, plt, plt1, plt2);
      Uppol2InRange(al1, s.al2, plt, plt1, plt2);
      al1 := Uppol1(al1, al2, plt, plt1);
      var rlt := sl + dlt;
      rlt2 := rlt1;
      rlt1 := rlt;
      plt2 := plt1;
      plt1 := plt;
    }

    /** The high band's half of decode. */
    method DecodeHigh(input: bv8)
      requires Valid() && 0 <= nbh <= 22528
      modifies `nbh, `deth, `ah1, `ah2, `ph1, `ph2, `rh1, `rh2, delBph, delDhx
      ensures High() == NextHigh(old(High()), input)
    {
      hide ZeroSection, PoleSection, Logscale, Scale, Uppol1, Uppol2, AdaptedAll, Delayed, HighCode;
      ghost var s := High();
      var ih := HighCode(input);
      var szh := Filtez(delBph, delDhx);
      var sh := PoleSection(rh1, ah1, rh2, ah2) + szh;
      var dh := deth * QQ2_CODE2[ih] / 0x8000;
      nbh := Logscale(WH_CODE[ih], nbh, 22528);
      LogscaleInRange(WH_CODE[ih], s.nb, HIGH);
      deth := Scale(nbh, 10);
      var ph := dh + szh;
      Upzero(dh, delDhx, delBph);
      ah2 := Uppol2(ah1, ah2, ph, ph1, ph2);
      Uppol2InRange(ah1, s.al2, ph, ph1, ph2);
      ah1 := Uppol1(ah1, ah2, ph, ph1);
      var rh := sh + dh;
      rh2 := rh1;
      rh1 := rh;
      ph2 := ph1;
      ph1 := ph;
    }

    /** decode, as far as it adapts the state; the bounds it needs and keeps are those of the run so far. */
    method Decode(input: bv8, ghost inputs: seq<bv8>)
      requires Valid() && (Low(), High()) == After(inputs)
      modifies this, delBpl, delDltx, delBph, delDhx
      ensures (Low(), High()) == After(inputs + [input])
      ensures Bounded(LOW, Low()) && Bounded(HIGH, High())
    {
      hide After, Bounded, NextLow, NextHigh;
      AlwaysBounded(inputs);
      AlwaysBounded(inputs + [input]);
      AfterOne(inputs, input);
      BoundedLogarithm(LOW, Low());
      BoundedLogarithm(HIGH, High());
      DecodeLow(input);
      DecodeHigh(input);
    }
  }

  lemma AllZero(s: seq<int>)
    requires |s| == 6 && forall i :: 0 <= i < 6 ==> s[i] == 0
    ensures s == Zeros()
  {
  }

  lemma NothingReceived()
    ensures After([]) == (Start(32), Start(8))
  {
  }

  lemma AfterOne(inputs: seq<bv8>, input: bv8)
    ensures After(inputs + [input]) == (NextLow(After(inputs).0, input), NextHigh(After(inputs).1, input))
  {
    assert (inputs + [input])[..|inputs|] == inputs;
  }

  lemma BoundedLogarithm(k: Kind, s: Band)
    requires Bounded(k, s)
    ensures 0 <= s.nb <= k.limit
  {
  }

  lemma LogscaleInRange(code: int, nb: int, k: Kind)
    ensures 0 <= Logscale(code, nb, k.limit) <= k.limit
  {
  }

  lemma Uppol2InRange(al1: int, al2: int, plt: int, plt1: int, plt2: int)
    ensures -12288 <= Uppol2(al1, al2, plt, plt1, plt2) <= 12288
  {
  }

  function PartialSum(b: seq<int>, taps: seq<int>, n: nat): int
    requires n <= |b| && n <= |taps|
  {
    if n == 0 then 0 else PartialSum(b, taps, n - 1) + b[n - 1] * taps[n - 1]
  }

  lemma SumIsComplete(b: seq<int>, taps: seq<int>)
    requires |b| == |taps| == 6
    ensures PartialSum(b, taps, 6) / 0x4000 == ZeroSection(b, taps)
  {
    var p0, p1, p2, p3, p4, p5 :=
      b[0] * taps[0], b[1] * taps[1], b[2] * taps[2], b[3] * taps[3], b[4] * taps[4], b[5] * taps[5];
    assert PartialSum(b, taps, 1) == p0;
    assert PartialSum(b, taps, 2) == p0 + p1;
    assert PartialSum(b, taps, 3) == p0 + p1 + p2;
    assert PartialSum(b, taps, 4) == p0 + p1 + p2 + p3;
    assert PartialSum(b, taps, 5) == p0 + p1 + p2 + p3 + p4;
  }
}
