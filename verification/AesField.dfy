/** What the tables hold: a permutation and its inverse, and multiplication in the field of 256 elements. */
module AesField {
  import opened AesTables

  /** Addition in the field. */
  function Xor(a: bv8, b: bv8): bv8 {
    a ^ b
  }

  /** Multiplication by the polynomial x (section 4.2.1 of FIPS 197). */
  function Xtime(b: bv8): bv8 {
    if b & 0x80 != 0 then (b << 1) ^ 0x1b else b << 1
  }

  /** What the bits shifted out at the top leave behind. */
  function Carry(h: bv8): bv8 {
    Xor(Xor(h, h << 1), Xor(h << 3, h << 4))
  }

  function By2(b: bv8): bv8 { Xor(b << 1, Carry(b >> 7)) }

  function By4(b: bv8): bv8 { Xor(b << 2, Carry(b >> 6)) }

  function By8(b: bv8): bv8 { Xor(b << 3, Carry(b >> 5)) }

  function By3(b: bv8): bv8 { Xor(By2(b), b) }

  function By9(b: bv8): bv8 { Xor(By8(b), b) }

  function ByB(b: bv8): bv8 { Xor(By8(b), By3(b)) }

  function ByD(b: bv8): bv8 { Xor(By8(b), Xor(By4(b), b)) }

  function ByE(b: bv8): bv8 { Xor(By8(b), Xor(By4(b), By2(b))) }

  lemma PowersOfX(b: bv8)
    ensures By2(b) == Xtime(b) && By4(b) == Xtime(Xtime(b)) && By8(b) == Xtime(Xtime(Xtime(b)))
  {
  }

  /** The product in the field: b times x to the k, added up for the bits k that are set in a (section 4.2). */
  function Times(a: bv8, b: bv8): bv8 {
    var b1 := Xtime(b);
    var b2 := Xtime(b1);
    var b3 := Xtime(b2);
    var b4 := Xtime(b3);
    var b5 := Xtime(b4);
    var b6 := Xtime(b5);
    var b7 := Xtime(b6);
    Sum(Xor(Part(a, 0x01, b), Part(a, 0x02, b1)), Xor(Part(a, 0x04, b2), Part(a, 0x08, b3)),
        Xor(Part(a, 0x10, b4), Part(a, 0x20, b5)), Xor(Part(a, 0x40, b6), Part(a, 0x80, b7)))
  }

  function Part(a: bv8, bit: bv8, b: bv8): bv8 {
    if a & bit != 0 then b else 0
  }

  lemma TimesSmall(a: bv8, b: bv8)
    requires a < 0x10
    ensures var b2 := Xtime(Xtime(b));
      Times(a, b) ==
      Xor(Xor(Part(a, 0x01, b), Part(a, 0x02, Xtime(b))), Xor(Part(a, 0x04, b2), Part(a, 0x08, Xtime(b2))))
  {
    hide Xtime;
  }

  lemma ZeroAddsNothing(p: bv8)
    ensures Xor(p, 0) == Xor(0, p) == p
  {
  }

  lemma Backwards(p: bv8, q: bv8, r: bv8)
    ensures Xor(Xor(p, q), r) == Xor(r, Xor(q, p)) == Xor(p, Xor(q, r))
  {
    hide Xor;
    XorIsAssociative(p, q, r);
    XorIsCommutative(Xor(p, q), r);
    XorIsCommutative(p, q);
  }

  /** The multiples by sums of shifts are products in the field. */
  lemma MultiplesAreProducts(b: bv8)
    ensures By2(b) == Times(0x02, b) && By3(b) == Times(0x03, b) && By9(b) == Times(0x09, b)
    ensures ByB(b) == Times(0x0b, b) && ByD(b) == Times(0x0d, b) && ByE(b) == Times(0x0e, b)
  {
    hide Times, Xtime, Xor, By2, By4, By8;
    PowersOfX(b);
    ZeroAddsNothing(0);
    ZeroAddsNothing(b);
    ZeroAddsNothing(By2(b));
    ZeroAddsNothing(By8(b));
    ZeroAddsNothing(Xor(b, By2(b)));
    XorIsCommutative(b, By2(b));
    XorIsCommutative(b, By8(b));
    Backwards(b, By2(b), By8(b));
    Backwards(b, By4(b), By8(b));
    Backwards(By2(b), By4(b), By8(b));
    TimesSmall(0x02, b);
    TimesSmall(0x03, b);
    TimesSmall(0x09, b);
    TimesSmall(0x0b, b);
    TimesSmall(0x0d, b);
    TimesSmall(0x0e, b);
  }

  // ----- the product table

  lemma GfMul2IsProduct(b: bv8)
    ensures GfMul2(b) == By2(b)
  {
  }

  lemma GfMul3IsProduct(b: bv8)
    ensures GfMul3(b) == By3(b)
  {
  }

  lemma GfMul9IsProduct(b: bv8)
    ensures GfMul9(b) == By9(b)
  {
  }

  lemma GfMulBIsProduct(b: bv8)
    ensures GfMulB(b) == ByB(b)
  {
  }

  lemma GfMulDIsProduct(b: bv8)
    ensures GfMulD(b) == ByD(b)
  {
  }

  lemma GfMulEIsProduct(b: bv8)
    ensures GfMulE(b) == ByE(b)
  {
  }

  // ----- multiplication distributes over addition

  lemma XorIsAssociative(a: bv8, b: bv8, c: bv8)
    ensures Xor(Xor(a, b), c) == Xor(a, Xor(b, c))
  {
    assert (a ^ b) ^ c == a ^ (b ^ c);
  }

  lemma XorIsCommutative(a: bv8, b: bv8)
    ensures Xor(a, b) == Xor(b, a)
  {
  }

  lemma Swap(a: bv8, b: bv8, c: bv8, d: bv8)
    ensures Xor(Xor(a, b), Xor(c, d)) == Xor(Xor(a, c), Xor(b, d))
  {
    hide Xor;
    XorIsAssociative(a, b, Xor(c, d));
    XorIsAssociative(b, c, d);
    XorIsCommutative(b, c);
    XorIsAssociative(c, b, d);
    XorIsAssociative(a, c, Xor(b, d));
  }

  lemma ShiftsAreLinear(p: bv8, q: bv8)
    ensures Xor(p, q) << 1 == Xor(p << 1, q << 1) && Xor(p, q) << 2 == Xor(p << 2, q << 2)
    ensures Xor(p, q) << 3 == Xor(p << 3, q << 3) && Xor(p, q) << 4 == Xor(p << 4, q << 4)
    ensures Xor(p, q) >> 5 == Xor(p >> 5, q >> 5) && Xor(p, q) >> 6 == Xor(p >> 6, q >> 6)
    ensures Xor(p, q) >> 7 == Xor(p >> 7, q >> 7)
  {
  }

  lemma CarryIsLinear(p: bv8, q: bv8)
    ensures Carry(Xor(p, q)) == Xor(Carry(p), Carry(q))
  {
    hide Xor;
    ShiftsAreLinear(p, q);
    Swap(p, q, p << 1, q << 1);
    Swap(p << 3, q << 3, p << 4, q << 4);
    Swap(Xor(p, p << 1), Xor(q, q << 1), Xor(p << 3, p << 4), Xor(q << 3, q << 4));
  }

  lemma By2IsLinear(p: bv8, q: bv8)
    ensures By2(Xor(p, q)) == Xor(By2(p), By2(q))
  {
    hide Xor, Carry;
    ShiftsAreLinear(p, q);
    CarryIsLinear(p >> 7, q >> 7);
    Swap(p << 1, q << 1, Carry(p >> 7), Carry(q >> 7));
  }

  lemma By4IsLinear(p: bv8, q: bv8)
    ensures By4(Xor(p, q)) == Xor(By4(p), By4(q))
  {
    hide Xor, Carry;
    ShiftsAreLinear(p, q);
    CarryIsLinear(p >> 6, q >> 6);
    Swap(p << 2, q << 2, Carry(p >> 6), Carry(q >> 6));
  }

  lemma By8IsLinear(p: bv8, q: bv8)
    ensures By8(Xor(p, q)) == Xor(By8(p), By8(q))
  {
    hide Xor, Carry;
    ShiftsAreLinear(p, q);
    CarryIsLinear(p >> 5, q >> 5);
    Swap(p << 3, q << 3, Carry(p >> 5), Carry(q >> 5));
  }

  lemma By3IsLinear(p: bv8, q: bv8)
    ensures By3(Xor(p, q)) == Xor(By3(p), By3(q))
  {
    hide Xor, By2;
    By2IsLinear(p, q);
    Swap(By2(p), By2(q), p, q);
  }

  lemma By9IsLinear(p: bv8, q: bv8)
    ensures By9(Xor(p, q)) == Xor(By9(p), By9(q))
  {
    hide Xor, By8;
    By8IsLinear(p, q);
    Swap(By8(p), By8(q), p, q);
  }

  lemma ByBIsLinear(p: bv8, q: bv8)
    ensures ByB(Xor(p, q)) == Xor(ByB(p), ByB(q))
  {
    hide Xor, By3, By8;
    By8IsLinear(p, q);
    By3IsLinear(p, q);
    Swap(By8(p), By8(q), By3(p), By3(q));
  }

  lemma ByDIsLinear(p: bv8, q: bv8)
    ensures ByD(Xor(p, q)) == Xor(ByD(p), ByD(q))
  {
    hide Xor, By4, By8;
    By8IsLinear(p, q);
    By4IsLinear(p, q);
    Swap(By4(p), By4(q), p, q);
    Swap(By8(p), By8(q), Xor(By4(p), p), Xor(By4(q), q));
  }

  lemma ByEIsLinear(p: bv8, q: bv8)
    ensures ByE(Xor(p, q)) == Xor(ByE(p), ByE(q))
  {
    hide Xor, By2, By4, By8;
    By8IsLinear(p, q);
    By4IsLinear(p, q);
    By2IsLinear(p, q);
    Swap(By4(p), By4(q), By2(p), By2(q));
    Swap(By8(p), By8(q), Xor(By4(p), By2(p)), Xor(By4(q), By2(q)));
  }

  // ----- sums of four, as in the rows of a matrix product

  function Sum(p: bv8, q: bv8, r: bv8, s: bv8): bv8 {
    Xor(Xor(p, q), Xor(r, s))
  }

  lemma SumRotates(p: bv8, q: bv8, r: bv8, s: bv8)
    ensures Sum(p, q, r, s) == Sum(q, r, s, p)
  {
    hide Xor;
    XorIsCommutative(p, q);
    Swap(q, p, r, s);
    XorIsCommutative(p, s);
  }

  lemma SumOfOne(p: bv8)
    ensures Sum(p, 0, 0, 0) == p
  {
  }

  lemma SumOfSums(p: bv8, q: bv8, r: bv8, s: bv8, p': bv8, q': bv8, r': bv8, s': bv8)
    ensures Xor(Sum(p, q, r, s), Sum(p', q', r', s')) == Sum(Xor(p, p'), Xor(q, q'), Xor(r, r'), Xor(s, s'))
  {
    hide Xor;
    Swap(Xor(p, q), Xor(r, s), Xor(p', q'), Xor(r', s'));
    Swap(p, q, p', q');
    Swap(r, s, r', s');
  }

  /** Adding up a square of 16 row by row or column by column comes to the same. */
  lemma Transposes(p0: bv8, q0: bv8, r0: bv8, s0: bv8, p1: bv8, q1: bv8, r1: bv8, s1: bv8,
                   p2: bv8, q2: bv8, r2: bv8, s2: bv8, p3: bv8, q3: bv8, r3: bv8, s3: bv8)
    ensures Sum(Sum(p0, q0, r0, s0), Sum(p1, q1, r1, s1), Sum(p2, q2, r2, s2), Sum(p3, q3, r3, s3)) ==
            Sum(Sum(p0, p1, p2, p3), Sum(q0, q1, q2, q3), Sum(r0, r1, r2, r3), Sum(s0, s1, s2, s3))
  {
    hide Xor;
    SumOfSums(p0, q0, r0, s0, p1, q1, r1, s1);
    SumOfSums(p2, q2, r2, s2, p3, q3, r3, s3);
    SumOfSums(Xor(p0, p1), Xor(q0, q1), Xor(r0, r1), Xor(s0, s1), Xor(p2, p3), Xor(q2, q3), Xor(r2, r3), Xor(s2, s3));
  }

  lemma By2OfSum(p: bv8, q: bv8, r: bv8, s: bv8)
    ensures By2(Sum(p, q, r, s)) == Sum(By2(p), By2(q), By2(r), By2(s))
  {
    hide Xor, By2;
    By2IsLinear(Xor(p, q), Xor(r, s));
    By2IsLinear(p, q);
    By2IsLinear(r, s);
  }

  lemma By3OfSum(p: bv8, q: bv8, r: bv8, s: bv8)
    ensures By3(Sum(p, q, r, s)) == Sum(By3(p), By3(q), By3(r), By3(s))
  {
    hide Xor, By3;
    By3IsLinear(Xor(p, q), Xor(r, s));
    By3IsLinear(p, q);
    By3IsLinear(r, s);
  }

  lemma By9OfSum(p: bv8, q: bv8, r: bv8, s: bv8)
    ensures By9(Sum(p, q, r, s)) == Sum(By9(p), By9(q), By9(r), By9(s))
  {
    hide Xor, By9;
    By9IsLinear(Xor(p, q), Xor(r, s));
    By9IsLinear(p, q);
    By9IsLinear(r, s);
  }

  lemma ByBOfSum(p: bv8, q: bv8, r: bv8, s: bv8)
    ensures ByB(Sum(p, q, r, s)) == Sum(ByB(p), ByB(q), ByB(r), ByB(s))
  {
    hide Xor, ByB;
    ByBIsLinear(Xor(p, q), Xor(r, s));
    ByBIsLinear(p, q);
    ByBIsLinear(r, s);
  }

  lemma ByDOfSum(p: bv8, q: bv8, r: bv8, s: bv8)
    ensures ByD(Sum(p, q, r, s)) == Sum(ByD(p), ByD(q), ByD(r), ByD(s))
  {
    hide Xor, ByD;
    ByDIsLinear(Xor(p, q), Xor(r, s));
    ByDIsLinear(p, q);
    ByDIsLinear(r, s);
  }

  lemma ByEOfSum(p: bv8, q: bv8, r: bv8, s: bv8)
    ensures ByE(Sum(p, q, r, s)) == Sum(ByE(p), ByE(q), ByE(r), ByE(s))
  {
    hide Xor, ByE;
    ByEIsLinear(Xor(p, q), Xor(r, s));
    ByEIsLinear(p, q);
    ByEIsLinear(r, s);
  }

  // ----- the two matrices undo each other, one coefficient at a time

  lemma Undoes0(a: bv8)
    ensures Sum(ByE(By2(a)), ByB(a), ByD(a), By9(By3(a))) == a
  {
  }

  lemma Undoes1(a: bv8)
    ensures Sum(ByE(By3(a)), ByB(By2(a)), ByD(a), By9(a)) == 0
  {
  }

  lemma Undoes2(a: bv8)
    ensures Sum(ByE(a), ByB(By3(a)), ByD(By2(a)), By9(a)) == 0
  {
  }

  lemma Undoes3(a: bv8)
    ensures Sum(ByE(a), ByB(a), ByD(By3(a)), By9(By2(a))) == 0
  {
  }

  lemma Redoes0(a: bv8)
    ensures Sum(By2(ByE(a)), By3(By9(a)), ByD(a), ByB(a)) == a
  {
  }

  lemma Redoes1(a: bv8)
    ensures Sum(By2(ByB(a)), By3(ByE(a)), By9(a), ByD(a)) == 0
  {
  }

  lemma Redoes2(a: bv8)
    ensures Sum(By2(ByD(a)), By3(ByB(a)), ByE(a), By9(a)) == 0
  {
  }

  lemma Redoes3(a: bv8)
    ensures Sum(By2(By9(a)), By3(ByD(a)), ByB(a), ByE(a)) == 0
  {
  }

  /**
   * A row of the inverse matrix, applied to the column that the matrix makes of four bytes, gives the first of them
   * back.
   */
  lemma RowUndone(a: bv8, b: bv8, c: bv8, d: bv8)
    ensures Sum(ByE(Sum(By2(a), By3(b), c, d)), ByB(Sum(a, By2(b), By3(c), d)), ByD(Sum(a, b, By2(c), By3(d))),
                By9(Sum(By3(a), b, c, By2(d)))) == a
  {
    hide *;
    ByEOfSum(By2(a), By3(b), c, d);
    ByBOfSum(a, By2(b), By3(c), d);
    ByDOfSum(a, b, By2(c), By3(d));
    By9OfSum(By3(a), b, c, By2(d));
    Transposes(ByE(By2(a)), ByE(By3(b)), ByE(c), ByE(d), ByB(a), ByB(By2(b)), ByB(By3(c)), ByB(d),
               ByD(a), ByD(b), ByD(By2(c)), ByD(By3(d)), By9(By3(a)), By9(b), By9(c), By9(By2(d)));
    Undoes0(a);
    Undoes1(b);
    Undoes2(c);
    Undoes3(d);
    SumOfOne(a);
  }

  /** And the other way round. */
  lemma RowRedone(a: bv8, b: bv8, c: bv8, d: bv8)
    ensures Sum(By2(Sum(ByE(a), ByB(b), ByD(c), By9(d))), By3(Sum(By9(a), ByE(b), ByB(c), ByD(d))),
                Sum(ByD(a), By9(b), ByE(c), ByB(d)), Sum(ByB(a), ByD(b), By9(c), ByE(d))) == a
  {
    hide *;
    By2OfSum(ByE(a), ByB(b), ByD(c), By9(d));
    By3OfSum(By9(a), ByE(b), ByB(c), ByD(d));
    Transposes(By2(ByE(a)), By2(ByB(b)), By2(ByD(c)), By2(By9(d)), By3(By9(a)), By3(ByE(b)), By3(ByB(c)), By3(ByD(d)),
               ByD(a), By9(b), ByE(c), ByB(d), ByB(a), ByD(b), By9(c), ByE(d));
    Redoes0(a);
    Redoes1(b);
    Redoes2(c);
    Redoes3(d);
    SumOfOne(a);
  }

  // ----- the substitution boxes

  lemma SboxLow(b: bv8)
    requires b & 0x80 == 0
    ensures InvSbox(Sbox(b)) == b
  {
  }

  lemma SboxHigh(b: bv8)
    requires b & 0x80 != 0
    ensures InvSbox(Sbox(b)) == b
  {
  }

  lemma InvSboxLow(b: bv8)
    requires b & 0x80 == 0
    ensures Sbox(InvSbox(b)) == b
  {
  }

  lemma InvSboxHigh(b: bv8)
    requires b & 0x80 != 0
    ensures Sbox(InvSbox(b)) == b
  {
  }

  /** The affine transformation of section 5.1.1 of FIPS 197: each bit is the sum of five bits, and 63 is added. */
  function Affine(b: bv8): bv8 {
    b ^ Rotated(b, 1) ^ Rotated(b, 2) ^ Rotated(b, 3) ^ Rotated(b, 4) ^ 0x63
  }

  function Rotated(b: bv8, n: bv8): bv8
    requires n <= 8
  {
    (b << n) | (b >> (8 - n))
  }

  /** The transformation undone (section 5.3.2). */
  function Unaffine(b: bv8): bv8 {
    Rotated(b, 1) ^ Rotated(b, 3) ^ Rotated(b, 6) ^ 0x05
  }

  lemma AffineIsUndone(b: bv8)
    ensures Affine(Unaffine(b)) == b && Unaffine(Affine(b)) == b
  {
  }

  /** The multiplicative inverse, and 0 for 0. */
  predicate IsInverse(b: bv8, i: bv8) {
    if b == 0 then i == 0 else Times(b, i) == 1
  }

  lemma InverseIn0(b: bv8)
    requires b & 0xe0 == 0x00
    ensures IsInverse(b, Unaffine(Sbox(b)))
  {
  }

  lemma InverseIn1(b: bv8)
    requires b & 0xe0 == 0x20
    ensures IsInverse(b, Unaffine(Sbox(b)))
  {
  }

  lemma InverseIn2(b: bv8)
    requires b & 0xe0 == 0x40
    ensures IsInverse(b, Unaffine(Sbox(b)))
  {
  }

  lemma InverseIn3(b: bv8)
    requires b & 0xe0 == 0x60
    ensures IsInverse(b, Unaffine(Sbox(b)))
  {
  }

  lemma InverseIn4(b: bv8)
    requires b & 0xe0 == 0x80
    ensures IsInverse(b, Unaffine(Sbox(b)))
  {
  }

  lemma InverseIn5(b: bv8)
    requires b & 0xe0 == 0xa0
    ensures IsInverse(b, Unaffine(Sbox(b)))
  {
  }

  lemma InverseIn6(b: bv8)
    requires b & 0xe0 == 0xc0
    ensures IsInverse(b, Unaffine(Sbox(b)))
  {
  }

  lemma InverseIn7(b: bv8)
    requires b & 0xe0 == 0xe0
    ensures IsInverse(b, Unaffine(Sbox(b)))
  {
  }

  /**
   * Main result: the substitution box takes the multiplicative inverse in the field, 0 for 0, and then the affine
   * transformation.
   */
  lemma SboxIsAffineInverse(b: bv8) returns (i: bv8)
    ensures Sbox(b) == Affine(i) && if b == 0 then i == 0 else Times(b, i) == 1
  {
    hide Sbox, Unaffine, Times;
    i := Unaffine(Sbox(b));
    AffineIsUndone(Sbox(b));
    if b & 0xe0 == 0x00 {
      InverseIn0(b);
    } else if b & 0xe0 == 0x20 {
      InverseIn1(b);
    } else if b & 0xe0 == 0x40 {
      InverseIn2(b);
    } else if b & 0xe0 == 0x60 {
      InverseIn3(b);
    } else if b & 0xe0 == 0x80 {
      InverseIn4(b);
    } else if b & 0xe0 == 0xa0 {
      InverseIn5(b);
    } else if b & 0xe0 == 0xc0 {
      InverseIn6(b);
    } else {
      InverseIn7(b);
    }
  }

  /** The two boxes undo each other on all 256 bytes. */
  lemma SboxIsInverted(b: bv8)
    ensures InvSbox(Sbox(b)) == b && Sbox(InvSbox(b)) == b
  {
    hide Sbox, InvSbox;
    if b & 0x80 == 0 {
      SboxLow(b);
      InvSboxLow(b);
    } else {
      SboxHigh(b);
      InvSboxHigh(b);
    }
  }
}
