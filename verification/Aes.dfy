/** The block cipher: its steps in place on a 4 by 4 state, and decryption undoing encryption. */
module Aes {
  import opened AesTables
  import opened AesField

  /** A column of the state, from row 0 down. */
  datatype Column = Column(a: bv8, b: bv8, c: bv8, d: bv8)

  datatype Block = Block(c0: Column, c1: Column, c2: Column, c3: Column)

  // ----- the steps, as functions of the state

  function KeyByte(word: bv32, shift: nat): bv8
    requires shift < 32
  {
    ((word >> shift) & 0xff) as bv8
  }

  function KeyColumn(word: bv32): Column {
    Column(KeyByte(word, 24), KeyByte(word, 16), KeyByte(word, 8), KeyByte(word, 0))
  }

  function AddColumns(x: Column, k: Column): Column {
    Column(Xor(x.a, k.a), Xor(x.b, k.b), Xor(x.c, k.c), Xor(x.d, k.d))
  }

  function AddKey(x: Block, key: seq<bv32>, at: nat): Block
    requires at + 4 <= |key|
  {
    Block(AddColumns(x.c0, KeyColumn(key[at])), AddColumns(x.c1, KeyColumn(key[at + 1])),
          AddColumns(x.c2, KeyColumn(key[at + 2])), AddColumns(x.c3, KeyColumn(key[at + 3])))
  }

  function SubColumn(x: Column): Column {
    Column(Sbox(x.a), Sbox(x.b), Sbox(x.c), Sbox(x.d))
  }

  function InvSubColumn(x: Column): Column {
    Column(InvSbox(x.a), InvSbox(x.b), InvSbox(x.c), InvSbox(x.d))
  }

  function Sub(x: Block): Block {
    Block(SubColumn(x.c0), SubColumn(x.c1), SubColumn(x.c2), SubColumn(x.c3))
  }

  function InvSub(x: Block): Block {
    Block(InvSubColumn(x.c0), InvSubColumn(x.c1), InvSubColumn(x.c2), InvSubColumn(x.c3))
  }

  /** Row r moves left by r. */
  function Shift(x: Block): Block {
    Block(Column(x.c0.a, x.c1.b, x.c2.c, x.c3.d), Column(x.c1.a, x.c2.b, x.c3.c, x.c0.d),
          Column(x.c2.a, x.c3.b, x.c0.c, x.c1.d), Column(x.c3.a, x.c0.b, x.c1.c, x.c2.d))
  }

  /** Row r moves right by r. */
  function InvShift(x: Block): Block {
    Block(Column(x.c0.a, x.c3.b, x.c2.c, x.c1.d), Column(x.c1.a, x.c0.b, x.c3.c, x.c2.d),
          Column(x.c2.a, x.c1.b, x.c0.c, x.c3.d), Column(x.c3.a, x.c2.b, x.c1.c, x.c0.d))
  }

  function MixColumn(x: Column): Column {
    Column(Sum(GfMul2(x.a), GfMul3(x.b), x.c, x.d), Sum(x.a, GfMul2(x.b), GfMul3(x.c), x.d),
           Sum(x.a, x.b, GfMul2(x.c), GfMul3(x.d)), Sum(GfMul3(x.a), x.b, x.c, GfMul2(x.d)))
  }

  function InvMixColumn(x: Column): Column {
    Column(Sum(GfMulE(x.a), GfMulB(x.b), GfMulD(x.c), GfMul9(x.d)),
           Sum(GfMul9(x.a), GfMulE(x.b), GfMulB(x.c), GfMulD(x.d)),
           Sum(GfMulD(x.a), GfMul9(x.b), GfMulE(x.c), GfMulB(x.d)), Sum(GfMulB(x.a), GfMulD(x.b), GfMul9(x.c), GfMulE(x.d)))
  }

  function Mix(x: Block): Block {
    Block(MixColumn(x.c0), MixColumn(x.c1), MixColumn(x.c2), MixColumn(x.c3))
  }

  function InvMix(x: Block): Block {
    Block(InvMixColumn(x.c0), InvMixColumn(x.c1), InvMixColumn(x.c2), InvMixColumn(x.c3))
  }

  // ----- the steps byte by byte, as FIPS 197 gives them

  /** The byte in row i of a column. */
  function Byte(x: Column, i: nat): bv8
    requires i < 4
  {
    if i == 0 then x.a else if i == 1 then x.b else if i == 2 then x.c else x.d
  }

  function ColumnAt(x: Block, j: nat): Column
    requires j < 4
  {
    if j == 0 then x.c0 else if j == 1 then x.c1 else if j == 2 then x.c2 else x.c3
  }

  /** The byte in row i and column j. */
  function Cell(x: Block, i: nat, j: nat): bv8
    requires i < 4 && j < 4
  {
    Byte(ColumnAt(x, j), i)
  }

  /** Section 5.1.1: every byte is replaced by the affine image of its inverse in the field. */
  lemma SubstitutesInverses(x: Block, i: nat, j: nat) returns (v: bv8)
    requires i < 4 && j < 4
    ensures Cell(Sub(x), i, j) == Affine(v)
    ensures if Cell(x, i, j) == 0 then v == 0 else Times(Cell(x, i, j), v) == 1
  {
    hide Sbox, Affine, Times;
    v := SboxIsAffineInverse(Cell(x, i, j));
  }

  /** Section 5.1.2: what stands in row i comes from i columns further on, around the end. */
  lemma ShiftsRows(x: Block, i: nat, j: nat)
    requires i < 4 && j < 4
    ensures Cell(Shift(x), i, j) == Cell(x, i, (j + i) % 4)
  {
  }

  /** Section 5.1.3: a column is multiplied by the polynomial with the coefficients 03, 01, 01 and 02. */
  lemma MixesColumns(x: Block, i: nat, j: nat)
    requires i < 4 && j < 4
    ensures Cell(Mix(x), i, j) == Sum(Times(0x02, Cell(x, i, j)), Times(0x03, Cell(x, (i + 1) % 4, j)),
                                      Cell(x, (i + 2) % 4, j), Cell(x, (i + 3) % 4, j))
  {
    hide MixColumn, Mixed, Byte, Sum, Times;
    var c := ColumnAt(x, j);
    MixIsField(c);
    MixesColumn(c, i);
  }

  lemma MixesColumn(c: Column, i: nat)
    requires i < 4
    ensures Byte(Mixed(c), i) == Sum(Times(0x02, Byte(c, i)), Times(0x03, Byte(c, (i + 1) % 4)),
                                     Byte(c, (i + 2) % 4), Byte(c, (i + 3) % 4))
  {
    hide Times, By2, By3, Sum;
    MultiplesAreProducts(Byte(c, i));
    MultiplesAreProducts(Byte(c, (i + 1) % 4));
    SumRotates(c.a, By2(c.b), By3(c.c), c.d);
    SumRotates(c.a, c.b, By2(c.c), By3(c.d));
    SumRotates(c.b, By2(c.c), By3(c.d), c.a);
    SumRotates(By3(c.a), c.b, c.c, By2(c.d));
    SumRotates(c.b, c.c, By2(c.d), By3(c.a));
    SumRotates(c.c, By2(c.d), By3(c.a), c.b);
  }

  /** Section 5.1.4: word j of the round key is added to column j, its highest byte to row 0. */
  lemma AddsRoundKey(x: Block, key: seq<bv32>, at: nat, i: nat, j: nat)
    requires i < 4 && j < 4 && at + 4 <= |key|
    ensures Cell(AddKey(x, key, at), i, j) == Xor(Cell(x, i, j), KeyByte(key[at + j], 24 - 8 * i))
  {
    hide KeyByte, Xor;
  }

  /** The bytes of a word, highest first, make up the word. */
  lemma WordOfBytes(word: bv32)
    ensures word == ((KeyByte(word, 24) as bv32) << 24) | ((KeyByte(word, 16) as bv32) << 16)
                    | ((KeyByte(word, 8) as bv32) << 8) | (KeyByte(word, 0) as bv32)
  {
  }

  // ----- every step has an inverse

  lemma XorTwice(a: bv8, k: bv8)
    ensures Xor(Xor(a, k), k) == a
  {
  }

  lemma AddTwice(x: Column, k: Column)
    ensures AddColumns(AddColumns(x, k), k) == x
  {
    hide Xor;
    XorTwice(x.a, k.a);
    XorTwice(x.b, k.b);
    XorTwice(x.c, k.c);
    XorTwice(x.d, k.d);
  }

  /** Adding a round key is its own inverse. */
  lemma AddKeyTwice(x: Block, key: seq<bv32>, at: nat)
    requires at + 4 <= |key|
    ensures AddKey(AddKey(x, key, at), key, at) == x
  {
    hide AddColumns, KeyColumn;
    AddTwice(x.c0, KeyColumn(key[at]));
    AddTwice(x.c1, KeyColumn(key[at + 1]));
    AddTwice(x.c2, KeyColumn(key[at + 2]));
    AddTwice(x.c3, KeyColumn(key[at + 3]));
  }

  lemma SubColumnIsInverted(x: Column)
    ensures InvSubColumn(SubColumn(x)) == x && SubColumn(InvSubColumn(x)) == x
  {
    hide Sbox, InvSbox;
    SboxIsInverted(x.a);
    SboxIsInverted(x.b);
    SboxIsInverted(x.c);
    SboxIsInverted(x.d);
  }

  lemma SubIsInverted(x: Block)
    ensures InvSub(Sub(x)) == x && Sub(InvSub(x)) == x
  {
    hide SubColumn, InvSubColumn;
    SubColumnIsInverted(x.c0);
    SubColumnIsInverted(x.c1);
    SubColumnIsInverted(x.c2);
    SubColumnIsInverted(x.c3);
  }

  lemma ShiftIsInverted(x: Block)
    ensures InvShift(Shift(x)) == x && Shift(InvShift(x)) == x
  {
  }

  /** The product table is multiplication in the field. */
  lemma TableIsProduct(b: bv8)
    ensures GfMul2(b) == By2(b) && GfMul3(b) == By3(b) && GfMul9(b) == By9(b)
    ensures GfMulB(b) == ByB(b) && GfMulD(b) == ByD(b) && GfMulE(b) == ByE(b)
  {
    hide *;
    GfMul2IsProduct(b);
    GfMul3IsProduct(b);
    GfMul9IsProduct(b);
    GfMulBIsProduct(b);
    GfMulDIsProduct(b);
    GfMulEIsProduct(b);
  }

  /** The mixing step through the field, and each of its rows as the first row of a rotated column. */
  function Mixed(x: Column): Column {
    Column(Sum(By2(x.a), By3(x.b), x.c, x.d), Sum(x.a, By2(x.b), By3(x.c), x.d),
           Sum(x.a, x.b, By2(x.c), By3(x.d)), Sum(By3(x.a), x.b, x.c, By2(x.d)))
  }

  function Unmixed(x: Column): Column {
    Column(Sum(ByE(x.a), ByB(x.b), ByD(x.c), By9(x.d)), Sum(By9(x.a), ByE(x.b), ByB(x.c), ByD(x.d)),
           Sum(ByD(x.a), By9(x.b), ByE(x.c), ByB(x.d)), Sum(ByB(x.a), ByD(x.b), By9(x.c), ByE(x.d)))
  }

  lemma MixIsField(x: Column)
    ensures MixColumn(x) == Mixed(x) && InvMixColumn(x) == Unmixed(x)
  {
    hide GfMul2, GfMul3, GfMul9, GfMulB, GfMulD, GfMulE, By2, By3, By9, ByB, ByD, ByE, Sum;
    TableIsProduct(x.a);
    TableIsProduct(x.b);
    TableIsProduct(x.c);
    TableIsProduct(x.d);
  }

  function Rotated(x: Column): Column {
    Column(x.b, x.c, x.d, x.a)
  }

  lemma MixedRotates(x: Column)
    ensures Mixed(Rotated(x)) == Rotated(Mixed(x)) && Unmixed(Rotated(x)) == Rotated(Unmixed(x))
  {
    hide By2, By3, By9, ByB, ByD, ByE, Sum;
    SumRotates(x.a, By2(x.b), By3(x.c), x.d);
    SumRotates(x.a, x.b, By2(x.c), By3(x.d));
    SumRotates(By3(x.a), x.b, x.c, By2(x.d));
    SumRotates(By2(x.a), By3(x.b), x.c, x.d);
    SumRotates(By9(x.a), ByE(x.b), ByB(x.c), ByD(x.d));
    SumRotates(ByD(x.a), By9(x.b), ByE(x.c), ByB(x.d));
    SumRotates(ByB(x.a), ByD(x.b), By9(x.c), ByE(x.d));
    SumRotates(ByE(x.a), ByB(x.b), ByD(x.c), By9(x.d));
  }

  lemma FirstRowInverted(x: Column)
    ensures Unmixed(Mixed(x)).a == x.a && Mixed(Unmixed(x)).a == x.a
  {
    hide By2, By3, By9, ByB, ByD, ByE, Sum;
    RowUndone(x.a, x.b, x.c, x.d);
    RowRedone(x.a, x.b, x.c, x.d);
  }

  /** Multiplication by the inverse matrix undoes multiplication by the matrix, and the other way round. */
  lemma MixedIsInverted(x: Column)
    ensures Unmixed(Mixed(x)) == x && Mixed(Unmixed(x)) == x
  {
    hide Mixed, Unmixed;
    var y, z, w := Rotated(x), Rotated(Rotated(x)), Rotated(Rotated(Rotated(x)));
    FirstRowInverted(x);
    FirstRowInverted(y);
    FirstRowInverted(z);
    FirstRowInverted(w);
    MixedRotates(x);
    MixedRotates(y);
    MixedRotates(z);
    MixedRotates(Mixed(x));
    MixedRotates(Mixed(y));
    MixedRotates(Mixed(z));
    MixedRotates(Unmixed(x));
    MixedRotates(Unmixed(y));
    MixedRotates(Unmixed(z));
  }

  lemma MixColumnIsInverted(x: Column)
    ensures InvMixColumn(MixColumn(x)) == x && MixColumn(InvMixColumn(x)) == x
  {
    hide *;
    MixIsField(x);
    MixIsField(MixColumn(x));
    MixIsField(InvMixColumn(x));
    MixedIsInverted(x);
  }

  lemma MixIsInverted(x: Block)
    ensures InvMix(Mix(x)) == x && Mix(InvMix(x)) == x
  {
    hide MixColumn, InvMixColumn;
    MixColumnIsInverted(x.c0);
    MixColumnIsInverted(x.c1);
    MixColumnIsInverted(x.c2);
    MixColumnIsInverted(x.c3);
  }

  // ----- rounds

  function FullRound(x: Block, key: seq<bv32>, at: nat): Block
    requires at + 4 <= |key|
  {
    AddKey(Mix(Shift(Sub(x))), key, at)
  }

  function LastRound(x: Block, key: seq<bv32>, at: nat): Block
    requires at + 4 <= |key|
  {
    AddKey(Shift(Sub(x)), key, at)
  }

  function InvRound(x: Block, key: seq<bv32>, at: nat): Block
    requires at + 4 <= |key|
  {
    InvMix(AddKey(InvSub(InvShift(x)), key, at))
  }

  /** After the first key and n full rounds. */
  function Rounds(x: Block, key: seq<bv32>, n: nat): Block
    requires 4 * n + 4 <= |key|
  {
    if n == 0 then AddKey(x, key, 0) else FullRound(Rounds(x, key, n - 1), key, 4 * n)
  }

  /** Decryption of r rounds, back to before the inverse of round i + 1. */
  function Back(x: Block, key: seq<bv32>, r: nat, i: nat): Block
    requires i <= r && 4 * r + 4 <= |key|
    decreases r - i
  {
    if i == r then AddKey(x, key, 4 * r) else InvRound(Back(x, key, r, i + 1), key, 4 * i)
  }

  function EncryptedIn(x: Block, key: seq<bv32>, r: nat): Block
    requires r > 0 && 4 * r + 4 <= |key|
  {
    LastRound(Rounds(x, key, r - 1), key, 4 * r)
  }

  function DecryptedIn(x: Block, key: seq<bv32>, r: nat): Block
    requires r > 0 && 4 * r + 4 <= |key|
  {
    AddKey(InvSub(InvShift(Back(x, key, r, 1))), key, 0)
  }

  /** How many rounds encryption makes: the key sizes it knows are 128 and 192, and all others count as 256. */
  function EncryptRounds(keysize: int): nat {
    if keysize != 128 then if keysize != 192 then 14 else 12 else 10
  }

  /** How many rounds decryption makes: it goes by ranges of the key size. */
  function DecryptRounds(keysize: int): nat {
    if keysize > 128 then if keysize > 192 then 14 else 12 else 10
  }

  function Encrypted(x: Block, key: seq<bv32>, keysize: int): Block
    requires |key| >= 4 * EncryptRounds(keysize) + 4
  {
    EncryptedIn(x, key, EncryptRounds(keysize))
  }

  function Decrypted(x: Block, key: seq<bv32>, keysize: int): Block
    requires |key| >= 4 * DecryptRounds(keysize) + 4
  {
    DecryptedIn(x, key, DecryptRounds(keysize))
  }

  // ----- decryption undoes encryption

  lemma InvRoundUndoes(x: Block, key: seq<bv32>, at: nat)
    requires at + 4 <= |key|
    ensures InvRound(Shift(Sub(FullRound(x, key, at))), key, at) == Shift(Sub(x))
  {
    hide AddKey, Mix, InvMix, Shift, InvShift, Sub, InvSub;
    var y := FullRound(x, key, at);
    ShiftIsInverted(Sub(y));
    SubIsInverted(y);
    AddKeyTwice(Mix(Shift(Sub(x))), key, at);
    MixIsInverted(Shift(Sub(x)));
  }

  lemma {:induction false} BackRetraces(x: Block, key: seq<bv32>, r: nat, i: nat)
    requires 0 < i <= r && 4 * r + 4 <= |key|
    ensures Back(EncryptedIn(x, key, r), key, r, i) == Shift(Sub(Rounds(x, key, i - 1)))
    decreases r - i
  {
    hide AddKey, Shift, Sub, FullRound, InvRound;
    if i == r {
      AddKeyTwice(Shift(Sub(Rounds(x, key, r - 1))), key, 4 * r);
    } else {
      BackRetraces(x, key, r, i + 1);
      InvRoundUndoes(Rounds(x, key, i - 1), key, 4 * i);
    }
  }

  lemma DecryptUndoesEncrypt(x: Block, key: seq<bv32>, r: nat)
    requires r > 0 && 4 * r + 4 <= |key|
    ensures DecryptedIn(EncryptedIn(x, key, r), key, r) == x
  {
    hide AddKey, Shift, InvShift, Sub, InvSub, Back, EncryptedIn;
    BackRetraces(x, key, r, 1);
    ShiftIsInverted(Sub(AddKey(x, key, 0)));
    SubIsInverted(AddKey(x, key, 0));
    AddKeyTwice(x, key, 0);
  }

  // ----- which key sizes are treated alike

  /** Decryption in r rounds reads no key word from 4 * r + 4 on. */
  lemma {:induction false} BackIgnoresRest(x: Block, key: seq<bv32>, key': seq<bv32>, r: nat, i: nat)
    requires i <= r && 4 * r + 4 <= |key| && |key| == |key'| && key[..4 * r + 4] == key'[..4 * r + 4]
    ensures Back(x, key, r, i) == Back(x, key', r, i)
    decreases r - i
  {
    hide AddColumns, KeyColumn, InvMix, InvSub, InvShift;
    assert forall k :: 0 <= k < 4 * r + 4 ==> key[k] == key[..4 * r + 4][k] == key'[k];
    if i < r { BackIgnoresRest(x, key, key', r, i + 1); }
  }

  lemma {:induction false} RoundsIgnoreRest(x: Block, key: seq<bv32>, key': seq<bv32>, n: nat)
    requires 4 * n + 4 <= |key| && |key| == |key'| && key[..4 * n + 4] == key'[..4 * n + 4]
    ensures Rounds(x, key, n) == Rounds(x, key', n)
  {
    hide AddColumns, KeyColumn, Mix, Sub, Shift;
    assert forall k :: 0 <= k < 4 * n + 4 ==> key[k] == key[..4 * n + 4][k] == key'[k];
    if n > 0 {
      assert key[..4 * (n - 1) + 4] == key[..4 * n + 4][..4 * (n - 1) + 4] == key'[..4 * (n - 1) + 4];
      RoundsIgnoreRest(x, key, key', n - 1);
    }
  }

  /** Changing the first word of the last round key changes the ciphertext. */
  lemma OtherWordOtherBlock(x: Block, key: seq<bv32>, r: nat) returns (key': seq<bv32>)
    requires r > 0 && 4 * r + 4 <= |key|
    ensures |key'| == |key| && key'[..4 * r] == key[..4 * r] && EncryptedIn(x, key', r) != EncryptedIn(x, key, r)
  {
    hide Sbox, GfMul2, GfMul3, Sum, Xor;
    key' := key[4 * r := key[4 * r] ^ 1];
    assert 4 * (r - 1) + 4 == 4 * r;
    RoundsIgnoreRest(x, key, key', r - 1);
    var y := Shift(Sub(Rounds(x, key, r - 1)));
    OtherByte(y.c0.d, key[4 * r]);
  }

  lemma OtherByte(b: bv8, word: bv32)
    ensures Xor(b, KeyByte(word ^ 1, 0)) != Xor(b, KeyByte(word, 0))
  {
  }

  /** Decryption maps different ciphertexts to different blocks. */
  lemma {:induction false} BackIsInjective(x: Block, y: Block, key: seq<bv32>, r: nat, i: nat)
    requires i <= r && 4 * r + 4 <= |key| && Back(x, key, r, i) == Back(y, key, r, i)
    ensures x == y
    decreases r - i
  {
    hide AddKey, InvMix, InvSub, InvShift, Mix, Sub, Shift;
    if i == r {
      AddKeyTwice(x, key, 4 * r);
      AddKeyTwice(y, key, 4 * r);
    } else {
      InvRoundIsInjective(Back(x, key, r, i + 1), Back(y, key, r, i + 1), key, 4 * i);
      BackIsInjective(x, y, key, r, i + 1);
    }
  }

  lemma InvRoundIsInjective(x: Block, y: Block, key: seq<bv32>, at: nat)
    requires at + 4 <= |key| && InvRound(x, key, at) == InvRound(y, key, at)
    ensures x == y
  {
    hide AddKey, InvMix, InvSub, InvShift, Mix, Sub, Shift;
    MixIsInverted(AddKey(InvSub(InvShift(x)), key, at));
    MixIsInverted(AddKey(InvSub(InvShift(y)), key, at));
    KeyedIsInjective(x, y, key, at);
  }

  lemma KeyedIsInjective(x: Block, y: Block, key: seq<bv32>, at: nat)
    requires at + 4 <= |key| && AddKey(InvSub(InvShift(x)), key, at) == AddKey(InvSub(InvShift(y)), key, at)
    ensures x == y
  {
    hide AddKey, InvSub, InvShift, Sub, Shift;
    AddKeyTwice(InvSub(InvShift(x)), key, at);
    AddKeyTwice(InvSub(InvShift(y)), key, at);
    SubIsInverted(InvShift(x));
    SubIsInverted(InvShift(y));
    ShiftIsInverted(x);
    ShiftIsInverted(y);
  }

  /** With fewer rounds back than forth, some key schedule breaks the round trip of every block. */
  lemma FewerRoundsFail(x: Block, key: seq<bv32>, r: nat, r': nat) returns (bad: seq<bv32>)
    requires 0 < r' < r && 4 * r + 4 <= |key|
    ensures |bad| == |key| && DecryptedIn(EncryptedIn(x, bad, r), bad, r') != x
  {
    hide AddKey, InvMix, InvSub, InvShift, Mix, Sub, Shift, Back, EncryptedIn;
    var other := OtherWordOtherBlock(x, key, r);
    var e, e' := EncryptedIn(x, key, r), EncryptedIn(x, other, r);
    assert key[..4 * r' + 4] == key[..4 * r][..4 * r' + 4] == other[..4 * r' + 4];
    BackIgnoresRest(e', key, other, r', 1);
    if DecryptedIn(e, key, r') == x && DecryptedIn(e', other, r') == x {
      SameFirstWords(InvSub(InvShift(Back(e', key, r', 1))), key, other, r');
      KeyedIsInjective(Back(e, key, r', 1), Back(e', key, r', 1), key, 0);
      BackIsInjective(e, e', key, r', 1);
    }
    bad := if DecryptedIn(e, key, r') == x then other else key;
  }

  lemma SameFirstWords(x: Block, key: seq<bv32>, key': seq<bv32>, r: nat)
    requires 4 * r + 4 <= |key| && |key| == |key'| && key[..4 * r + 4] == key'[..4 * r + 4]
    ensures AddKey(x, key, 0) == AddKey(x, key', 0)
  {
    hide AddColumns, KeyColumn;
    assert forall k :: 0 <= k < 4 * r + 4 ==> key[k] == key[..4 * r + 4][k] == key'[k];
  }

  ghost predicate RoundTrips(keysize: int) {
    forall x: Block, key: seq<bv32> :: |key| == 60 ==> Decrypted(Encrypted(x, key, keysize), key, keysize) == x
  }

  /**
   * Main result: decryption undoes encryption, for every block and every word sequence as key schedule, exactly for the
   * key sizes 128, 192 and everything above 192; for any other key size the two make different numbers of rounds.
   */
  lemma DecryptionUndoesEncryption(keysize: int)
    ensures RoundTrips(keysize) <==> keysize == 128 || keysize >= 192
  {
    hide EncryptedIn, DecryptedIn;
    if EncryptRounds(keysize) == DecryptRounds(keysize) {
      forall x: Block, key: seq<bv32> | |key| == 60 ensures Decrypted(Encrypted(x, key, keysize), key, keysize) == x {
        DecryptUndoesEncrypt(x, key, EncryptRounds(keysize));
      }
    } else {
      var zero := Column(0, 0, 0, 0);
      var x := Block(zero, zero, zero, zero);
      var bad := FewerRoundsFail(x, seq(60, _ => 0), EncryptRounds(keysize), DecryptRounds(keysize));
      assert Decrypted(Encrypted(x, bad, keysize), bad, keysize) != x;
    }
  }
}
