/** The block cipher as a program: every step rewrites the 4 by 4 state in place. */
module AesCipher {
  import opened AesTables
  import opened AesField
  import opened Aes

  predicate IsState(state: array2<bv8>) {
    state.Length0 == 4 && state.Length1 == 4
  }

  function ColumnOf(state: array2<bv8>, j: nat): Column
    requires IsState(state) && j < 4
    reads state
  {
    Column(state[0, j], state[1, j], state[2, j], state[3, j])
  }

  function Of(state: array2<bv8>): Block
    requires IsState(state)
    reads state
  {
    Block(ColumnOf(state, 0), ColumnOf(state, 1), ColumnOf(state, 2), ColumnOf(state, 3))
  }

  /** One column of the key addition, with the four bytes of its key word. */
  method AddKeyColumn(state: array2<bv8>, j: nat, word: bv32)
    requires IsState(state) && j < 4
    modifies state
    ensures ColumnOf(state, j) == AddColumns(old(ColumnOf(state, j)), KeyColumn(word))
    ensures forall k: nat :: k < 4 && k != j ==> ColumnOf(state, k) == old(ColumnOf(state, k))
  {
    hide KeyByte, Xor;
    state[0, j] := Xor(state[0, j], KeyByte(word, 24));
    state[1, j] := Xor(state[1, j], KeyByte(word, 16));
    state[2, j] := Xor(state[2, j], KeyByte(word, 8));
    state[3, j] := Xor(state[3, j], KeyByte(word, 0));
  }

  method AddRoundKey(state: array2<bv8>, key: seq<bv32>, at: nat)
    requires IsState(state) && at + 4 <= |key|
    modifies state
    ensures Of(state) == AddKey(old(Of(state)), key, at)
  {
    hide AddColumns, KeyColumn, ColumnOf;
    AddKeyColumn(state, 0, key[at]);
    AddKeyColumn(state, 1, key[at + 1]);
    AddKeyColumn(state, 2, key[at + 2]);
    AddKeyColumn(state, 3, key[at + 3]);
  }

  method SubOneColumn(state: array2<bv8>, j: nat)
    requires IsState(state) && j < 4
    modifies state
    ensures ColumnOf(state, j) == SubColumn(old(ColumnOf(state, j)))
    ensures forall k: nat :: k < 4 && k != j ==> ColumnOf(state, k) == old(ColumnOf(state, k))
  {
    hide Sbox;
    state[0, j] := Sbox(state[0, j]);
    state[1, j] := Sbox(state[1, j]);
    state[2, j] := Sbox(state[2, j]);
    state[3, j] := Sbox(state[3, j]);
  }

  method SubBytes(state: array2<bv8>)
    requires IsState(state)
    modifies state
    ensures Of(state) == Sub(old(Of(state)))
  {
    hide SubColumn, ColumnOf;
    SubOneColumn(state, 0);
    SubOneColumn(state, 1);
    SubOneColumn(state, 2);
    SubOneColumn(state, 3);
  }

  method InvSubOneColumn(state: array2<bv8>, j: nat)
    requires IsState(state) && j < 4
    modifies state
    ensures ColumnOf(state, j) == InvSubColumn(old(ColumnOf(state, j)))
    ensures forall k: nat :: k < 4 && k != j ==> ColumnOf(state, k) == old(ColumnOf(state, k))
  {
    hide InvSbox;
    state[0, j] := InvSbox(state[0, j]);
    state[1, j] := InvSbox(state[1, j]);
    state[2, j] := InvSbox(state[2, j]);
    state[3, j] := InvSbox(state[3, j]);
  }

  method InvSubBytes(state: array2<bv8>)
    requires IsState(state)
    modifies state
    ensures Of(state) == InvSub(old(Of(state)))
  {
    hide InvSubColumn, ColumnOf;
    InvSubOneColumn(state, 0);
    InvSubOneColumn(state, 1);
    InvSubOneColumn(state, 2);
    InvSubOneColumn(state, 3);
  }

  /** A row of the state, from column 0 on. */
  datatype Row = Row(x0: bv8, x1: bv8, x2: bv8, x3: bv8)

  function RowOf(state: array2<bv8>, i: nat): Row
    requires IsState(state) && i < 4
    reads state
  {
    Row(state[i, 0], state[i, 1], state[i, 2], state[i, 3])
  }

  lemma OfRows(state: array2<bv8>, r0: Row, r1: Row, r2: Row, r3: Row)
    requires IsState(state) && RowOf(state, 0) == r0 && RowOf(state, 1) == r1 && RowOf(state, 2) == r2
    requires RowOf(state, 3) == r3
    ensures Of(state) == Block(Column(r0.x0, r1.x0, r2.x0, r3.x0), Column(r0.x1, r1.x1, r2.x1, r3.x1),
                               Column(r0.x2, r1.x2, r2.x2, r3.x2), Column(r0.x3, r1.x3, r2.x3, r3.x3))
  {
  }

  method RotateLeft(state: array2<bv8>, i: nat)
    requires IsState(state) && i < 4
    modifies state
    ensures var r := old(RowOf(state, i)); RowOf(state, i) == Row(r.x1, r.x2, r.x3, r.x0)
    ensures forall k: nat :: k < 4 && k != i ==> RowOf(state, k) == old(RowOf(state, k))
  {
    var t := state[i, 0];
    state[i, 0] := state[i, 1];
    state[i, 1] := state[i, 2];
    state[i, 2] := state[i, 3];
    state[i, 3] := t;
  }

  method RotateRight(state: array2<bv8>, i: nat)
    requires IsState(state) && i < 4
    modifies state
    ensures var r := old(RowOf(state, i)); RowOf(state, i) == Row(r.x3, r.x0, r.x1, r.x2)
    ensures forall k: nat :: k < 4 && k != i ==> RowOf(state, k) == old(RowOf(state, k))
  {
    var t := state[i, 3];
    state[i, 3] := state[i, 2];
    state[i, 2] := state[i, 1];
    state[i, 1] := state[i, 0];
    state[i, 0] := t;
  }

  method RotateHalf(state: array2<bv8>, i: nat)
    requires IsState(state) && i < 4
    modifies state
    ensures var r := old(RowOf(state, i)); RowOf(state, i) == Row(r.x2, r.x3, r.x0, r.x1)
    ensures forall k: nat :: k < 4 && k != i ==> RowOf(state, k) == old(RowOf(state, k))
  {
    var t := state[i, 0];
    state[i, 0] := state[i, 2];
    state[i, 2] := t;
    t := state[i, 1];
    state[i, 1] := state[i, 3];
    state[i, 3] := t;
  }

  method ShiftRows(state: array2<bv8>)
    requires IsState(state)
    modifies state
    ensures Of(state) == Shift(old(Of(state)))
  {
    hide Of, RowOf, ColumnOf;
    ghost var r0, r1, r2, r3 := RowOf(state, 0), RowOf(state, 1), RowOf(state, 2), RowOf(state, 3);
    OfRows(state, r0, r1, r2, r3);
    RotateLeft(state, 1);
    RotateHalf(state, 2);
    RotateRight(state, 3);
    OfRows(state, r0, Row(r1.x1, r1.x2, r1.x3, r1.x0), Row(r2.x2, r2.x3, r2.x0, r2.x1),
           Row(r3.x3, r3.x0, r3.x1, r3.x2));
  }

  method InvShiftRows(state: array2<bv8>)
    requires IsState(state)
    modifies state
    ensures Of(state) == InvShift(old(Of(state)))
  {
    hide Of, RowOf, ColumnOf;
    ghost var r0, r1, r2, r3 := RowOf(state, 0), RowOf(state, 1), RowOf(state, 2), RowOf(state, 3);
    OfRows(state, r0, r1, r2, r3);
    RotateRight(state, 1);
    RotateHalf(state, 2);
    RotateLeft(state, 3);
    OfRows(state, r0, Row(r1.x3, r1.x0, r1.x1, r1.x2), Row(r2.x2, r2.x3, r2.x0, r2.x1),
           Row(r3.x1, r3.x2, r3.x3, r3.x0));
  }

  lemma SumInTurn(p: bv8, q: bv8, r: bv8, s: bv8)
    ensures Xor(Xor(Xor(p, q), r), s) == Sum(p, q, r, s)
  {
    hide Xor;
    XorIsAssociative(Xor(p, q), r, s);
  }

  /** One column of the mixing step, which keeps a copy of the column it overwrites. */
  method MixOneColumn(state: array2<bv8>, j: nat)
    requires IsState(state) && j < 4
    modifies state
    ensures ColumnOf(state, j) == MixColumn(old(ColumnOf(state, j)))
    ensures forall k: nat :: k < 4 && k != j ==> ColumnOf(state, k) == old(ColumnOf(state, k))
  {
    hide GfMul2, GfMul3, Xor, Sum;
    var c0, c1, c2, c3 := state[0, j], state[1, j], state[2, j], state[3, j];
    state[0, j] := Xor(Xor(Xor(GfMul2(c0), GfMul3(c1)), c2), c3);
    state[1, j] := Xor(Xor(Xor(c0, GfMul2(c1)), GfMul3(c2)), c3);
    state[2, j] := Xor(Xor(Xor(c0, c1), GfMul2(c2)), GfMul3(c3));
    state[3, j] := Xor(Xor(Xor(GfMul3(c0), c1), c2), GfMul2(c3));
    SumInTurn(GfMul2(c0), GfMul3(c1), c2, c3);
    SumInTurn(c0, GfMul2(c1), GfMul3(c2), c3);
    SumInTurn(c0, c1, GfMul2(c2), GfMul3(c3));
    SumInTurn(GfMul3(c0), c1, c2, GfMul2(c3));
  }

  method InvMixOneColumn(state: array2<bv8>, j: nat)
    requires IsState(state) && j < 4
    modifies state
    ensures ColumnOf(state, j) == InvMixColumn(old(ColumnOf(state, j)))
    ensures forall k: nat :: k < 4 && k != j ==> ColumnOf(state, k) == old(ColumnOf(state, k))
  {
    hide GfMul9, GfMulB, GfMulD, GfMulE, Xor, Sum;
    var c0, c1, c2, c3 := state[0, j], state[1, j], state[2, j], state[3, j];
    state[0, j] := Xor(Xor(Xor(GfMulE(c0), GfMulB(c1)), GfMulD(c2)), GfMul9(c3));
    state[1, j] := Xor(Xor(Xor(GfMul9(c0), GfMulE(c1)), GfMulB(c2)), GfMulD(c3));
    state[2, j] := Xor(Xor(Xor(GfMulD(c0), GfMul9(c1)), GfMulE(c2)), GfMulB(c3));
    state[3, j] := Xor(Xor(Xor(GfMulB(c0), GfMulD(c1)), GfMul9(c2)), GfMulE(c3));
    SumInTurn(GfMulE(c0), GfMulB(c1), GfMulD(c2), GfMul9(c3));
    SumInTurn(GfMul9(c0), GfMulE(c1), GfMulB(c2), GfMulD(c3));
    SumInTurn(GfMulD(c0), GfMul9(c1), GfMulE(c2), GfMulB(c3));
    SumInTurn(GfMulB(c0), GfMulD(c1), GfMul9(c2), GfMulE(c3));
  }

  method MixColumns(state: array2<bv8>)
    requires IsState(state)
    modifies state
    ensures Of(state) == Mix(old(Of(state)))
  {
    hide MixColumn, ColumnOf;
    MixOneColumn(state, 0);
    MixOneColumn(state, 1);
    MixOneColumn(state, 2);
    MixOneColumn(state, 3);
  }

  method InvMixColumns(state: array2<bv8>)
    requires IsState(state)
    modifies state
    ensures Of(state) == InvMix(old(Of(state)))
  {
    hide InvMixColumn, ColumnOf;
    InvMixOneColumn(state, 0);
    InvMixOneColumn(state, 1);
    InvMixOneColumn(state, 2);
    InvMixOneColumn(state, 3);
  }

  method EncryptRound(state: array2<bv8>, key: seq<bv32>, at: nat)
    requires IsState(state) && at + 4 <= |key|
    modifies state
    ensures Of(state) == FullRound(old(Of(state)), key, at)
  {
    hide AddKey, Mix, Shift, Sub;
    SubBytes(state);
    ShiftRows(state);
    MixColumns(state);
    AddRoundKey(state, key, at);
  }

  method EncryptLastRound(state: array2<bv8>, key: seq<bv32>, at: nat)
    requires IsState(state) && at + 4 <= |key|
    modifies state
    ensures Of(state) == LastRound(old(Of(state)), key, at)
  {
    hide AddKey, Shift, Sub;
    SubBytes(state);
    ShiftRows(state);
    AddRoundKey(state, key, at);
  }

  method DecryptRound(state: array2<bv8>, key: seq<bv32>, at: nat)
    requires IsState(state) && at + 4 <= |key|
    modifies state
    ensures Of(state) == InvRound(old(Of(state)), key, at)
  {
    hide AddKey, InvMix, InvShift, InvSub;
    InvShiftRows(state);
    InvSubBytes(state);
    AddRoundKey(state, key, at);
    InvMixColumns(state);
  }

  /** Sixteen bytes fill the state column by column. */
  function BlockOf(bytes: seq<bv8>): Block
    requires |bytes| == 16
  {
    Block(Column(bytes[0], bytes[1], bytes[2], bytes[3]), Column(bytes[4], bytes[5], bytes[6], bytes[7]),
          Column(bytes[8], bytes[9], bytes[10], bytes[11]), Column(bytes[12], bytes[13], bytes[14], bytes[15]))
  }

  function BytesOf(x: Block): (bytes: seq<bv8>)
    ensures |bytes| == 16 && BlockOf(bytes) == x
  {
    ColumnBytes(x.c0) + ColumnBytes(x.c1) + ColumnBytes(x.c2) + ColumnBytes(x.c3)
  }

  function ColumnBytes(x: Column): seq<bv8> {
    [x.a, x.b, x.c, x.d]
  }

  lemma BytesOfBlock(bytes: seq<bv8>)
    requires |bytes| == 16
    ensures BytesOf(BlockOf(bytes)) == bytes
  {
  }

  method LoadColumn(state: array2<bv8>, j: nat, a: bv8, b: bv8, c: bv8, d: bv8)
    requires IsState(state) && j < 4
    modifies state
    ensures ColumnOf(state, j) == Column(a, b, c, d)
    ensures forall k: nat :: k < 4 && k != j ==> ColumnOf(state, k) == old(ColumnOf(state, k))
  {
    state[0, j] := a;
    state[1, j] := b;
    state[2, j] := c;
    state[3, j] := d;
  }

  method Load(input: seq<bv8>) returns (state: array2<bv8>)
    requires |input| == 16
    ensures fresh(state) && IsState(state) && Of(state) == BlockOf(input)
  {
    hide ColumnOf;
    state := new bv8[4, 4];
    LoadColumn(state, 0, input[0], input[1], input[2], input[3]);
    LoadColumn(state, 1, input[4], input[5], input[6], input[7]);
    LoadColumn(state, 2, input[8], input[9], input[10], input[11]);
    LoadColumn(state, 3, input[12], input[13], input[14], input[15]);
  }

  method Store(state: array2<bv8>) returns (output: seq<bv8>)
    requires IsState(state)
    ensures output == BytesOf(Of(state))
  {
    var column0 := [state[0, 0], state[1, 0], state[2, 0], state[3, 0]];
    var column1 := [state[0, 1], state[1, 1], state[2, 1], state[3, 1]];
    var column2 := [state[0, 2], state[1, 2], state[2, 2], state[3, 2]];
    var column3 := [state[0, 3], state[1, 3], state[2, 3], state[3, 3]];
    assert column0 == ColumnBytes(ColumnOf(state, 0)) && column1 == ColumnBytes(ColumnOf(state, 1));
    assert column2 == ColumnBytes(ColumnOf(state, 2)) && column3 == ColumnBytes(ColumnOf(state, 3));
    output := column0 + column1 + column2 + column3;
  }

  /** The block with the first key added and nine full rounds, which every key size shares. */
  method FirstRounds(state: array2<bv8>, key: seq<bv32>)
    requires IsState(state) && |key| >= 40
    modifies state
    ensures Of(state) == Rounds(old(Of(state)), key, 9)
  {
    hide Rounds, AddKey, FullRound, Of;
    ghost var x := Of(state);
    RoundsStart(x, key);
    AddRoundKey(state, key, 0);
    EncryptRound(state, key, 4);
    RoundsOnce(x, key, 1);
    EncryptRound(state, key, 8);
    RoundsOnce(x, key, 2);
    EncryptRound(state, key, 12);
    RoundsOnce(x, key, 3);
    EncryptRound(state, key, 16);
    RoundsOnce(x, key, 4);
    EncryptRound(state, key, 20);
    RoundsOnce(x, key, 5);
    EncryptRound(state, key, 24);
    RoundsOnce(x, key, 6);
    EncryptRound(state, key, 28);
    RoundsOnce(x, key, 7);
    EncryptRound(state, key, 32);
    RoundsOnce(x, key, 8);
    EncryptRound(state, key, 36);
    RoundsOnce(x, key, 9);
  }

  lemma RoundsStart(x: Block, key: seq<bv32>)
    requires |key| >= 4
    ensures Rounds(x, key, 0) == AddKey(x, key, 0)
  {
  }

  lemma RoundsOnce(x: Block, key: seq<bv32>, n: nat)
    requires 0 < n && 4 * n + 4 <= |key|
    ensures Rounds(x, key, n) == FullRound(Rounds(x, key, n - 1), key, 4 * n)
  {
  }

  /** aes_encrypt. */
  method Encrypt(input: seq<bv8>, key: seq<bv32>, keysize: int) returns (output: seq<bv8>)
    requires |input| == 16 && |key| >= 4 * EncryptRounds(keysize) + 4
    ensures output == BytesOf(Encrypted(BlockOf(input), key, keysize))
  {
    hide Rounds, AddKey, FullRound, LastRound, BlockOf, BytesOf, Of;
    var state := Load(input);
    ghost var x := BlockOf(input);
    FirstRounds(state, key);
    if keysize != 128 {
      EncryptRound(state, key, 40);
      RoundsOnce(x, key, 10);
      EncryptRound(state, key, 44);
      RoundsOnce(x, key, 11);
      if keysize != 192 {
        EncryptRound(state, key, 48);
        RoundsOnce(x, key, 12);
        EncryptRound(state, key, 52);
        RoundsOnce(x, key, 13);
        EncryptLastRound(state, key, 56);
      } else {
        EncryptLastRound(state, key, 48);
      }
    } else {
      EncryptLastRound(state, key, 40);
    }
    output := Store(state);
  }

  /** The inverses of the nine rounds that every key size shares. */
  method LastInvRounds(state: array2<bv8>, key: seq<bv32>, ghost x: Block, ghost r: nat)
    requires IsState(state) && 10 <= r && 4 * r + 4 <= |key| && Of(state) == Back(x, key, r, 10)
    modifies state
    ensures Of(state) == Back(x, key, r, 1)
  {
    hide Back, AddKey, InvRound, Of;
    DecryptRound(state, key, 36);
    BackOnce(x, key, r, 9);
    DecryptRound(state, key, 32);
    BackOnce(x, key, r, 8);
    DecryptRound(state, key, 28);
    BackOnce(x, key, r, 7);
    DecryptRound(state, key, 24);
    BackOnce(x, key, r, 6);
    DecryptRound(state, key, 20);
    BackOnce(x, key, r, 5);
    DecryptRound(state, key, 16);
    BackOnce(x, key, r, 4);
    DecryptRound(state, key, 12);
    BackOnce(x, key, r, 3);
    DecryptRound(state, key, 8);
    BackOnce(x, key, r, 2);
    DecryptRound(state, key, 4);
    BackOnce(x, key, r, 1);
  }

  lemma BackStart(x: Block, key: seq<bv32>, r: nat)
    requires 4 * r + 4 <= |key|
    ensures Back(x, key, r, r) == AddKey(x, key, 4 * r)
  {
  }

  lemma BackOnce(x: Block, key: seq<bv32>, r: nat, i: nat)
    requires i < r && 4 * r + 4 <= |key|
    ensures Back(x, key, r, i) == InvRound(Back(x, key, r, i + 1), key, 4 * i)
  {
  }

  /** aes_decrypt. */
  method Decrypt(input: seq<bv8>, key: seq<bv32>, keysize: int) returns (output: seq<bv8>)
    requires |input| == 16 && |key| >= 4 * DecryptRounds(keysize) + 4
    ensures output == BytesOf(Decrypted(BlockOf(input), key, keysize))
  {
    hide Back, AddKey, InvRound, InvShift, InvSub, BlockOf, BytesOf, Of;
    var state := Load(input);
    ghost var x, r := BlockOf(input), DecryptRounds(keysize);
    BackStart(x, key, r);
    if keysize > 128 {
      if keysize > 192 {
        AddRoundKey(state, key, 56);
        DecryptRound(state, key, 52);
        BackOnce(x, key, r, 13);
        DecryptRound(state, key, 48);
        BackOnce(x, key, r, 12);
      } else {
        AddRoundKey(state, key, 48);
      }
      DecryptRound(state, key, 44);
      BackOnce(x, key, r, 11);
      DecryptRound(state, key, 40);
      BackOnce(x, key, r, 10);
    } else {
      AddRoundKey(state, key, 40);
    }
    LastInvRounds(state, key, x, r);
    InvShiftRows(state);
    InvSubBytes(state);
    AddRoundKey(state, key, 0);
    output := Store(state);
  }

  /**
   * Main result: for the three key sizes the program decrypts what it has encrypted, whatever the key schedule holds.
   */
  method RoundTrip(input: seq<bv8>, key: seq<bv32>, keysize: int) returns (cipher: seq<bv8>, output: seq<bv8>)
    requires |input| == 16 && (keysize == 128 || keysize >= 192) && |key| >= 4 * EncryptRounds(keysize) + 4
    ensures cipher == BytesOf(Encrypted(BlockOf(input), key, keysize)) && output == input
  {
    hide EncryptedIn, DecryptedIn;
    cipher := Encrypt(input, key, keysize);
    output := Decrypt(cipher, key, keysize);
    DecryptUndoesEncrypt(BlockOf(input), key, EncryptRounds(keysize));
    BytesOfBlock(input);
  }
}
