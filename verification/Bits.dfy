/** Border words: one bit per border router, set when the router cannot be crossed there. */
module Bits {

  function Pow2(n: nat): nat {
    if n == 0 then 1 else 2 * Pow2(n - 1)
  }

  /** The word with the low n bits set. */
  function AllOnes(n: nat): nat {
    if n == 0 then 0 else 2 * AllOnes(n - 1) + 1
  }

  predicate Bit(word: nat, i: nat) {
    if i == 0 then word % 2 == 1 else Bit(word / 2, i - 1)
  }

  function Or(a: nat, b: nat): nat {
    if a == 0 then b else 2 * Or(a / 2, b / 2) + if a % 2 == 1 || b % 2 == 1 then 1 else 0
  }

  lemma {:induction false} ZeroBits(i: nat)
    ensures !Bit(0, i)
  {
    if i > 0 { ZeroBits(i - 1); }
  }

  lemma {:induction false} BitOfOr(a: nat, b: nat, i: nat)
    ensures Bit(Or(a, b), i) <==> Bit(a, i) || Bit(b, i)
  {
    if a == 0 {
      ZeroBits(i);
    } else if i > 0 {
      BitOfOr(a / 2, b / 2, i - 1);
    }
  }

  lemma {:induction false} BitOfPow2(n: nat, i: nat)
    ensures Bit(Pow2(n), i) <==> i == n
  {
    if n == 0 {
      if i > 0 { ZeroBits(i - 1); }
    } else if i > 0 {
      BitOfPow2(n - 1, i - 1);
    }
  }

  lemma {:induction false} OrIsBounded(a: nat, b: nat, n: nat)
    requires a <= AllOnes(n) && b <= AllOnes(n)
    ensures Or(a, b) <= AllOnes(n)
  {
    if a > 0 { OrIsBounded(a / 2, b / 2, n - 1); }
  }

  lemma {:induction false} Pow2IsBounded(i: nat, n: nat)
    requires i < n
    ensures Pow2(i) <= AllOnes(n)
  {
    if i > 0 { Pow2IsBounded(i - 1, n - 1); }
  }

  ghost predicate HasFreeBit(word: nat, n: nat) {
    exists i: nat :: i < n && !Bit(word, i)
  }

  /** A word of n bits is below the largest one exactly when one of its bits is clear. */
  lemma {:induction false} FreeBitExists(word: nat, n: nat)
    requires word <= AllOnes(n)
    ensures word < AllOnes(n) <==> HasFreeBit(word, n)
  {
    if n > 0 {
      FreeBitExists(word / 2, n - 1);
      if i: nat :| i < n - 1 && !Bit(word / 2, i) { assert !Bit(word, i + 1); }
      if i: nat :| i < n && !Bit(word, i) { assert i > 0 ==> !Bit(word / 2, i - 1); }
      if word % 2 == 0 { assert !Bit(word, 0); }
    }
  }
}
