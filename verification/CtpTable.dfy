/** The communicating task pairs a processor serves over circuit-switched subnets. */
module CtpTable {
  import opened Basics

  datatype Op = Send | Receive | NoOp

  /** One slot.  A slot without a subnet is free. */
  datatype Ctp = Ctp(producer: int, consumer: int, op: Op, subnet: int, enabled: bool)

  predicate IsFree(c: Ctp) {
    c.subnet == -1
  }

  /** A free slot has no operation, and no two slots serve the same subnet in the same direction. */
  ghost predicate IsTable(s: seq<Ctp>, subnets: nat) {
    && (forall i :: 0 <= i < |s| ==> (IsFree(s[i]) <==> s[i].op == NoOp) && -1 <= s[i].subnet < subnets)
    && (forall i, j :: 0 <= i < j < |s| && !IsFree(s[i]) ==> (s[i].subnet, s[i].op) != (s[j].subnet, s[j].op))
  }

  ghost predicate Serves(s: seq<Ctp>, subnet: int, op: Op, i: int) {
    0 <= i < |s| && s[i].subnet == subnet && s[i].op == op
  }

  ghost predicate IsFor(s: seq<Ctp>, producer: int, consumer: int, op: Op, i: int) {
    0 <= i < |s| && s[i].producer == producer && s[i].consumer == consumer && s[i].op == op
  }

  ghost predicate IsFirstFor(s: seq<Ctp>, producer: int, consumer: int, op: Op, i: int) {
    IsFor(s, producer, consumer, op, i) && forall k :: 0 <= k < i ==> !IsFor(s, producer, consumer, op, k)
  }

  ghost function Used(s: seq<Ctp>): set<(int, Op)> {
    set i | 0 <= i < |s| && !IsFree(s[i]) :: (s[i].subnet, s[i].op)
  }

  /** The keys there can be. */
  ghost function Keys(subnets: nat): set<(int, Op)> {
    if subnets == 0 then {} else Keys(subnets - 1) + {(subnets - 1, Send), (subnets - 1, Receive)}
  }

  lemma {:induction false} KeysAre(subnets: nat, k: (int, Op))
    ensures k in Keys(subnets) <==> 0 <= k.0 < subnets && k.1 != NoOp
  {
    if subnets > 0 { KeysAre(subnets - 1, k); }
  }

  lemma {:induction false} KeyCount(subnets: nat)
    ensures |Keys(subnets)| == 2 * subnets
  {
    if subnets > 0 {
      KeyCount(subnets - 1);
      KeysAre(subnets - 1, (subnets - 1, Send));
      KeysAre(subnets - 1, (subnets - 1, Receive));
      TwoMore(Keys(subnets - 1), (subnets - 1, Send), (subnets - 1, Receive));
    }
  }

  lemma TwoMore<T>(s: set<T>, a: T, b: T)
    requires a !in s && b !in s && a != b
    ensures |s + {a, b}| == |s| + 2
  {
    assert s + {a, b} == s + {a} + {b};
  }

  lemma {:induction false} UsedSize(s: seq<Ctp>, subnets: nat)
    requires IsTable(s, subnets) && forall i :: 0 <= i < |s| ==> !IsFree(s[i])
    ensures |Used(s)| == |s|
  {
    if s != [] {
      var n := |s| - 1;
      UsedSize(s[..n], subnets);
      assert Used(s) == Used(s[..n]) + {(s[n].subnet, s[n].op)};
    } else {
      assert Used(s) == {};
    }
  }

  /** Two slots a subnet are enough: one is free while a subnet is not served in some direction. */
  lemma AlwaysRoom(s: seq<Ctp>, subnets: nat, subnet: nat, op: Op)
    requires IsTable(s, subnets) && |s| == 2 * subnets && subnet < subnets && op != NoOp
    requires forall i :: !Serves(s, subnet, op, i)
    ensures exists i :: 0 <= i < |s| && IsFree(s[i])
  {
    if forall i :: 0 <= i < |s| ==> !IsFree(s[i]) {
      UsedSize(s, subnets);
      KeyCount(subnets);
      KeysAre(subnets, (subnet, op));
      forall k | k in Used(s) ensures k in Keys(subnets) - {(subnet, op)} {
        KeysAre(subnets, k);
        var i :| 0 <= i < |s| && !IsFree(s[i]) && (s[i].subnet, s[i].op) == k;
        assert !Serves(s, subnet, op, i);
      }
      SubsetSize(Used(s), Keys(subnets) - {(subnet, op)});
    }
  }

  lemma StaysTable(s: seq<Ctp>, s': seq<Ctp>, subnets: nat, index: nat)
    requires IsTable(s, subnets) && index < |s| == |s'| && s' == s[index := s'[index]]
    requires (IsFree(s'[index]) <==> s'[index].op == NoOp) && -1 <= s'[index].subnet < subnets
    requires forall i :: !Serves(s, s'[index].subnet, s'[index].op, i) || i == index || IsFree(s'[index])
    ensures IsTable(s', subnets)
  {
    assert forall i :: 0 <= i < |s| && i != index ==> s'[i] == s[i];
    forall i, j | 0 <= i < j < |s'| && !IsFree(s'[i]) ensures (s'[i].subnet, s'[i].op) != (s'[j].subnet, s'[j].op) {
      var first := Serves(s, s'[index].subnet, s'[index].op, i);
      var second := Serves(s, s'[index].subnet, s'[index].op, j);
    }
  }

  class Table {
    const ctp: array<Ctp>
    const subnets: nat

    constructor (subnets: nat)
      ensures this.subnets == subnets && Valid() && fresh(ctp) && forall subnet, op :: op != NoOp ==> !Has(subnet, op)
    {
      this.subnets := subnets;
      ctp := new Ctp[2 * subnets](_ => Ctp(-1, -1, NoOp, -1, false));
    }

    ghost predicate Valid()
      reads ctp
    {
      ctp.Length == 2 * subnets && IsTable(ctp[..], subnets)
    }

    ghost predicate Has(subnet: int, op: Op)
      reads ctp
    {
      exists i :: Serves(ctp[..], subnet, op, i)
    }

    /** The slot that serves a subnet in a direction; -1 stands for the error loop. */
    method GetCtp(subnet: int, op: Op) returns (index: int)
      ensures index == -1 <==> !Has(subnet, op)
      ensures index != -1 ==> Serves(ctp[..], subnet, op, index)
    {
      for i := 0 to ctp.Length
        invariant forall k :: 0 <= k < i ==> !Serves(ctp[..], subnet, op, k)
      {
        if ctp[i].subnet == subnet && ctp[i].op == op {
          assert Serves(ctp[..], subnet, op, i);
          return i;
        }
      }
      return -1;
    }

    /**
     * Takes the first free slot for a pair, with the circuit not yet enabled; -1 stands for the error loop of a full
     * table. A valid table always has a free slot for a subnet not yet served in the direction.
     */
    method AddCtp(producer: int, consumer: int, op: Op, subnet: nat) returns (index: int)
      modifies ctp
      ensures index == -1 <==> forall i :: 0 <= i < ctp.Length ==> !IsFree(old(ctp[..])[i])
      ensures index == -1 ==> ctp[..] == old(ctp[..])
      ensures index != -1 ==>
        && 0 <= index < ctp.Length && IsFree(old(ctp[..])[index]) && (forall k :: 0 <= k < index ==>
          !IsFree(old(ctp[..])[k]))
        && ctp[..] == old(ctp[..])[index := Ctp(producer, consumer, op, subnet, false)]
      ensures old(Valid()) && subnet < subnets && op != NoOp && !old(Has(subnet, op)) ==> index != -1 && Valid()
    {
      ghost var was := ctp[..];
      index := 0;
      while index < ctp.Length && ctp[index].subnet != -1
        invariant 0 <= index <= ctp.Length && forall k :: 0 <= k < index ==> !IsFree(ctp[k])
      {
        index := index + 1;
      }
      ghost var fits := Valid() && subnet < subnets && op != NoOp && !Has(subnet, op);
      if fits {
        assert forall i :: !Serves(was, subnet, op, i);
        AlwaysRoom(was, subnets, subnet, op);
      }
      if index == ctp.Length {
        return -1;
      }
      ctp[index] := Ctp(producer, consumer, op, subnet, false);
      if fits { StaysTable(was, ctp[..], subnets, index); }
    }

    method Enable(index: nat)
      requires Valid() && index < ctp.Length
      modifies ctp
      ensures Valid() && ctp[..] == old(ctp[..])[index := old(ctp[index]).(enabled := true)]
    {
      ctp[index] := ctp[index].(enabled := true);
    }

    /** Frees the slot that serves a subnet in a direction; not found stands for the error loop. */
    method RemoveCtp(subnet: nat, op: Op) returns (found: bool)
      requires Valid() && op != NoOp
      modifies ctp
      ensures Valid() && found == old(Has(subnet, op)) && !Has(subnet, op)
      ensures forall i :: 0 <= i < ctp.Length ==>
        if Serves(old(ctp[..]), subnet, op, i) then IsFree(ctp[i]) else ctp[i] == old(ctp[i])
    {
      var index := GetCtp(subnet, op);
      found := index != -1;
      if found {
        ghost var was := ctp[..];
        assert forall i :: Serves(was, subnet, op, i) ==> i == index;
        ctp[index] := ctp[index].(subnet := -1, op := NoOp, enabled := false);
        StaysTable(was, ctp[..], subnets, index);
        forall i ensures !Serves(ctp[..], subnet, op, i) {
          assert Serves(ctp[..], subnet, op, i) ==> Serves(was, subnet, op, i);
        }
      }
    }

    /** The subnet a pair uses in a direction, or -1 for the packet network: the first slot of the pair decides. */
    method GetSubnet(producer: int, consumer: int, op: Op) returns (subnet: int)
      ensures (forall i :: !IsFor(ctp[..], producer, consumer, op, i)) ==> subnet == -1
      ensures forall i :: IsFirstFor(ctp[..], producer, consumer, op, i) ==>
        subnet == if ctp[i].enabled then ctp[i].subnet else -1
    {
      for i := 0 to ctp.Length
        invariant forall k :: 0 <= k < i ==> !IsFor(ctp[..], producer, consumer, op, k)
      {
        if ctp[i].producer == producer && ctp[i].consumer == consumer && ctp[i].op == op {
          assert IsFor(ctp[..], producer, consumer, op, i);
          return if !ctp[i].enabled then -1 else ctp[i].subnet;
        }
      }
      return -1;
    }
  }
}
