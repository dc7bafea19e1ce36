/** The fixed-size table in which a processor keeps the message requests that its producers have not answered yet. */
module RequestTable {

  /** One slot of the table, or one request of a migrating task: who asked, who was asked, and where the asker runs. */
  datatype Request = Request(requester: int, requested: int, proc: int)

  predicate IsEmpty(r: Request) {
    r.requester == -1
  }

  predicate IsSlot(r: Request) {
    (r.requester == -1 && r.requested == -1) || (r.requester >= 0 && r.requested >= 0)
  }

  /** The requests held by a run of slots. */
  function Held(slots: seq<Request>): multiset<Request> {
    if slots == [] then multiset{}
    else Held(slots[..|slots| - 1]) + Single(slots[|slots| - 1])
  }

  function Single(r: Request): multiset<Request> {
    if IsEmpty(r) then multiset{} else multiset{r}
  }

  lemma HeldNothing()
    ensures Held([]) == multiset{}
  {
  }

  lemma HeldAppend(slots: seq<Request>, r: Request)
    ensures Held(slots + [r]) == Held(slots) + Single(r)
  {
    assert (slots + [r])[..|slots|] == slots;
  }

  lemma {:induction false} HeldSplits(a: seq<Request>, b: seq<Request>)
    ensures Held(a + b) == Held(a) + Held(b)
    decreases |b|
  {
    hide *;
    HeldNothing();
    if b == [] {
      assert a + b == a && b == [];
    } else {
      var init, last := b[..|b| - 1], b[|b| - 1];
      HeldSplits(a, init);
      HeldAppend(a + init, last);
      HeldAppend(init, last);
      assert a + b == (a + init) + [last] && init + [last] == b;
    }
  }

  lemma HeldUpdate(slots: seq<Request>, i: nat, r: Request)
    requires i < |slots|
    ensures Single(slots[i]) <= Held(slots) && Held(slots[i := r]) == Held(slots) - Single(slots[i]) + Single(r)
  {
    hide Held, Single;
    var left, right := slots[..i], slots[i + 1..];
    HeldAppend(left, slots[i]);
    HeldAppend(left, r);
    HeldSplits(left + [slots[i]], right);
    HeldSplits(left + [r], right);
    assert slots == left + [slots[i]] + right && slots[i := r] == left + [r] + right;
  }

  lemma {:induction false} HeldSize(slots: seq<Request>)
    ensures |Held(slots)| <= |slots|
    ensures |Held(slots)| == |slots| <==> forall i :: 0 <= i < |slots| ==> !IsEmpty(slots[i])
  {
    if slots != [] {
      var init := slots[..|slots| - 1];
      HeldSize(init);
      if |Held(init)| != |init| {
        var i :| 0 <= i < |init| && IsEmpty(init[i]);
        assert IsEmpty(slots[i]);
      }
    }
  }

  lemma {:induction false} HeldContains(slots: seq<Request>, r: Request)
    ensures r in Held(slots) <==> !IsEmpty(r) && r in slots
  {
    if slots != [] { HeldContains(slots[..|slots| - 1], r); }
  }

  /** How the requests seen so far are shared out between those taken and those kept. */
  ghost predicate Shared(was: multiset<Request>, taken: multiset<Request>, kept: multiset<Request>, producer: nat) {
    forall r ::
      && taken[r] == (if r.requested == producer then was[r] else 0)
      && kept[r] == (if r.requested == producer then 0 else was[r])
  }

  function Emptied(r: Request): Request {
    r.(requester := -1, requested := -1)
  }

  /** One slot more, taken or kept. */
  lemma ShareOne(was: multiset<Request>, taken: seq<Request>, kept: multiset<Request>, producer: nat, slot: Request)
    requires Shared(was, multiset(taken), kept, producer) && IsSlot(slot)
    ensures if slot.requested == producer then
              Shared(was + Single(slot), multiset(taken + [slot]), kept + Single(Emptied(slot)), producer)
            else Shared(was + Single(slot), multiset(taken), kept + Single(slot), producer)
  {
    assert multiset(taken + [slot]) == multiset(taken) + multiset{slot};
  }

  class Table {
    const slots: array<Request>

    constructor (requestSize: nat)
      ensures Valid() && fresh(slots) && slots.Length == requestSize && Contents() == multiset{}
    {
      slots := new Request[requestSize](_ => Request(-1, -1, -1));
      new;
      if r: Request :| r in Contents() { HeldContains(slots[..], r); }
    }

    /** A slot either names two tasks or neither. */
    ghost predicate Valid()
      reads slots
    {
      forall i :: 0 <= i < slots.Length ==> IsSlot(slots[i])
    }

    ghost function Contents(): multiset<Request>
      reads slots
    {
      Held(slots[..])
    }

    /** Adds a request in the first empty slot; refused exactly when there is none. */
    method InsertMessageRequest(producer: nat, consumer: nat, proc: int) returns (ok: bool)
      requires Valid()
      modifies slots
      ensures Valid() && (ok <==> |old(Contents())| < slots.Length)
      ensures Contents() == if ok then old(Contents()) + multiset{Request(consumer, producer, proc)} else old(Contents())
    {
      hide Held;
      HeldSize(slots[..]);
      for i := 0 to slots.Length
        invariant slots[..] == old(slots[..]) && forall k :: 0 <= k < i ==> !IsEmpty(slots[k])
      {
        if slots[i].requester == -1 {
          HeldUpdate(slots[..], i, Request(consumer, producer, proc));
          slots[i] := Request(consumer, producer, proc);
          assert slots[..] == old(slots[..])[i := Request(consumer, producer, proc)];
          return true;
        }
      }
      return false;
    }

    ghost predicate Has(producer: nat, consumer: nat)
      reads slots
    {
      exists r :: r in Contents() && r.requested == producer && r.requester == consumer
    }

    method SearchMessageRequest(producer: nat, consumer: nat) returns (found: bool)
      requires Valid()
      ensures found <==> Has(producer, consumer)
    {
      for i := 0 to slots.Length
        invariant forall k :: 0 <= k < i ==> slots[k].requested != producer || slots[k].requester != consumer
      {
        if slots[i].requested == producer && slots[i].requester == consumer {
          HeldContains(slots[..], slots[i]);
          return true;
        }
      }
      if Has(producer, consumer) {
        var r :| r in Contents() && r.requested == producer && r.requester == consumer;
        HeldContains(slots[..], r);
      }
      return false;
    }

    /** Takes the first request of the pair out of the table; -1 when there is none. */
    method RemoveMessageRequest(producer: nat, consumer: nat) returns (index: int)
      requires Valid()
      modifies slots
      ensures Valid() && -1 <= index < slots.Length
      ensures index == -1 <==> !old(Has(producer, consumer))
      ensures index == -1 ==> Contents() == old(Contents())
      ensures index >= 0 ==> var r := old(slots[index]);
        && r == Request(consumer, producer, slots[index].proc) && r in old(Contents())
        && Contents() == old(Contents()) - multiset{r} && IsEmpty(slots[index])
    {
      for i := 0 to slots.Length
        invariant slots[..] == old(slots[..])
        invariant forall k :: 0 <= k < i ==> slots[k].requested != producer || slots[k].requester != consumer
      {
        if slots[i].requested == producer && slots[i].requester == consumer {
          HeldContains(slots[..], slots[i]);
          HeldUpdate(slots[..], i, slots[i].(requester := -1, requested := -1));
          slots[i] := slots[i].(requester := -1, requested := -1);
          assert slots[..] == old(slots[..])[i := slots[i]];
          return i;
        }
      }
      if Has(producer, consumer) {
        var r :| r in Contents() && r.requested == producer && r.requester == consumer;
        HeldContains(slots[..], r);
      }
      return -1;
    }

    /** Undoes the last removal, while the slot it left still holds the asker's processor. */
    method RestoreMessageRequest(index: nat, producer: nat, consumer: nat)
      requires Valid() && index < slots.Length && IsEmpty(slots[index])
      modifies slots
      ensures Valid() && Contents() == old(Contents()) + multiset{Request(consumer, producer, old(slots[index].proc))}
    {
      HeldUpdate(slots[..], index, slots[index].(requester := consumer, requested := producer));
      slots[index] := slots[index].(requester := consumer, requested := producer);
      assert slots[..] == old(slots[..])[index := slots[index]];
    }

    /** Takes out every request that waits for one producer, and nothing else. */
    method RemoveAllRequestedMsgs(producer: nat) returns (removed: seq<Request>)
      requires Valid()
      modifies slots
      ensures forall i :: 0 <= i < |removed| ==> removed[i].requested == producer && removed[i].requester >= 0
      ensures Valid() && Shared(old(Contents()), multiset(removed), Contents(), producer)
    {
      ghost var was := slots[..];
      removed := [];
      ShareNothing(was, producer);
      hide *;
      for i := 0 to slots.Length
        invariant |was| == slots.Length && SharedUpTo(was, removed, slots[..], i, producer)
      {
        ghost var before, taken := slots[..], removed;
        if slots[i].requested == producer {
          removed := removed + [slots[i]];
          slots[i] := Emptied(slots[i]);
        }
        ShareStep(was, before, slots[..], i, taken, removed, producer);
      }
      SharedAll(was, removed, slots[..], producer);
    }
  }

  /** The scan has passed i slots: what they held is shared out, and the other slots are untouched. */
  ghost predicate SharedUpTo(was: seq<Request>, taken: seq<Request>, now: seq<Request>, i: nat, producer: nat) {
    && i <= |was| == |now|
    && (forall k :: 0 <= k < |was| ==> IsSlot(was[k]) && IsSlot(now[k]) && (k >= i ==> was[k] == now[k]))
    && Shared(Held(was[..i]), multiset(taken), Held(now[..i]), producer)
  }

  lemma SharedAll(was: seq<Request>, taken: seq<Request>, now: seq<Request>, producer: nat)
    requires SharedUpTo(was, taken, now, |was|, producer)
    ensures Shared(Held(was), multiset(taken), Held(now), producer)
    ensures forall i :: 0 <= i < |taken| ==> taken[i].requested == producer && taken[i].requester >= 0
    ensures forall i :: 0 <= i < |now| ==> IsSlot(now[i])
  {
    assert was[..|was|] == was && now[..|now|] == now;
    TakenNameTasks(was, taken, Held(now), producer);
  }

  lemma TakenNameTasks(was: seq<Request>, taken: seq<Request>, kept: multiset<Request>, producer: nat)
    requires Shared(Held(was), multiset(taken), kept, producer) && forall i :: 0 <= i < |was| ==> IsSlot(was[i])
    ensures forall i :: 0 <= i < |taken| ==> taken[i].requested == producer && taken[i].requester >= 0
  {
    forall i | 0 <= i < |taken| ensures taken[i].requested == producer && taken[i].requester >= 0 {
      assert taken[i] in multiset(taken);
      HeldContains(was, taken[i]);
    }
  }

  lemma ShareNothing(was: seq<Request>, producer: nat)
    requires forall i :: 0 <= i < |was| ==> IsSlot(was[i])
    ensures SharedUpTo(was, [], was, 0, producer)
  {
    HeldNothing();
    assert was[..0] == [];
  }

  lemma ShareStep(was: seq<Request>, before: seq<Request>, after: seq<Request>, i: nat, taken: seq<Request>,
                  taken': seq<Request>,
                  producer: nat)
    requires SharedUpTo(was, taken, before, i, producer) && i < |was| && i < |before|
    requires if before[i].requested == producer then after == before[i := Emptied(before[i])] && taken' == taken + [before[i]]
             else after == before && taken' == taken
    ensures SharedUpTo(was, taken', after, i + 1, producer)
  {
    hide Held, Shared;
    ShareOne(Held(was[..i]), taken, Held(before[..i]), producer, was[i]);
    HeldNext(was, i);
    HeldNext(after, i);
    assert after[..i] == before[..i];
  }

  lemma HeldNext(slots: seq<Request>, i: nat)
    requires i < |slots|
    ensures Held(slots[..i + 1]) == Held(slots[..i]) + Single(slots[i])
  {
    assert slots[..i + 1] == slots[..i] + [slots[i]];
    HeldAppend(slots[..i], slots[i]);
  }
}
