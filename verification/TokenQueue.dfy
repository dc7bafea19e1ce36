/** The coordinator's queue of controllers waiting for the token: a ring buffer that remembers its last operation. */
module TokenQueue {

  /** The entries of a ring of the given size from position `first` on. */
  ghost function Ring(a: seq<nat>, first: nat, count: nat): (s: seq<nat>)
    requires first < |a| && count <= |a|
    ensures |s| == count
  {
    if first + count <= |a| then a[first..first + count] else a[first..] + a[..first + count - |a|]
  }

  class Queue {
    const fifo: array<nat>
    var first: nat
    var last: nat
    var lastWasAdd: bool
    ghost var count: nat

    ghost predicate Valid()
      reads this, fifo
    {
      && fifo.Length > 0 && first < fifo.Length && count <= fifo.Length
      && last == (if first + count < fifo.Length then first + count else first + count - fifo.Length)
      && (count == 0 ==> !lastWasAdd) && (count == fifo.Length ==> lastWasAdd)
    }

    ghost function Contents(): (s: seq<nat>)
      requires Valid()
      reads this, fifo
      ensures |s| == count
    {
      Ring(fifo[..], first, count)
    }

    constructor (size: nat)
      requires size > 0
      ensures Valid() && fifo.Length == size && Contents() == [] && fresh(fifo)
    {
      fifo := new nat[size](_ => 0);
      first, last, lastWasAdd, count := 0, 0, false, 0;
    }

    /** Queues a request; refused exactly when the ring is full, where the program halts. */
    method AddTokenRequest(requester: nat) returns (ok: bool)
      requires Valid()
      modifies this, fifo
      ensures Valid()
      ensures ok <==> |old(Contents())| < fifo.Length
      ensures Contents() == if ok then old(Contents()) + [requester] else old(Contents())
    {
      if first == last && lastWasAdd {
        return false;
      }
      fifo[last] := requester;
      last := if last == fifo.Length - 1 then 0 else last + 1;
      lastWasAdd := true;
      count := count + 1;
      return true;
    }

    /** Takes the oldest request, or gives -1 when none is waiting. */
    method GetNextTokenRequest() returns (r: int)
      requires Valid()
      modifies this
      ensures Valid()
      ensures r == if old(Contents()) == [] then -1 else old(Contents())[0]
      ensures Contents() == if old(Contents()) == [] then [] else old(Contents())[1..]
    {
      if first == last && !lastWasAdd {
        return -1;
      }
      r := fifo[first];
      first := if first == fifo.Length - 1 then 0 else first + 1;
      lastWasAdd := false;
      count := count - 1;
    }
  }
}
