/**
 * The part of a processor's kernel that moves messages between tasks: blocking Send and Receive by request and
 * delivery.
 */
module Processor {
  import opened Basics
  import opened RequestTable

  datatype Packet =
    | RequestPacket(producer: nat, consumer: nat, proc: nat, to: nat)
    | DeliveryPacket(producer: nat, consumer: nat, payload: int, to: nat)

  /**
   * The kernel's state as a value: its request table, what each waiting local task waits for, and whether it is in an
   * error loop.
   */
  datatype Kernel = Kernel(table: multiset<Request>, waiting: map<nat, nat>, stuck: bool)

  /** A request enters a table of the given size, or is lost when it is full. */
  function Inserted(k: Kernel, size: nat, r: Request): Kernel {
    if |k.table| < size then k.(table := k.table + multiset{r}) else k
  }

  /** The consumer's buffer is filled and the task released; without a buffer the kernel spins. */
  function Filled(k: Kernel, consumer: nat): Kernel {
    if consumer in k.waiting then k.(waiting := k.waiting - {consumer}) else k.(stuck := true)
  }

  datatype Sending = NotYet | WroteLocally | SentTo(packet: Packet)

  ghost predicate Has(k: Kernel, producer: nat, consumer: nat) {
    exists r :: r in k.table && r.requested == producer && r.requester == consumer
  }

  /** One attempt at Send: it waits for a request of the consumer and a free sender, and answers the request at once. */
  ghost predicate Sends(k: Kernel, k': Kernel, at: nat, producer: nat, consumer: nat, payload: int, busy: bool,
                        how: Sending)
  {
    if busy || !Has(k, producer, consumer) then how == NotYet && k' == k
    else exists proc: int ::
      Request(consumer, producer, proc) in k.table && Answers(k, k', at, producer, consumer, payload, proc, how)
  }

  ghost predicate Answers(k: Kernel, k': Kernel, at: nat, producer: nat, consumer: nat, payload: int, proc: int,
                          how: Sending)
  {
    var taken := k.(table := k.table - multiset{Request(consumer, producer, proc)});
    match how
    case NotYet => proc != at && k' == k
    case WroteLocally => proc == at && k' == Filled(taken, consumer)
    case SentTo(packet) => proc != at && proc >= 0 && packet == DeliveryPacket(producer, consumer, payload, proc) && k' == taken
  }

  /** Receive: the request goes to the local table or to the producer's processor, and the task waits. */
  ghost predicate Receives(k: Kernel, k': Kernel, at: nat, size: nat, producer: nat, consumer: nat, location: int,
                           busy: bool,
                           out: Option<Packet>)
  {
    if busy || location == -1 then out == None && k' == k
    else if consumer in k.waiting then out == None && k' == k.(stuck := true)
    else if location == at then
      out == None && k' == Inserted(k, size,
                                    Request(consumer, producer, at)).(waiting := k.waiting[consumer := producer])
    else
      && location >= 0 && out == Some(RequestPacket(producer, consumer, at, location))
      && k' == k.(waiting := k.waiting[consumer := producer])
  }

  lemma AnsweredIsSent(k: Kernel, k': Kernel, at: nat, producer: nat, consumer: nat, payload: int, proc: int,
                       how: Sending)
    requires Request(consumer, producer, proc) in k.table && proc >= 0
    requires
      var table := k.table - multiset{Request(consumer, producer, proc)};
      if proc == at then
        how == WroteLocally && k' == (if consumer in k.waiting then Kernel(table, k.waiting - {consumer}, k.stuck)
                                      else Kernel(table, k.waiting, true))
      else if how == NotYet then k' == k
      else how == SentTo(DeliveryPacket(producer, consumer, payload, proc)) && k' == k.(table := table)
    ensures Sends(k, k', at, producer, consumer, payload, false, how)
  {
  }

  lemma TakeAndPutBack(table: multiset<Request>, r: Request)
    requires r in table
    ensures table - multiset{r} + multiset{r} == table
  {
  }

  class Slave {
    const address: nat
    const table: Table
    var waiting: map<nat, nat>
    var stuck: bool

    constructor (address: nat, requestSize: nat)
      ensures this.address == address && table.slots.Length == requestSize && table.Valid() && fresh(table.slots)
      ensures State() == Kernel(multiset{}, map[], false)
    {
      this.address := address;
      table := new Table(requestSize);
      waiting, stuck := map[], false;
    }

    ghost function State(): Kernel
      reads this, table.slots
    {
      Kernel(table.Contents(), waiting, stuck)
    }

    /**
     * `psBusy` and `netBusy` tell whether the sender is still active on the packet network and on the network of this
     * pair.
     */
    method SendMessage(producer: nat, consumer: nat, payload: int, psBusy: bool, netBusy: bool) returns (how: Sending)
      requires table.Valid() && forall r :: r in table.Contents() ==> r.proc >= 0
      modifies this, table.slots
      ensures table.Valid()
      ensures Sends(old(State()), State(), address, producer, consumer, payload, psBusy, how)
      ensures !psBusy && !netBusy && old(Has(State(), producer, consumer)) ==> how != NotYet
    {
      how := NotYet;
      if psBusy { return; }
      hide Held;
      ghost var k := State();
      var index := table.RemoveMessageRequest(producer, consumer);
      if index == -1 {
        assert !Has(k, producer, consumer);
        return;
      }
      var proc := table.slots[index].proc;
      hide *;
      if proc == address {
        if consumer in waiting { waiting := waiting - {consumer}; } else { stuck := true; }
        how := WroteLocally;
      } else if netBusy {
        table.RestoreMessageRequest(index, producer, consumer);
        TakeAndPutBack(k.table, Request(consumer, producer, proc));
      } else {
        how := SentTo(DeliveryPacket(producer, consumer, payload, proc));
      }
      AnsweredIsSent(k, State(), address, producer, consumer, payload, proc, how);
    }

    method ReceiveMessage(producer: nat, consumer: nat, location: int, psBusy: bool) returns (out: Option<Packet>)
      requires table.Valid() && location >= -1
      modifies this, table.slots
      ensures table.Valid()
      ensures Receives(old(State()), State(), address, table.slots.Length, producer, consumer, location, psBusy, out)
      ensures !psBusy && location != -1 && consumer !in old(waiting) ==>
        waiting == old(waiting)[consumer := producer] && stuck == old(stuck)
      ensures !psBusy && location == address && consumer !in old(waiting) ==>
        out == None && (|old(table.Contents())| < table.slots.Length ==>
          table.Contents() == old(table.Contents()) + multiset{Request(consumer, producer, address)})
      ensures !psBusy && location != address && location != -1 && consumer !in old(waiting) ==>
        out == Some(RequestPacket(producer, consumer, address, location)) && table.Contents() == old(table.Contents())
    {
      out := None;
      if psBusy || location == -1 { return; }
      if consumer in waiting {
        stuck := true;
        return;
      }
      if location == address {
        var ok := table.InsertMessageRequest(producer, consumer, address);
      } else {
        out := Some(RequestPacket(producer, consumer, address, location));
      }
      waiting := waiting[consumer := producer];
    }

    /** A request arrives: it is kept if the producer runs here and passed on to where it went otherwise. */
    method HandleMessageRequest(p: Packet, runsHere: bool, location: int) returns (out: Option<Packet>)
      requires table.Valid() && p.RequestPacket? && location >= -1
      modifies this, table.slots
      ensures table.Valid()
      ensures runsHere ==> out == None
      ensures runsHere ==> State() == Inserted(old(State()), table.slots.Length,
                                               Request(p.consumer, p.producer, p.proc))
      ensures !runsHere && (location == address || location == -1) ==> stuck && out == None
      ensures !runsHere && location != address && location >= 0 ==>
        State() == old(State()) && out == Some(RequestPacket(p.producer, p.consumer, p.proc, location))
    {
      out := None;
      if runsHere {
        var ok := table.InsertMessageRequest(p.producer, p.consumer, p.proc);
      } else if location == address || location == -1 {
        stuck := true;
      } else {
        out := Some(RequestPacket(p.producer, p.consumer, p.proc, location));
      }
    }

    method HandleMessageDelivery(p: Packet)
      requires p.DeliveryPacket?
      modifies this
      ensures State() == Filled(old(State()), p.consumer)
    {
      if p.consumer in waiting { waiting := waiting - {p.consumer}; } else { stuck := true; }
    }
  }
}
