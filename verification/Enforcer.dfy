/**
 * The kernel's part in changing a task pair's mode: handlers that change the table of served pairs and the consumer's
 * flag words in place, each doing exactly what the step of the pair says.
 */
module Enforcer {
  import opened Basics
  import opened Switching
  import opened CtpTable
  import G = Grid
  import C = Circuits

  /** The pair has one slot in a direction at most. */
  ghost predicate AtMostOne(s: seq<Ctp>, producer: int, consumer: int, op: Op) {
    forall i, j :: IsFor(s, producer, consumer, op, i) && IsFor(s, producer, consumer, op, j) ==> i == j
  }

  /** The slot of the pair in a direction, as far as the pair's steps see it. */
  ghost function Slot(s: seq<Ctp>, producer: int, consumer: int, op: Op): Option<ReceiveCtp> {
    if exists i :: IsFor(s, producer, consumer, op, i) && s[i].subnet >= 0 then
      var i :| IsFor(s, producer, consumer, op, i) && s[i].subnet >= 0;
      Some(ReceiveCtp(s[i].subnet, s[i].enabled))
    else None
  }

  /** The subnet of an enabled slot, or -1 for the packet network. */
  function Enabled(slot: Option<ReceiveCtp>): int {
    if slot.Some? && slot.value.enabled then slot.value.net else -1
  }

  lemma SlotAt(s: seq<Ctp>, subnets: nat, producer: int, consumer: int, op: Op, i: nat)
    requires IsTable(s, subnets) && AtMostOne(s, producer, consumer, op) && IsFor(s, producer, consumer, op, i)
    requires op != NoOp
    ensures s[i].subnet >= 0 && Slot(s, producer, consumer, op) == Some(ReceiveCtp(s[i].subnet, s[i].enabled))
  {
    assert !IsFree(s[i]);
  }

  /** Only one slot serves a subnet in a direction. */
  lemma ServesOnce(s: seq<Ctp>, subnets: nat, subnet: nat, op: Op, i: int, j: int)
    requires IsTable(s, subnets) && Serves(s, subnet, op, i) && Serves(s, subnet, op, j)
    ensures i == j
  {
    assert !IsFree(s[i]) && !IsFree(s[j]);
  }

  /** The pair takes a slot, or its own slot is set again. */
  lemma SlotSet(s: seq<Ctp>, s': seq<Ctp>, subnets: nat, producer: int, consumer: int, op: Op, net: nat, i: nat)
    requires IsTable(s', subnets) && op != NoOp && AtMostOne(s, producer, consumer, op) && i < |s| == |s'|
    requires s' == s[i := Ctp(producer, consumer, op, net, s'[i].enabled)]
    requires forall k :: IsFor(s, producer, consumer, op, k) ==> k == i
    ensures AtMostOne(s', producer, consumer, op)
    ensures Slot(s', producer, consumer, op) == Some(ReceiveCtp(net, s'[i].enabled))
  {
    forall k | IsFor(s', producer, consumer, op, k) ensures k == i {
      assert k != i ==> IsFor(s, producer, consumer, op, k);
    }
    SlotAt(s', subnets, producer, consumer, op, i);
  }

  /** The one slot of the pair is freed. */
  lemma SlotCleared(s: seq<Ctp>, s': seq<Ctp>, producer: int, consumer: int, op: Op, net: nat)
    requires op != NoOp && |s'| == |s|
    requires forall i :: IsFor(s, producer, consumer, op, i) ==> Serves(s, net, op, i)
    requires forall i :: 0 <= i < |s| ==> if Serves(s, net, op, i) then s'[i].op == NoOp else s'[i] == s[i]
    ensures AtMostOne(s', producer, consumer, op) && Slot(s', producer, consumer, op) == None
  {
    forall k ensures !IsFor(s', producer, consumer, op, k) {
      assert IsFor(s, producer, consumer, op, k) ==> Serves(s, net, op, k);
    }
  }

  lemma NoSlot(s: seq<Ctp>, subnets: nat, producer: int, consumer: int, op: Op)
    requires IsTable(s, subnets) && op != NoOp && Slot(s, producer, consumer, op) == None
    ensures forall i :: !IsFor(s, producer, consumer, op, i)
  {
    assert forall i :: IsFor(s, producer, consumer, op, i) ==> s[i].subnet >= 0;
  }

  // ----- what the managers' circuits guarantee

  /** A circuit runs from or to the local ports of processor x on a subnet, as far as the direction asks. */
  predicate Ends(c: C.Circuit, x: G.Router, op: Op, net: nat) {
    && c.net == net && c.route != []
    && if op == Op.Receive then c.outport == G.LocalOut && C.Last(c) == x else c.inport == G.LocalIn && c.route[0] == x
  }

  /**
   * Every slot in use at processor x is for the pair of a live circuit that begins or ends there on the slot's subnet.
   */
  ghost predicate Backed(s: seq<Ctp>, live: seq<C.Circuit>, pairs: seq<(int, int)>, x: G.Router) {
    && |pairs| == |live|
    && forall i :: 0 <= i < |s| && s[i].op != NoOp && s[i].subnet >= 0 ==>
      exists k ::
        0 <= k < |live| && Ends(live[k], x, s[i].op, s[i].subnet) && pairs[k] == (s[i].producer, s[i].consumer)
  }

  /** Only one live circuit begins, or ends, at a processor on a subnet. */
  lemma EndsOnce(t: C.Table, live: seq<C.Circuit>, faults: set<C.Slot>, w: int, h: int, nets: int, x: G.Router, op: Op,
                 net: nat,
                 i: int, j: int)
    requires C.Partition(t, live, faults, w, h, nets) && 0 <= i < |live| && 0 <= j < |live|
    requires Ends(live[i], x, op, net) && Ends(live[j], x, op, net)
    ensures i == j
  {
    hide C.Partition;
    if op == Op.Receive {
      C.TargetNamesCircuit(t, live, faults, i, j, w, h, nets);
    } else {
      C.SourceNamesCircuit(t, live, faults, i, j, w, h, nets);
    }
  }

  /**
   * Main result: at a processor that a pair's live circuit begins or ends at, the circuit's subnet serves that pair
   * alone in the direction, since the managers' port tables hand a local port to one circuit at a time.
   */
  lemma SubnetServesOnePair(s: seq<Ctp>, producer: int, consumer: int, op: Op, net: nat, x: G.Router, k: nat,
                            t: C.Table, live: seq<C.Circuit>, pairs: seq<(int, int)>, faults: set<C.Slot>,
                            w: int, h: int, nets: int)
    requires C.Partition(t, live, faults, w, h, nets) && Backed(s, live, pairs, x) && op != NoOp
    requires k < |live| && Ends(live[k], x, op, net) && pairs[k] == (producer, consumer)
    ensures forall i :: Serves(s, net, op, i) ==> IsFor(s, producer, consumer, op, i)
  {
    hide C.Partition, Ends;
    forall i | Serves(s, net, op, i) ensures IsFor(s, producer, consumer, op, i) {
      var j :| 0 <= j < |live| && Ends(live[j], x, s[i].op, s[i].subnet) && pairs[j] == (s[i].producer, s[i].consumer);
      EndsOnce(t, live, faults, w, h, nets, x, op, net, j, k);
    }
  }

  /** What the handlers below ask of the pair's state holds in every run. */
  lemma RunsMeetDemands(producer: nat, run: seq<Pair>, n: nat)
    requires 0 < producer < 0x10000 && IsRun(producer, run) && n < |run|
    ensures var p := run[n];
      && !p.stuck
      && (p.addCtp == 0 || p.addCtp == p.phase.net * 0x10000 + producer)
      && (p.removeCtp == 0 || p.removeCtp == producer)
      && (p.addCtp != 0 ==> p.receiveCtp.None?)
      && (p.order.Some? ==> p.addCtp == 0 && (p.order.value.ToCircuit? ==> p.receiveCtp.None?))
      && (p.toProducer != [] && p.toProducer[0].SetProducer? ==>
        p.sendCtp == if p.toProducer[0].cs then None else Some(p.toProducer[0].net))
      && (p.toConsumer != [] && p.toConsumer[0].Ack? && p.toConsumer[0].cs ==>
        p.receiveCtp == Some(ReceiveCtp(p.toConsumer[0].net, false)))
  {
    RunKeeps(producer, run, n);
  }

  class Kernel {
    const table: Table
    const producer: nat
    const consumer: nat
    var addCtp: nat
    var removeCtp: nat
    var waiting: bool
    var stuck: bool
    /**
     * Packets sent so far, to the kernel of the producer and of the consumer, and the changes confirmed to the manager.
     */
    var toProducer: seq<ToProducer>
    var toConsumer: seq<ToConsumer>
    var concluded: seq<bool>

    constructor (producer: nat, consumer: nat, subnets: nat)
      ensures this.producer == producer && this.consumer == consumer && table.subnets == subnets
      ensures table.Valid() && fresh(table.ctp) && forall subnet, op :: op != NoOp ==> !table.Has(subnet, op)
      ensures addCtp == removeCtp == 0 && !waiting && !stuck && toProducer == [] && toConsumer == [] && concluded == []
    {
      this.producer, this.consumer := producer, consumer;
      table := new Table(subnets);
      addCtp, removeCtp, waiting, stuck, toProducer, toConsumer, concluded := 0, 0, false, false, [], [], [];
    }

    ghost function PairSlot(op: Op): Option<ReceiveCtp>
      reads table.ctp
    {
      Slot(table.ctp[..], producer, consumer, op)
    }

    /** This kernel runs the consumer and is as the pair's state says. */
    ghost predicate IsConsumerOf(p: Pair, sent: seq<ToProducer>)
      reads this, table.ctp
    {
      && table.Valid() && AtMostOne(table.ctp[..], producer, consumer, Op.Receive)
      && p.addCtp == addCtp && p.removeCtp == removeCtp && p.waiting == waiting && p.stuck == stuck
      && p.receiveCtp == PairSlot(Op.Receive) && p.toProducer == sent + toProducer
    }

    /**
     * This kernel runs the producer and is as the pair's state says; a producer's slot is enabled as soon as it is
     * taken.
     */
    ghost predicate IsProducerOf(p: Pair, sent: seq<ToConsumer>)
      reads this, table.ctp
    {
      && table.Valid() && AtMostOne(table.ctp[..], producer, consumer, Op.Send)
      && p.stuck == stuck && p.toConsumer == sent + toConsumer
      && PairSlot(Op.Send) == if p.sendCtp.Some? then Some(ReceiveCtp(p.sendCtp.value, true)) else None
    }

    /** The flag words are those of orders for this pair. */
    ghost predicate Words()
      reads this`addCtp, this`removeCtp
    {
      && 0 < producer < 0x10000
      && (addCtp == 0 || addCtp % 0x10000 == producer) && (removeCtp == 0 || removeCtp == producer)
    }

    /** A circuit ordered is there for this pair alone: nothing else is received on its subnet here. */
    ghost predicate IsFreeFor(op: Op, net: nat)
      reads table.ctp
    {
      net < table.subnets && !table.Has(net, op) && PairSlot(op) == None
    }

    /** An order for one of the managers' live circuits of this pair finds its subnet free. */
    lemma OrderIsFree(op: Op, net: nat, x: G.Router, k: nat, t: C.Table, live: seq<C.Circuit>, pairs: seq<(int, int)>,
                      faults: set<C.Slot>, w: int, h: int)
      requires table.Valid() && op != NoOp && PairSlot(op) == None && net < table.subnets
      requires C.Partition(t, live, faults, w, h, table.subnets) && Backed(table.ctp[..], live, pairs, x)
      requires k < |live| && Ends(live[k], x, op, net) && pairs[k] == (producer, consumer)
      ensures IsFreeFor(op, net)
    {
      hide C.Partition, Ends, Backed;
      NoSlot(table.ctp[..], table.subnets, producer, consumer, op);
      SubnetServesOnePair(table.ctp[..], producer, consumer, op, net, x, k, t, live, pairs, faults, w, h,
                          table.subnets);
    }

    /** The circuit of this pair in a direction, or -1 for the packet network. */
    method PairSubnet(op: Op) returns (subnet: int)
      requires table.Valid() && AtMostOne(table.ctp[..], producer, consumer, op) && op != NoOp
      ensures subnet == Enabled(PairSlot(op))
    {
      subnet := table.GetSubnet(producer, consumer, op);
      if i :| IsFor(table.ctp[..], producer, consumer, op, i) {
        SlotAt(table.ctp[..], table.subnets, producer, consumer, op, i);
        assert IsFirstFor(table.ctp[..], producer, consumer, op, i);
      }
    }

    // ----- consumer

    method AddCtpOnline(ghost p: Pair, ghost sent: seq<ToProducer>)
      requires IsConsumerOf(p, sent) && Words() && !stuck && addCtp != 0 && IsFreeFor(Op.Receive, addCtp / 0x10000)
      modifies `addCtp, `toProducer, table.ctp
      ensures PairSlot(Op.Receive) == Some(ReceiveCtp(old(addCtp) / 0x10000, false)) && addCtp == 0
      ensures toProducer == old(toProducer) + [SetProducer(true, old(addCtp) / 0x10000)]
      ensures IsConsumerOf(Switching.AddCtpOnline(p), sent) && Words()
    {
      var subnet := addCtp / 0x10000;
      ghost var was := table.ctp[..];
      NoSlot(was, table.subnets, producer, consumer, Op.Receive);
      var index := table.AddCtp(addCtp % 0x10000, consumer, Op.Receive, subnet);
      SlotSet(was, table.ctp[..], table.subnets, producer, consumer, Op.Receive, subnet, index);
      toProducer := toProducer + [SetProducer(true, subnet)];
      addCtp := 0;
    }

    method RemoveCtpOnline(ghost p: Pair, ghost sent: seq<ToProducer>)
      requires IsConsumerOf(p, sent) && Words() && !stuck && removeCtp != 0
      modifies `removeCtp, `toProducer, `stuck, table.ctp
      ensures stuck <==> old(Enabled(PairSlot(Op.Receive))) == -1
      ensures !stuck ==> PairSlot(Op.Receive) == None && removeCtp == 0
      ensures !stuck ==> toProducer == old(toProducer) + [SetProducer(false, old(PairSlot(Op.Receive).value.net))]
      ensures stuck ==> PairSlot(Op.Receive) == old(PairSlot(Op.Receive)) && toProducer == old(toProducer)
      ensures IsConsumerOf(Switching.RemoveCtpOnline(p), sent) && Words()
    {
      var subnet := PairSubnet(Op.Receive);
      if subnet == -1 {
        stuck := true;
        return;
      }
      ghost var was := table.ctp[..];
      OwnSlotServes(Op.Receive, subnet);
      var found := table.RemoveCtp(subnet, Op.Receive);
      SlotCleared(was, table.ctp[..], producer, consumer, Op.Receive, subnet);
      toProducer := toProducer + [SetProducer(false, subnet)];
      removeCtp := 0;
    }

    lemma OwnSlotServes(op: Op, net: nat)
      requires table.Valid() && op != NoOp && AtMostOne(table.ctp[..], producer, consumer, op)
      requires PairSlot(op).Some? && PairSlot(op).value.net == net
      ensures forall i :: IsFor(table.ctp[..], producer, consumer, op, i) ==> Serves(table.ctp[..], net, op, i)
      ensures exists i :: IsFor(table.ctp[..], producer, consumer, op, i)
      ensures forall i :: Serves(table.ctp[..], net, op, i) ==> IsFor(table.ctp[..], producer, consumer, op, i)
    {
      ghost var s := table.ctp[..];
      ghost var k :| IsFor(s, producer, consumer, op, k);
      SlotAt(s, table.subnets, producer, consumer, op, k);
      forall i | Serves(s, net, op, i) ensures i == k { ServesOnce(s, table.subnets, net, op, i, k); }
    }

    method CheckCtpReconfiguration(ghost p: Pair, ghost sent: seq<ToProducer>)
      requires IsConsumerOf(p, sent) && Words() && !stuck && (addCtp != 0 ==> IsFreeFor(Op.Receive, addCtp / 0x10000))
      modifies `addCtp, `removeCtp, `toProducer, `stuck, table.ctp
      ensures stuck <==> old(addCtp) == 0 && old(removeCtp) != 0 && old(Enabled(PairSlot(Op.Receive))) == -1
      ensures old(addCtp) != 0 ==> addCtp == 0 && removeCtp == old(removeCtp)
      ensures old(addCtp) != 0 ==> PairSlot(Op.Receive) == Some(ReceiveCtp(old(addCtp) / 0x10000, false))
      ensures old(addCtp) != 0 ==> toProducer == old(toProducer) + [SetProducer(true, old(addCtp) / 0x10000)]
      ensures old(addCtp) == 0 && old(removeCtp) != 0 && !stuck ==> PairSlot(Op.Receive) == None && removeCtp == 0
      ensures old(addCtp) == 0 && old(removeCtp) != 0 && !stuck ==>
        toProducer == old(toProducer) + [SetProducer(false, old(PairSlot(Op.Receive).value.net))]
      ensures old(addCtp) == old(removeCtp) == 0 ==>
        toProducer == old(toProducer) && table.ctp[..] == old(table.ctp[..])
      ensures IsConsumerOf(Switching.CheckCtpReconfiguration(p), sent) && Words()
    {
      if addCtp != 0 {
        AddCtpOnline(p, sent);
      } else if removeCtp != 0 {
        RemoveCtpOnline(p, sent);
      }
    }

    /** An order of the manager, for a circuit on any subnet that is free for the pair or for the packet network. */
    method SetNocSwitchingConsumer(csMode: bool, csNet: nat, ghost p: Pair, ghost sent: seq<ToProducer>)
      requires IsConsumerOf(p, sent) && Words() && !stuck && addCtp == 0 && (csMode ==> IsFreeFor(Op.Receive, csNet))
      requires p.order == Some(if csMode then ToCircuit(csNet) else ToPackets)
      modifies `addCtp, `removeCtp, `toProducer, `stuck, table.ctp
      ensures stuck <==> !waiting && !csMode && old(Enabled(PairSlot(Op.Receive))) == -1
      ensures waiting ==> addCtp == (if csMode then csNet * 0x10000 + producer else 0)
      ensures waiting ==> removeCtp == (if csMode then old(removeCtp) else producer) && toProducer == old(toProducer)
      ensures !waiting && csMode ==> PairSlot(Op.Receive) == Some(ReceiveCtp(csNet, false)) && addCtp == 0
      ensures !waiting && csMode ==> toProducer == old(toProducer) + [SetProducer(true, csNet)]
      ensures !waiting && !csMode && !stuck ==> PairSlot(Op.Receive) == None && removeCtp == 0
      ensures !waiting && !csMode && !stuck ==>
        toProducer == old(toProducer) + [SetProducer(false, old(PairSlot(Op.Receive).value.net))]
      ensures IsConsumerOf(HandleOrder(producer, p), sent) && Words()
    {
      WordHoldsNet(producer, csNet);
      if csMode { addCtp := csNet * 0x10000 + producer; } else { removeCtp := producer; }
      if !waiting {
        ghost var flagged := if csMode then p.(order := None, addCtp := csNet * 0x10000 + producer,
                                               phase := Flagged(true, csNet))
                             else p.(order := None, removeCtp := producer, phase := Flagged(false, p.phase.net));
        CheckCtpReconfiguration(flagged, sent);
      }
    }

    /** The producer has changed over: a circuit is enabled, and the manager told that the change is concluded. */
    method NocSwitchingProducerAck(csMode: bool, csNet: nat, ghost p: Pair, ghost sent: seq<ToProducer>)
      requires IsConsumerOf(p, sent) && !stuck && p.toConsumer != [] && p.toConsumer[0] == Ack(csMode, csNet)
      requires csMode && table.Has(csNet, Op.Receive) ==> p.receiveCtp.Some? && p.receiveCtp.value.net == csNet
      modifies `concluded, `stuck, table.ctp
      ensures stuck <==> csMode && !old(table.Has(csNet, Op.Receive))
      ensures csMode && !stuck ==> PairSlot(Op.Receive) == Some(ReceiveCtp(csNet, true))
      ensures !csMode || stuck ==> table.ctp[..] == old(table.ctp[..])
      ensures IsConsumerOf(HandleAtConsumer(p), sent)
      ensures !stuck ==> concluded == old(concluded) + [csMode] && HandleAtConsumer(p).phase.Settled?
    {
      if csMode {
        var index := table.GetCtp(csNet, Op.Receive);
        if index == -1 {
          if p.receiveCtp.Some? && p.receiveCtp.value.net == csNet { OwnSlotServes(Op.Receive, csNet); }
          stuck := true;
          return;
        }
        ghost var was := table.ctp[..];
        OwnSlotServes(Op.Receive, csNet);
        table.Enable(index);
        SlotSet(was, table.ctp[..], table.subnets, producer, consumer, Op.Receive, csNet, index);
      }
      concluded := concluded + [csMode];
    }

    /**
     * The consumer's message has arrived, by packet or on the subnet: the buffer is filled and a pending change is
     * made.
     */
    method HandleMessageDelivery(ghost p: Pair, ghost sent: seq<ToProducer>)
      requires IsConsumerOf(p, sent) && Words() && !stuck && (addCtp != 0 ==> IsFreeFor(Op.Receive, addCtp / 0x10000))
      modifies `waiting, `addCtp, `removeCtp, `toProducer, `stuck, table.ctp
      ensures stuck <==>
        !old(waiting) || (old(addCtp) == 0 && old(removeCtp) != 0 && old(Enabled(PairSlot(Op.Receive))) == -1)
      ensures !waiting && (!old(waiting) ==> toProducer == old(toProducer))
      ensures old(waiting) && old(addCtp) != 0 ==>
        toProducer == old(toProducer) + [SetProducer(true, old(addCtp) / 0x10000)]
      ensures old(waiting) && old(addCtp) == 0 && old(removeCtp) != 0 && !stuck ==>
        toProducer == old(toProducer) + [SetProducer(false, old(PairSlot(Op.Receive).value.net))]
      ensures old(waiting) && old(addCtp) == old(removeCtp) == 0 ==> toProducer == old(toProducer)
      ensures IsConsumerOf(Deliver(p), sent)
    {
      if !waiting {
        stuck := true;
        return;
      }
      waiting := false;
      CheckCtpReconfiguration(p.(waiting := false, place := Nowhere, received := p.received + 1), sent);
    }

    /** Receive raises the request wire of an enabled circuit, and sends a packet otherwise. */
    method SendMessageRequest(ghost p: Pair, ghost sent: seq<ToProducer>) returns (subnet: int)
      requires IsConsumerOf(p, sent)
      modifies `toProducer, `waiting
      ensures subnet == Enabled(PairSlot(Op.Receive))
      ensures toProducer == old(toProducer) + if subnet == -1 then [Request] else []
      ensures waiting && IsConsumerOf(Switching.Receive(p), sent)
      ensures Switching.Receive(p).wire == p.wire + if subnet == -1 then multiset{} else multiset{subnet}
    {
      subnet := PairSubnet(Op.Receive);
      if subnet == -1 { toProducer := toProducer + [Request]; }
      waiting := true;
    }

    // ----- producer

    method SetNocSwitchingProducer(csMode: bool, csNet: nat, ghost p: Pair, ghost sent: seq<ToConsumer>,
                                   ghost busy: bool)
      requires IsProducerOf(p, sent) && !stuck && p.toProducer != [] && p.toProducer[0] == SetProducer(csMode, csNet)
      requires if csMode then IsFreeFor(Op.Send, csNet) else table.Has(csNet, Op.Send) ==> p.sendCtp == Some(csNet)
      modifies `toConsumer, `stuck, table.ctp
      ensures stuck <==> !csMode && !old(table.Has(csNet, Op.Send))
      ensures !stuck ==> PairSlot(Op.Send) == if csMode then Some(ReceiveCtp(csNet, true)) else None
      ensures !stuck ==> toConsumer == old(toConsumer) + [Ack(csMode, if csMode then csNet else NO_SUBNET)]
      ensures IsProducerOf(HandleAtProducer(p, busy), sent) || stuck
      ensures stuck == HandleAtProducer(p, busy).stuck
    {
      ghost var was := table.ctp[..];
      if csMode {
        NoSlot(was, table.subnets, producer, consumer, Op.Send);
        var index := table.AddCtp(producer, consumer, Op.Send, csNet);
        table.Enable(index);
        SlotSet(was, table.ctp[..], table.subnets, producer, consumer, Op.Send, csNet, index);
        toConsumer := toConsumer + [Ack(true, csNet)];
      } else {
        if p.sendCtp == Some(csNet) { OwnSlotServes(Op.Send, csNet); }
        var found := table.RemoveCtp(csNet, Op.Send);
        if !found {
          stuck := true;
          return;
        }
        SlotCleared(was, table.ctp[..], producer, consumer, Op.Send, csNet);
        toConsumer := toConsumer + [Ack(false, NO_SUBNET)];
      }
    }

    /** Send answers the request on the circuit if the pair has one, and by a packet otherwise. */
    method SendMessageDelivery(ghost p: Pair, ghost sent: seq<ToConsumer>) returns (subnet: int)
      requires IsProducerOf(p, sent) && p.entries > 0
      modifies `toConsumer
      ensures subnet == Enabled(PairSlot(Op.Send))
      ensures toConsumer == old(toConsumer) + if subnet == -1 then [Delivery] else []
      ensures IsProducerOf(SendMessage(p), sent)
      ensures SendMessage(p).circuit == p.circuit + if subnet == -1 then multiset{} else multiset{subnet}
    {
      subnet := PairSubnet(Op.Send);
      if subnet == -1 { toConsumer := toConsumer + [Delivery]; }
    }
  }
}
