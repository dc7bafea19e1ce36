/**
 * A communicating pair of tasks on two processors that changes between the packet network and circuits while it runs.
 * Packets between the two processors arrive in order, and the manager gives a new order only after the last one has
 * been concluded. Each order to set up a circuit names the circuit's subnet, which need not be that of the pair's
 * earlier circuits.
 */
module Switching {
  import opened Basics

  /** What an acknowledgement of the packet network says instead of a subnet. */
  const NO_SUBNET: nat := 0xF0DAEB0A

  /** What the manager orders: a circuit on a subnet, or the packet network again. */
  datatype Order = ToCircuit(net: nat) | ToPackets

  datatype ToProducer = Request | SetProducer(cs: bool, net: nat)
  datatype ToConsumer = Delivery | Ack(cs: bool, net: nat)

  /** A receiving task pair: the producer may not have agreed yet. */
  datatype ReceiveCtp = ReceiveCtp(net: nat, enabled: bool)

  /**
   * How a change of mode stands: `cs` is the mode that is being set, or was set last, and `net` the subnet of the
   * circuit that is being set up or given up, or was last.
   */
  datatype Phase =
    | Settled(cs: bool, net: nat)
    | Ordered(cs: bool, net: nat)
    | Flagged(cs: bool, net: nat)
    | Telling(cs: bool, net: nat)
    | Acking(cs: bool, net: nat)

  /** Where the one request or delivery of the waiting consumer is. */
  datatype Place = Nowhere | Asking | Deferred | OnWire | InTable | ByPacket | ByCircuit

  /**
   * The two kernels as far as they concern the pair, what travels between them, and as history the phase, the place and
   * the counts. `wire` and `circuit` hold the subnets on which a request wire is raised or data is on its way.
   */
  datatype Pair = Pair(order: Option<Order>, addCtp: nat, removeCtp: nat, waiting: bool,
                       receiveCtp: Option<ReceiveCtp>, sendCtp: Option<nat>,
                       toProducer: seq<ToProducer>, toConsumer: seq<ToConsumer>,
                       wire: multiset<nat>, deferred: nat, entries: nat, circuit: multiset<nat>, stuck: bool,
                       phase: Phase, place: Place, sent: nat, received: nat)

  // ----- what the kernels do

  /** The consumer's kernel takes over a circuit and tells the producer. */
  function AddCtpOnline(p: Pair): Pair {
    var net := p.addCtp / 0x10000;
    p.(receiveCtp := Some(ReceiveCtp(net, false)), toProducer := p.toProducer + [SetProducer(true, net)], addCtp := 0,
       phase := Telling(true, net), stuck := p.stuck || p.receiveCtp.Some?)
  }

  /** The consumer's kernel gives a circuit up and tells the producer; it spins when the circuit is not enabled. */
  function RemoveCtpOnline(p: Pair): Pair {
    if p.receiveCtp.Some? && p.receiveCtp.value.enabled then
      p.(receiveCtp := None, toProducer := p.toProducer + [SetProducer(false, p.receiveCtp.value.net)], removeCtp := 0,
         phase := Telling(false, p.receiveCtp.value.net))
    else p.(stuck := true)
  }

  function CheckCtpReconfiguration(p: Pair): Pair {
    if p.addCtp != 0 then AddCtpOnline(p) else if p.removeCtp != 0 then RemoveCtpOnline(p) else p
  }

  /** An order reaches the consumer's kernel, which acts on it at once unless the task waits for a message. */
  function HandleOrder(producer: nat, p: Pair): Pair
    requires p.order.Some?
  {
    var flagged := match p.order.value
                   case ToCircuit(net) => p.(order := None, addCtp := net * 0x10000 + producer,
                                             phase := Flagged(true, net))
                   case ToPackets => p.(order := None, removeCtp := producer, phase := Flagged(false, p.phase.net));
    if p.waiting then flagged else CheckCtpReconfiguration(flagged)
  }

  /** Receive: by the request wire of an enabled circuit, by a packet otherwise. */
  function Receive(p: Pair): Pair {
    if p.receiveCtp.Some? && p.receiveCtp.value.enabled then
      p.(wire := p.wire + multiset{p.receiveCtp.value.net}, waiting := true, place := OnWire)
    else p.(toProducer := p.toProducer + [Request], waiting := true, place := Asking)
  }

  /** The next packet from the consumer; a request may be deferred while the producer's sender is busy. */
  function HandleAtProducer(p: Pair, busy: bool): Pair
    requires p.toProducer != []
  {
    var rest := p.(toProducer := p.toProducer[1..]);
    match p.toProducer[0]
    case Request =>
      if busy then rest.(deferred := p.deferred + 1, place := Deferred)
      else rest.(entries := p.entries + 1, place := InTable)
    case SetProducer(cs, net) =>
      if cs then
        rest.(sendCtp := Some(net), toConsumer := p.toConsumer + [Ack(true, net)], phase := Acking(true, net),
              stuck := p.stuck || p.sendCtp.Some?)
      else
        rest.(sendCtp := None, toConsumer := p.toConsumer + [Ack(false, NO_SUBNET)], phase := Acking(false, net),
              stuck := p.stuck || p.sendCtp != Some(net))
  }

  function HandleDeferred(p: Pair): Pair
    requires p.deferred > 0
  {
    p.(deferred := p.deferred - 1, entries := p.entries + 1, place := InTable)
  }

  /** The request wire of a subnet rises: without a sending pair for that subnet the kernel spins. */
  function HandleWire(p: Pair, net: nat): Pair
    requires net in p.wire
  {
    p.(wire := p.wire - multiset{net}, entries := p.entries + 1, place := InTable,
       stuck := p.stuck || p.sendCtp != Some(net))
  }

  /** Send answers the request in the table, by circuit if the producer has one. */
  function SendMessage(p: Pair): Pair
    requires p.entries > 0
  {
    var taken := p.(entries := p.entries - 1, sent := p.sent + 1);
    if p.sendCtp.Some? then taken.(circuit := p.circuit + multiset{p.sendCtp.value}, place := ByCircuit)
    else taken.(toConsumer := p.toConsumer + [Delivery], place := ByPacket)
  }

  /** The message is in the consumer's buffer; the kernel spins where the task did not wait for it. */
  function Deliver(p: Pair): Pair {
    if p.waiting then CheckCtpReconfiguration(p.(waiting := false, place := Nowhere, received := p.received + 1))
    else p.(stuck := true)
  }

  /** Data arrives on a subnet: without a receiving pair for that subnet the kernel spins. */
  function HandleCircuit(p: Pair, net: nat): Pair
    requires net in p.circuit
  {
    var taken := p.(circuit := p.circuit - multiset{net});
    if p.receiveCtp.None? || p.receiveCtp.value.net != net then taken.(stuck := true) else Deliver(taken)
  }

  function HandleAtConsumer(p: Pair): Pair
    requires p.toConsumer != []
  {
    var rest := p.(toConsumer := p.toConsumer[1..]);
    match p.toConsumer[0]
    case Delivery => Deliver(rest)
    case Ack(cs, net) =>
      if !cs then rest.(phase := Settled(false, p.phase.net))
      else if p.receiveCtp.Some? && p.receiveCtp.value.net == net then
        rest.(receiveCtp := Some(p.receiveCtp.value.(enabled := true)), phase := Settled(true, net))
      else rest.(stuck := true)
  }

  // ----- steps

  /** The manager orders the other mode once the last change is concluded, and for a circuit names any subnet. */
  ghost predicate Orders(p: Pair, p': Pair) {
    && p.phase.Settled?
    && if p.phase.cs then p' == p.(order := Some(ToPackets), phase := Ordered(false, p.phase.net))
       else exists net :: p' == p.(order := Some(ToCircuit(net)), phase := Ordered(true, net))
  }

  /** What the kernels and the producer do on their own. */
  ghost predicate Works(producer: nat, p: Pair, p': Pair) {
    && !p.stuck
    && (|| (p.order.Some? && p' == HandleOrder(producer, p))
        || (p.toProducer != [] && exists busy :: p' == HandleAtProducer(p, busy))
        || (p.deferred > 0 && p' == HandleDeferred(p))
        || (exists net :: net in p.wire && p' == HandleWire(p, net))
        || (p.entries > 0 && p' == SendMessage(p))
        || (exists net :: net in p.circuit && p' == HandleCircuit(p, net))
        || (p.toConsumer != [] && p' == HandleAtConsumer(p)))
  }

  ghost predicate Step(producer: nat, p: Pair, p': Pair) {
    Orders(p, p') || Works(producer, p, p') || (!p.stuck && !p.waiting && p' == Receive(p))
  }

  ghost predicate Init(p: Pair) {
    exists net ::
      p == Pair(None, 0, 0, false, None, None, [], [], multiset{}, 0, 0, multiset{}, false, Settled(false, net),
                Nowhere, 0, 0)
  }

  ghost predicate IsRun(producer: nat, run: seq<Pair>) {
    run != [] && Init(run[0]) && forall i :: 0 <= i < |run| - 1 ==> Step(producer, run[i], run[i + 1])
  }

  // ----- what every reachable state looks like

  /** Whether the consumer's kernel has a pair on the circuit in force: not at all, not yet enabled, or enabled. */
  function ExpectedReceiveCtp(phase: Phase): Option<ReceiveCtp> {
    match phase
    case Settled(cs, net) => if cs then Some(ReceiveCtp(net, true)) else None
    case Telling(cs, net) => if cs then Some(ReceiveCtp(net, false)) else None
    case Acking(cs, net) => if cs then Some(ReceiveCtp(net, false)) else None
    case Ordered(cs, net) => if cs then None else Some(ReceiveCtp(net, true))
    case Flagged(cs, net) => if cs then None else Some(ReceiveCtp(net, true))
  }

  /** The producer's kernel changes over when it is told. */
  function ExpectedSendCtp(phase: Phase): Option<nat> {
    var untold := phase.Ordered? || phase.Flagged? || phase.Telling?;
    if phase.cs != untold then Some(phase.net) else None
  }

  function ExpectedOrder(phase: Phase): Option<Order> {
    if !phase.Ordered? then None else Some(if phase.cs then ToCircuit(phase.net) else ToPackets)
  }

  /** The state that goes with a phase, a place and the counts. */
  function Expected(producer: nat, phase: Phase, place: Place, sent: nat, received: nat): Pair {
    Pair(ExpectedOrder(phase),
         if phase.Flagged? && phase.cs then phase.net * 0x10000 + producer else 0,
         if phase.Flagged? && !phase.cs then producer else 0,
         place != Nowhere, ExpectedReceiveCtp(phase), ExpectedSendCtp(phase),
         (if phase.Telling? then [SetProducer(phase.cs, phase.net)] else [])
         + (if place == Asking then [Request] else []),
         (if phase.Acking? then [Ack(phase.cs, if phase.cs then phase.net else NO_SUBNET)] else [])
         + (if place == ByPacket then [Delivery] else []),
         if place == OnWire then multiset{phase.net} else multiset{}, if place == Deferred then 1 else 0,
         if place == InTable then 1 else 0, if place == ByCircuit then multiset{phase.net} else multiset{}, false,
         phase, place, sent, received)
  }

  /**
   * Which places go with a phase: by circuit only while both kernels have their pair, nothing but a fresh request while
   * told.
   */
  predicate Allowed(phase: Phase, place: Place) {
    match phase
    case Telling(_, _) => place == Nowhere || place == Asking
    case Acking(cs, _) => place != OnWire && place != (if cs then ByPacket else ByCircuit)
    case Settled(cs, _) => if cs then place != ByPacket else place != OnWire && place != ByCircuit
    case Ordered(cs, _) => if cs then place != OnWire && place != ByCircuit else place != ByPacket
    case Flagged(cs, _) => place != Nowhere && if cs then place != OnWire && place != ByCircuit else place != ByPacket
  }

  ghost predicate Inv(producer: nat, p: Pair) {
    && Allowed(p.phase, p.place) && p == Expected(producer, p.phase, p.place, p.sent, p.received)
    && p.sent == p.received + if p.place == ByPacket || p.place == ByCircuit then 1 else 0
  }

  /** The mode and the subnet that are being set are as before. */
  ghost predicate SameAim(p: Pair, p': Pair) {
    (p'.phase.cs, p'.phase.net) == (p.phase.cs, p.phase.net)
  }

  lemma OrdersKeeps(producer: nat, p: Pair, p': Pair)
    requires Inv(producer, p) && Orders(p, p')
    ensures Inv(producer, p') && p'.phase.Ordered? && (p'.phase.cs ==> p'.order == Some(ToCircuit(p'.phase.net)))
  {
  }

  /** The word in the task control block gives back the subnet, and is never mistaken for none. */
  lemma WordHoldsNet(producer: nat, net: nat)
    requires 0 < producer < 0x10000
    ensures (net * 0x10000 + producer) / 0x10000 == net && (net * 0x10000 + producer) % 0x10000 == producer
    ensures net * 0x10000 + producer != 0
  {
  }

  lemma ReconfigurationKeeps(producer: nat, p: Pair)
    requires 0 < producer < 0x10000 && p.place == Nowhere && p.sent == p.received
    requires if p.phase.Flagged? then p == Expected(producer, p.phase, Nowhere, p.sent, p.received)
             else Inv(producer, p)
    ensures Inv(producer, CheckCtpReconfiguration(p)) && SameAim(p, CheckCtpReconfiguration(p))
  {
    WordHoldsNet(producer, p.phase.net);
  }

  lemma DeliverKeeps(producer: nat, p: Pair, q: Pair)
    requires 0 < producer < 0x10000 && Inv(producer, p) && (p.place == ByPacket || p.place == ByCircuit)
    requires q == p.(toConsumer := if p.phase.Acking? then
                       [Ack(p.phase.cs, if p.phase.cs then p.phase.net else NO_SUBNET)] else [],
                     circuit := multiset{})
    ensures Inv(producer, Deliver(q)) && SameAim(p, Deliver(q))
  {
    ReconfigurationKeeps(producer, q.(waiting := false, place := Nowhere, received := q.received + 1));
  }

  lemma OrderKeeps(producer: nat, p: Pair)
    requires 0 < producer < 0x10000 && Inv(producer, p) && p.order.Some?
    ensures Inv(producer, HandleOrder(producer, p)) && SameAim(p, HandleOrder(producer, p))
  {
    WordHoldsNet(producer, p.phase.net);
  }

  lemma ProducerKeeps(producer: nat, p: Pair, busy: bool)
    requires Inv(producer, p) && p.toProducer != []
    ensures Inv(producer, HandleAtProducer(p, busy)) && SameAim(p, HandleAtProducer(p, busy))
  {
    if p.phase.Telling? {
      assert p.toProducer[1..] == if p.place == Asking then [Request] else [];
    } else {
      assert p.place == Asking && p.toProducer[1..] == [];
    }
  }

  lemma SendKeeps(producer: nat, p: Pair)
    requires Inv(producer, p) && p.entries > 0
    ensures Inv(producer, SendMessage(p)) && SameAim(p, SendMessage(p))
  {
    assert p.place == InTable;
    assert p.sendCtp.Some? ==> p.circuit + multiset{p.sendCtp.value} == multiset{p.phase.net};
  }

  lemma DeferredKeeps(producer: nat, p: Pair)
    requires Inv(producer, p) && p.deferred > 0
    ensures Inv(producer, HandleDeferred(p)) && SameAim(p, HandleDeferred(p))
  {
    assert p.place == Deferred;
  }

  lemma ReceiveKeeps(producer: nat, p: Pair)
    requires Inv(producer, p) && !p.waiting
    ensures Inv(producer, Receive(p)) && SameAim(p, Receive(p))
  {
    assert p.place == Nowhere && p.wire + multiset{p.phase.net} == multiset{p.phase.net};
  }

  lemma WireKeeps(producer: nat, p: Pair, net: nat)
    requires Inv(producer, p) && net in p.wire
    ensures Inv(producer, HandleWire(p, net)) && SameAim(p, HandleWire(p, net))
  {
    assert p.wire == multiset{p.phase.net} && net == p.phase.net && p.wire - multiset{net} == multiset{};
  }

  lemma ConsumerKeeps(producer: nat, p: Pair)
    requires 0 < producer < 0x10000 && Inv(producer, p)
    ensures p.toConsumer != [] ==> Inv(producer, HandleAtConsumer(p)) && SameAim(p, HandleAtConsumer(p))
  {
    if p.toConsumer != [] && p.toConsumer[0] == Delivery {
      DeliverKeeps(producer, p, p.(toConsumer := p.toConsumer[1..]));
    }
  }

  lemma CircuitKeeps(producer: nat, p: Pair, net: nat)
    requires 0 < producer < 0x10000 && Inv(producer, p) && net in p.circuit
    ensures Inv(producer, HandleCircuit(p, net)) && SameAim(p, HandleCircuit(p, net))
  {
    assert p.circuit == multiset{p.phase.net} && net == p.phase.net && p.circuit - multiset{net} == multiset{};
    DeliverKeeps(producer, p, p.(circuit := multiset{}));
  }

  /** Every step keeps the invariant, and only an order changes the mode and the subnet that are being set. */
  lemma StepKeeps(producer: nat, p: Pair, p': Pair)
    requires 0 < producer < 0x10000 && Inv(producer, p) && Step(producer, p, p')
    ensures Inv(producer, p')
    ensures Orders(p, p') ==> p'.phase.Ordered? && (p'.phase.cs ==> p'.order == Some(ToCircuit(p'.phase.net)))
    ensures !Orders(p, p') ==> SameAim(p, p')
  {
    hide Inv, Orders, HandleOrder, HandleAtProducer, HandleDeferred, HandleWire, SendMessage, HandleCircuit,
      HandleAtConsumer, Receive;
    if Orders(p, p') {
      OrdersKeeps(producer, p, p');
    } else {
      if p.order.Some? { OrderKeeps(producer, p); }
      if p.toProducer != [] {
        ProducerKeeps(producer, p, true);
        ProducerKeeps(producer, p, false);
      }
      if p.entries > 0 { SendKeeps(producer, p); }
      if p.deferred > 0 { DeferredKeeps(producer, p); }
      if !p.waiting { ReceiveKeeps(producer, p); }
      if net :| net in p.wire && p' == HandleWire(p, net) { WireKeeps(producer, p, net); }
      if net :| net in p.circuit && p' == HandleCircuit(p, net) { CircuitKeeps(producer, p, net); }
      ConsumerKeeps(producer, p);
    }
  }

  lemma {:induction false} RunKeeps(producer: nat, run: seq<Pair>, n: nat)
    requires 0 < producer < 0x10000 && IsRun(producer, run) && n < |run|
    ensures Inv(producer, run[n])
  {
    if n > 0 {
      hide Inv, Step, Init;
      RunKeeps(producer, run, n - 1);
      assert Step(producer, run[n - 1], run[n - 1 + 1]);
      StepKeeps(producer, run[n - 1], run[n]);
    }
  }

  /**
   * Main result: in every run, whatever subnets the orders name, no error loop is entered. Data that arrives on a
   * subnet finds a receiving pair for that very subnet and a waiting consumer, a request wire that rises on a subnet
   * finds a sending pair for it, and there is never more than one message or request under way.
   */
  lemma NothingIsStranded(producer: nat, run: seq<Pair>, n: nat)
    requires 0 < producer < 0x10000 && IsRun(producer, run) && n < |run|
    ensures var p := run[n];
      && !p.stuck
      && (forall net :: net in p.circuit ==> p.waiting && p.receiveCtp.Some? && p.receiveCtp.value.net == net)
      && (forall net :: net in p.wire ==> p.waiting && p.sendCtp == Some(net))
      && (Delivery in p.toConsumer ==> p.waiting)
    ensures var p := run[n];
      |p.wire| + p.deferred + p.entries + |p.circuit| + Requests(p.toProducer) + Deliveries(p.toConsumer) ==
      if p.waiting then 1 else 0
    ensures var p := run[n]; p.received <= p.sent <= p.received + 1
  {
    RunKeeps(producer, run, n);
    var p := run[n];
    CountOnly(p.toProducer, p.toConsumer, if p.phase.Telling? then [SetProducer(p.phase.cs, p.phase.net)] else [],
              if p.phase.Acking? then [Ack(p.phase.cs, if p.phase.cs then p.phase.net else NO_SUBNET)] else []);
  }

  lemma CountOnly(s: seq<ToProducer>, t: seq<ToConsumer>, first: seq<ToProducer>, ahead: seq<ToConsumer>)
    requires |first| <= 1 && |ahead| <= 1 && Request !in first && Delivery !in ahead
    ensures s == first ==> Requests(s) == 0
    ensures s == first + [Request] ==> Requests(s) == 1
    ensures t == ahead ==> Deliveries(t) == 0
    ensures t == ahead + [Delivery] ==> Deliveries(t) == 1
  {
    assert Requests([Request]) == 1 && Deliveries([Delivery]) == 1;
    if |first| == 1 { assert first[1..] == [] && (first + [Request])[1..] == [Request]; }
    if |ahead| == 1 { assert ahead[1..] == [] && (ahead + [Delivery])[1..] == [Delivery]; }
  }

  function Requests(s: seq<ToProducer>): nat {
    if s == [] then 0 else (if s[0] == Request then 1 else 0) + Requests(s[1..])
  }

  function Deliveries(s: seq<ToConsumer>): nat {
    if s == [] then 0 else (if s[0] == Delivery then 1 else 0) + Deliveries(s[1..])
  }

  /**
   * Main result: when a change has been concluded the two kernels agree on the mode, and on the subnet last ordered.
   */
  lemma KernelsAgree(producer: nat, run: seq<Pair>, n: nat)
    requires 0 < producer < 0x10000 && IsRun(producer, run) && n < |run| && run[n].phase.Settled?
    ensures var p := run[n]; p.sendCtp == if p.phase.cs then Some(p.phase.net) else None
    ensures var p := run[n]; p.receiveCtp == if p.phase.cs then Some(ReceiveCtp(p.phase.net, true)) else None
  {
    RunKeeps(producer, run, n);
  }

  // ----- which network a message takes

  /** The subnet that the last order for a circuit named. */
  ghost function LastOrdered(run: seq<Pair>, n: nat): nat
    requires n < |run|
  {
    var order := run[n].order;
    if order.Some? && order.value.ToCircuit? then order.value.net
    else if n == 0 then run[0].phase.net
    else LastOrdered(run, n - 1)
  }

  lemma {:induction false} PhaseRemembersOrder(producer: nat, run: seq<Pair>, n: nat)
    requires 0 < producer < 0x10000 && IsRun(producer, run) && n < |run|
    ensures run[n].phase.net == LastOrdered(run, n)
  {
    hide Inv, Step, Init, Orders;
    RunKeeps(producer, run, n);
    PendingOrder(producer, run[n]);
    if n > 0 {
      PhaseRemembersOrder(producer, run, n - 1);
      RunKeeps(producer, run, n - 1);
      assert Step(producer, run[n - 1], run[n - 1 + 1]);
      StepKeeps(producer, run[n - 1], run[n]);
      if Orders(run[n - 1], run[n]) { OrderNamesNet(run[n - 1], run[n]); }
    }
  }

  lemma PendingOrder(producer: nat, p: Pair)
    requires Inv(producer, p)
    ensures p.order.Some? && p.order.value.ToCircuit? ==> p.order.value.net == p.phase.net
  {
  }

  lemma OrderNamesNet(p: Pair, p': Pair)
    requires Orders(p, p')
    ensures p'.order.Some? && (p'.order.value.ToPackets? ==> p'.phase.net == p.phase.net)
  {
  }

  /**
   * Main result: in every run a Receive raises the request wire of exactly the subnet last ordered, and sends no
   * packet, from when the change to the circuit is concluded until the kernel acts on the next order; otherwise it
   * sends exactly one packet and raises no wire.
   */
  lemma ReceiveTakesTheCircuit(producer: nat, run: seq<Pair>, n: nat)
    requires 0 < producer < 0x10000 && IsRun(producer, run) && n < |run| && !run[n].waiting
    ensures var (p, q) := (run[n], Receive(run[n]));
      q.waiting && q.sent == p.sent && q.received == p.received &&
      if (p.phase.Settled? && p.phase.cs) || (p.phase.Ordered? && !p.phase.cs)
      then q.wire == multiset{LastOrdered(run, n)} && q.toProducer == p.toProducer
      else q.wire == multiset{} && q.toProducer == p.toProducer + [Request]
  {
    RunKeeps(producer, run, n);
    PhaseRemembersOrder(producer, run, n);
    assert run[n].wire + multiset{run[n].phase.net} == multiset{run[n].phase.net};
  }

  /**
   * Main result: in every run the message goes by exactly the subnet last ordered from when the producer has taken the
   * circuit over until it has given it up, and by packet otherwise.
   */
  lemma SendTakesTheCircuit(producer: nat, run: seq<Pair>, n: nat)
    requires 0 < producer < 0x10000 && IsRun(producer, run) && n < |run| && run[n].entries > 0
    ensures var (p, q) := (run[n], SendMessage(run[n]));
      q.entries == 0 && q.sent == p.sent + 1 && q.received == p.received &&
      if p.phase.cs == (p.phase.Settled? || p.phase.Acking?)
      then q.circuit == multiset{LastOrdered(run, n)} && q.toConsumer == p.toConsumer
      else q.circuit == multiset{} && q.toConsumer == p.toConsumer + [Delivery]
  {
    RunKeeps(producer, run, n);
    PhaseRemembersOrder(producer, run, n);
    assert run[n].circuit + multiset{run[n].phase.net} == multiset{run[n].phase.net};
  }

  /**
   * In every run the one request that arrives goes into the producer's table at once, unless its sender is busy, and
   * then it is the only one deferred.
   */
  lemma RequestIsTaken(producer: nat, run: seq<Pair>, n: nat, busy: bool)
    requires 0 < producer < 0x10000 && IsRun(producer, run) && n < |run|
    requires run[n].toProducer != [] && run[n].toProducer[0] == Request
    ensures var q := HandleAtProducer(run[n], busy);
      q.toProducer == [] && (q.deferred, q.entries) == (if busy then (1, 0) else (0, 1))
  {
    RunKeeps(producer, run, n);
  }

  // ----- progress

  function PlaceWeight(place: Place): nat {
    match place
    case Nowhere => 0
    case ByPacket => 3
    case ByCircuit => 4
    case InTable => 6
    case Deferred => 8
    case OnWire => 8
    case Asking => 9
  }

  function Weight(p: Pair): nat {
    3 * |p.toProducer| + |p.toConsumer| + PlaceWeight(p.place)
  }

  /** The message of a waiting consumer arrives. */
  lemma ArrivalAdvances(producer: nat, p: Pair) returns (p': Pair)
    requires Inv(producer, p) && (p.place == ByCircuit || p.place == ByPacket)
    ensures Works(producer, p, p') && Weight(p') < Weight(p)
  {
    if p.place == ByCircuit {
      assert p.phase.net in p.circuit;
      p' := HandleCircuit(p, p.phase.net);
    } else {
      p' := HandleAtConsumer(p);
    }
  }

  /**
   * Main result: a waiting consumer is never stuck; the kernels or the producer can always take a step that brings its
   * message nearer.
   */
  lemma MessageAdvances(producer: nat, run: seq<Pair>, n: nat) returns (p': Pair)
    requires 0 < producer < 0x10000 && IsRun(producer, run) && n < |run| && run[n].waiting
    ensures Works(producer, run[n], p') && Weight(p') < Weight(run[n])
  {
    hide Deliver, HandleOrder, Init, Step;
    RunKeeps(producer, run, n);
    var p := run[n];
    if p.toProducer != [] {
      p' := HandleAtProducer(p, false);
    } else if p.deferred > 0 {
      p' := HandleDeferred(p);
    } else if p.place == OnWire {
      assert p.phase.net in p.wire;
      p' := HandleWire(p, p.phase.net);
    } else if p.entries > 0 {
      p' := SendMessage(p);
    } else {
      p' := ArrivalAdvances(producer, p);
    }
  }

  // ----- the flag words

  /** A task's number is that of its application, which start at 1, and that of the task in it. */
  function TaskNumber(app: nat, task: nat): (number: nat)
    requires 1 <= app < 0x100 && task < 0x100
    ensures 0 < number < 0x10000
  {
    app * 0x100 + task
  }

  /** An order takes effect exactly when its flag word is not zero; a user task's number never makes it zero. */
  lemma OrderTakesEffect(producer: nat, p: Pair)
    requires producer < 0x10000 && p.order.Some? && !p.waiting && !p.stuck && p.addCtp == 0 && p.removeCtp == 0
    ensures var word := if p.order.value.ToCircuit? then p.order.value.net * 0x10000 + producer else producer;
      HandleOrder(producer, p).toProducer == p.toProducer && !HandleOrder(producer, p).stuck <==> word == 0
  {
  }
}
