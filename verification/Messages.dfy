/**
 * Tasks on many processors talking over the packet network while some of them move from processor to processor. This
 * module is what the kernels do while every task stays where it is; Mobility adds the moves.
 */
module Messages {
  import opened Basics
  import opened RequestTable
  import opened Processor
  import opened Whereabouts

  /**
   * Which application each task belongs to, the sizes of the kernels' request and location tables, and where the tasks
   * are at the moment: the present host and the former ones of each, and the host that each processor's location entry
   * for it names. A task that is `leaving` has its code at the new host already, and one that is `arriving` has left
   * its old host but does not run yet.
   */
  datatype Config = Config(app: seq<nat>, processors: nat, size: nat, locations: nat, maxLocalTasks: nat,
                           maxTasksApp: nat,
                           host: seq<nat>, past: seq<seq<nat>>, entry: seq<map<nat, nat>>, leaving: map<nat, nat>,
                           arriving: set<nat>)

  ghost predicate Fits(cfg: Config) {
    && |cfg.host| == |cfg.app| == |cfg.past| == |cfg.entry|
    && forall t :: 0 <= t < |cfg.host| ==> cfg.host[t] < cfg.processors
  }

  function WorldOf(cfg: Config, t: nat): World
    requires t < |cfg.host| == |cfg.past| == |cfg.entry|
  {
    World(cfg.past[t] + [cfg.host[t]], cfg.entry[t])
  }

  /** Whether processor i has a control block for task t: it runs here, or its code has come here already. */
  predicate HasTcb(cfg: Config, i: nat, t: nat) {
    t < |cfg.host| && (cfg.host[t] == i || (t in cfg.leaving && cfg.leaving[t] == i))
  }

  /** The location entries are sound, and moves go to other processors, one at a time. */
  ghost predicate Located(cfg: Config) {
    && Fits(cfg)
    && (forall t: nat :: t < |cfg.host| ==> IsSound(WorldOf(cfg, t)) && forall h :: h in cfg.past[t] ==>
      h < cfg.processors)
    && (forall t :: t in cfg.leaving ==>
      t < |cfg.host| && cfg.leaving[t] < cfg.processors && cfg.leaving[t] != cfg.host[t] && t !in cfg.arriving)
    && (forall t :: t in cfg.arriving ==> t < |cfg.host|)
  }

  /** Where the one request or delivery of a waiting consumer is; a request is carried while its producer moves. */
  datatype Place = Nowhere | OnTheWire(to: nat) | Deferred(at: nat) | InTable(at: nat) | Carried | Delivering(payload: int)

  /**
   * The kernels, the packets in flight, the requests deferred while a sender was busy, the requests that travel with
   * each arriving task, and as history what every task has sent and received and where each consumer's request is.
   */
  datatype System = System(kernels: seq<Kernel>, net: multiset<Packet>, pending: multiset<Packet>,
                           carried: seq<multiset<Request>>,
                           sent: map<(nat, nat), seq<int>>, received: map<(nat, nat), seq<int>>, place: seq<Place>)

  function Log(log: map<(nat, nat), seq<int>>, p: nat, c: nat): seq<int> {
    if (p, c) in log then log[(p, c)] else []
  }

  function Append(log: map<(nat, nat), seq<int>>, p: nat, c: nat, payload: int): map<(nat, nat), seq<int>> {
    log[(p, c) := Log(log, p, c) + [payload]]
  }

  ghost predicate Shaped(cfg: Config, s: System) {
    Fits(cfg) && |s.kernels| == cfg.processors && |s.place| == |s.carried| == |cfg.host|
  }

  ghost predicate IsPair(cfg: Config, p: nat, c: nat) {
    p < |cfg.host| && c < |cfg.host| && |cfg.app| == |cfg.host| && cfg.app[p] == cfg.app[c] && p != c
  }

  function KernelOf(cfg: Config, s: System, t: nat): Kernel
    requires Shaped(cfg, s) && t < |cfg.host|
  {
    s.kernels[cfg.host[t]]
  }

  /** A task runs unless it waits for a message or is still arriving. */
  predicate Runs(cfg: Config, s: System, t: nat)
    requires Shaped(cfg, s) && t < |cfg.host|
  {
    t !in KernelOf(cfg, s, t).waiting && !KernelOf(cfg, s, t).stuck && t !in cfg.arriving
  }

  // ----- steps

  ghost predicate SendStep(cfg: Config, s: System, s': System, p: nat, c: nat, payload: int, busy: bool, how: Sending,
                           k': Kernel)
    requires Shaped(cfg, s)
  {
    && IsPair(cfg, p, c) && Runs(cfg, s, p)
    && Sends(KernelOf(cfg, s, p), k', cfg.host[p], p, c, payload, busy, how)
    && var moved := s.(kernels := s.kernels[cfg.host[p] := k']);
    && s' == match how
             case NotYet => moved
             case WroteLocally => moved.(sent := Append(s.sent, p, c, payload),
                                         received := Append(s.received, p, c, payload),
                                         place := s.place[c := Nowhere])
             case SentTo(packet) => moved.(sent := Append(s.sent, p, c, payload), net := s.net + multiset{packet},
                                           place := s.place[c := Delivering(payload)])
  }

  /** The request goes where the location entry of the consumer's kernel says, if it has one. */
  ghost predicate ReceiveStep(cfg: Config, s: System, s': System, p: nat, c: nat, busy: bool, k': Kernel,
                              out: Option<Packet>)
    requires Shaped(cfg, s)
  {
    && IsPair(cfg, p, c) && Runs(cfg, s, c)
    && var location := LocationAt(WorldOf(cfg, p), cfg.host[c]);
    && Receives(KernelOf(cfg, s, c), k', cfg.host[c], cfg.size, p, c, location, busy, out)
    && var moved := s.(kernels := s.kernels[cfg.host[c] := k']);
    && s' == if busy || location == -1 then moved
             else match out
                  case None => moved.(place := s.place[c := InTable(cfg.host[c])])
                  case Some(packet) => moved.(net := s.net + multiset{packet},
                                              place := s.place[c := OnTheWire(packet.to)])
  }

  ghost predicate IsRequestFor(cfg: Config, s: System, pkt: Packet)
    requires Shaped(cfg, s)
  {
    pkt.RequestPacket? && pkt.producer < |cfg.host| && pkt.consumer < |cfg.host| && pkt.to < cfg.processors
  }

  /** The packet is taken from the network, or from the deferred requests. */
  ghost function Taken(s: System, pkt: Packet): System {
    if pkt in s.net then s.(net := s.net - multiset{pkt}) else s.(pending := s.pending - multiset{pkt})
  }

  /** A request reaches a kernel that has the producer, straight from the network or after having been deferred. */
  ghost predicate RequestStep(cfg: Config, s: System, s': System, pkt: Packet)
    requires Shaped(cfg, s)
  {
    && IsRequestFor(cfg, s, pkt) && (pkt in s.net || pkt in s.pending) && HasTcb(cfg, pkt.to, pkt.producer)
    && s' == Taken(s, pkt).(kernels := s.kernels[pkt.to :=
                              Inserted(s.kernels[pkt.to], cfg.size, Request(pkt.consumer, pkt.producer, pkt.proc))],
                            place := s.place[pkt.consumer := InTable(pkt.to)])
  }

  function Readdressed(pkt: Packet, to: nat): Packet
    requires pkt.RequestPacket?
  {
    RequestPacket(pkt.producer, pkt.consumer, pkt.proc, to)
  }

  /** The producer has left this kernel, which passes the request on; without a location other than itself it spins. */
  ghost predicate PassStep(cfg: Config, s: System, s': System, pkt: Packet)
    requires Shaped(cfg, s)
  {
    && IsRequestFor(cfg, s, pkt) && (pkt in s.net || pkt in s.pending) && !HasTcb(cfg, pkt.to, pkt.producer)
    && var location := LocationAt(WorldOf(cfg, pkt.producer), pkt.to);
    && s' == if location == -1 || location == pkt.to then
               Taken(s, pkt).(kernels := s.kernels[pkt.to := s.kernels[pkt.to].(stuck := true)])
             else
               Taken(s, pkt).(net := Taken(s, pkt).net + multiset{Readdressed(pkt, location)},
                              place := s.place[pkt.consumer := OnTheWire(location)])
  }

  /** A request arrives while the sender is busy and is put off. */
  ghost predicate DeferStep(cfg: Config, s: System, s': System, pkt: Packet)
    requires Shaped(cfg, s)
  {
    && IsRequestFor(cfg, s, pkt) && pkt in s.net
    && s' == s.(net := s.net - multiset{pkt}, pending := s.pending + multiset{pkt},
                place := s.place[pkt.consumer := Deferred(pkt.to)])
  }

  ghost predicate DeliveryStep(cfg: Config, s: System, s': System, pkt: Packet)
    requires Shaped(cfg, s)
  {
    && pkt.DeliveryPacket? && pkt in s.net && pkt.consumer < |cfg.host| && pkt.to == cfg.host[pkt.consumer]
    && s' == s.(kernels := s.kernels[pkt.to := Filled(s.kernels[pkt.to], pkt.consumer)], net := s.net - multiset{pkt},
                received := Append(s.received, pkt.producer, pkt.consumer, pkt.payload),
                place := s.place[pkt.consumer := Nowhere])
  }

  ghost predicate Works(cfg: Config, s: System, s': System) {
    && Shaped(cfg, s)
    && (|| (exists p, c, payload, busy, how, k' :: SendStep(cfg, s, s', p, c, payload, busy, how, k'))
        || (exists p, c, busy, k', out :: ReceiveStep(cfg, s, s', p, c, busy, k', out))
        || (exists pkt :: RequestStep(cfg, s, s', pkt))
        || (exists pkt :: PassStep(cfg, s, s', pkt))
        || (exists pkt :: DeferStep(cfg, s, s', pkt))
        || (exists pkt :: DeliveryStep(cfg, s, s', pkt)))
  }

  // ----- the invariant

  /** Consumer c waits for producer p, and its request or delivery is at the given place. */
  ghost predicate Awaits(cfg: Config, s: System, p: nat, c: nat)
    requires Shaped(cfg, s)
  {
    c < |cfg.host| && c in KernelOf(cfg, s, c).waiting && KernelOf(cfg, s, c).waiting[c] == p
  }

  ghost predicate IsFlying(cfg: Config, s: System, pkt: Packet)
    requires Shaped(cfg, s)
  {
    && IsPair(cfg, pkt.producer, pkt.consumer) && Awaits(cfg, s, pkt.producer, pkt.consumer)
    && match pkt
       case RequestPacket(p, c, proc, to) => s.place[c] == OnTheWire(to) && IsWire(cfg, pkt)
       case DeliveryPacket(p, c, payload, to) => s.place[c] == Delivering(payload) && to == cfg.host[c]
  }

  ghost predicate IsWire(cfg: Config, pkt: Packet)
    requires pkt.producer < |cfg.host| && pkt.consumer < |cfg.host|
  {
    pkt.RequestPacket? && pkt.proc == cfg.host[pkt.consumer]
  }

  ghost predicate IsPending(cfg: Config, s: System, pkt: Packet)
    requires Shaped(cfg, s)
  {
    && IsPair(cfg, pkt.producer, pkt.consumer) && Awaits(cfg, s, pkt.producer, pkt.consumer)
    && s.place[pkt.consumer] == Deferred(pkt.to) && IsWire(cfg, pkt)
  }

  ghost predicate IsEntry(cfg: Config, s: System, i: nat, r: Request)
    requires Shaped(cfg, s)
  {
    && r.requester >= 0 && r.requested >= 0 && IsPair(cfg, r.requested, r.requester)
    && Awaits(cfg, s, r.requested, r.requester)
    && s.place[r.requester] == InTable(i) && r.proc == cfg.host[r.requester]
  }

  /** A request that travels with its producer. */
  ghost predicate IsCarried(cfg: Config, s: System, t: nat, r: Request)
    requires Shaped(cfg, s)
  {
    && r.requester >= 0 && r.requested == t && IsPair(cfg, t, r.requester) && Awaits(cfg, s, t, r.requester)
    && s.place[r.requester] == Carried && r.proc == cfg.host[r.requester]
  }

  /**
   * Whether a request for p can be at the place: on its way to a host of p, in a table where p is known, or with p
   * itself.
   */
  predicate FitsPlace(cfg: Config, p: nat, place: Place)
    requires Fits(cfg) && p < |cfg.host|
  {
    match place
    case OnTheWire(to) => to in WorldOf(cfg, p).hosts
    case Deferred(at) => at in WorldOf(cfg, p).hosts
    case InTable(at) => HasTcb(cfg, at, p)
    case Carried => p in cfg.arriving
    case _ => true
  }

  /** Every kernel waits for producers of its own consumers' applications, and spins nowhere. */
  ghost predicate KernelsInv(cfg: Config, s: System)
    requires Shaped(cfg, s)
  {
    forall i :: 0 <= i < |s.kernels| ==>
      && !s.kernels[i].stuck
      && forall c :: c in s.kernels[i].waiting ==>
        c < |cfg.host| && cfg.host[c] == i && IsPair(cfg, s.kernels[i].waiting[c], c)
  }

  ghost predicate PlaceInv(cfg: Config, s: System)
    requires Shaped(cfg, s)
  {
    forall c: nat :: c < |cfg.host| ==> (s.place[c] == Nowhere <==> c !in KernelOf(cfg, s, c).waiting)
  }

  ghost predicate NetInv(cfg: Config, s: System)
    requires Shaped(cfg, s)
  {
    && (forall pkt :: s.net[pkt] == if IsFlying(cfg, s, pkt) then 1 else 0)
    && (forall pkt :: s.pending[pkt] == if IsPending(cfg, s, pkt) then 1 else 0)
  }

  ghost predicate TablesInv(cfg: Config, s: System)
    requires Shaped(cfg, s)
  {
    forall i: nat, r: Request :: i < |s.kernels| ==> s.kernels[i].table[r] == if IsEntry(cfg, s, i, r) then 1 else 0
  }

  ghost predicate CarriedInv(cfg: Config, s: System)
    requires Shaped(cfg, s)
  {
    forall t: nat, r: Request :: t < |s.carried| ==> s.carried[t][r] == if IsCarried(cfg, s, t, r) then 1 else 0
  }

  ghost predicate AimInv(cfg: Config, s: System)
    requires Shaped(cfg, s)
  {
    forall p: nat, c: nat :: Awaits(cfg, s, p, c) && p < |cfg.host| ==> FitsPlace(cfg, p, s.place[c])
  }

  /** What is on its way from p to c. */
  ghost function Underway(cfg: Config, s: System, p: nat, c: nat): seq<int>
    requires Shaped(cfg, s)
  {
    if c < |cfg.host| && Awaits(cfg, s, p, c) && s.place[c].Delivering? then [s.place[c].payload] else []
  }

  ghost predicate LogInv(cfg: Config, s: System)
    requires Shaped(cfg, s)
  {
    forall p: nat, c: nat :: Log(s.sent, p, c) == Log(s.received, p, c) + Underway(cfg, s, p, c)
  }

  ghost predicate Inv(cfg: Config, s: System) {
    && Shaped(cfg, s) && Located(cfg)
    && KernelsInv(cfg, s) && PlaceInv(cfg, s) && NetInv(cfg, s) && TablesInv(cfg, s) && LogInv(cfg, s)
    && CarriedInv(cfg, s) && AimInv(cfg, s)
  }

  // ----- every step concerns one consumer

  /** Two systems differ only in what consumer c waits for and where its request or delivery is. */
  ghost predicate OnlyFor(cfg: Config, s: System, s': System, c: nat)
    requires Shaped(cfg, s) && Shaped(cfg, s')
  {
    && (forall d: nat :: d < |cfg.host| && d != c ==> s'.place[d] == s.place[d])
    && (forall p: nat, d: nat :: d != c ==> (Awaits(cfg, s', p, d) <==> Awaits(cfg, s, p, d)))
  }

  /** The packets for c are right, and all others are untouched. */
  lemma NetFrame(cfg: Config, s: System, s': System, c: nat)
    requires Shaped(cfg, s) && Shaped(cfg, s') && OnlyFor(cfg, s, s', c) && NetInv(cfg, s)
    requires forall pkt: Packet :: pkt.consumer != c ==> s'.net[pkt] == s.net[pkt] && s'.pending[pkt] == s.pending[pkt]
    requires forall pkt: Packet :: pkt.consumer == c ==> s'.net[pkt] == if IsFlying(cfg, s', pkt) then 1 else 0
    requires forall pkt: Packet :: pkt.consumer == c ==> s'.pending[pkt] == if IsPending(cfg, s', pkt) then 1 else 0
    ensures NetInv(cfg, s')
  {
    forall pkt ensures s'.net[pkt] == if IsFlying(cfg, s', pkt) then 1 else 0 {
      assert s.net[pkt] == if IsFlying(cfg, s, pkt) then 1 else 0;
    }
    forall pkt ensures s'.pending[pkt] == if IsPending(cfg, s', pkt) then 1 else 0 {
      assert s.pending[pkt] == if IsPending(cfg, s, pkt) then 1 else 0;
    }
  }

  /** The entries for c are right, and all others are untouched. */
  lemma TablesFrame(cfg: Config, s: System, s': System, c: nat)
    requires Shaped(cfg, s) && Shaped(cfg, s') && OnlyFor(cfg, s, s', c) && TablesInv(cfg, s)
    requires forall i: nat, r: Request :: i < |s.kernels| && r.requester != c ==>
      s'.kernels[i].table[r] == s.kernels[i].table[r]
    requires forall i: nat, r: Request :: i < |s.kernels| && r.requester == c ==>
      s'.kernels[i].table[r] == (if IsEntry(cfg, s', i, r) then 1 else 0)
    ensures TablesInv(cfg, s')
  {
    forall i: nat, r: Request | i < |s'.kernels|
      ensures s'.kernels[i].table[r] == if IsEntry(cfg, s', i, r) then 1 else 0
    {
      assert s.kernels[i].table[r] == if IsEntry(cfg, s, i, r) then 1 else 0;
    }
  }

  /** What is under way to consumers other than c is as before. */
  lemma LogFrame(cfg: Config, s: System, s': System, p: nat, c: nat)
    requires Shaped(cfg, s) && Shaped(cfg, s') && OnlyFor(cfg, s, s', c) && LogInv(cfg, s)
    requires forall q: nat, d: nat :: d != c || q != p ==>
      Log(s'.sent, q, d) == Log(s.sent, q, d) && Log(s'.received, q, d) == Log(s.received, q, d)
    requires forall q: nat :: q != p ==> Underway(cfg, s', q, c) == Underway(cfg, s, q, c)
    requires Log(s'.sent, p, c) == Log(s'.received, p, c) + Underway(cfg, s', p, c)
    ensures LogInv(cfg, s')
  {
    hide Log;
    forall q: nat, d: nat ensures Log(s'.sent, q, d) == Log(s'.received, q, d) + Underway(cfg, s', q, d) {
      if d != c { assert Underway(cfg, s', q, d) == Underway(cfg, s, q, d); }
    }
  }

  /** What travels with the moving tasks is untouched, and the request of c is where it can be. */
  lemma RestFrame(cfg: Config, s: System, s': System, c: nat)
    requires Shaped(cfg, s) && Shaped(cfg, s') && OnlyFor(cfg, s, s', c) && CarriedInv(cfg, s) && AimInv(cfg, s)
    requires c < |cfg.host|
    requires s'.carried == s.carried && !s.place[c].Carried? && !s'.place[c].Carried?
    requires forall p: nat :: Awaits(cfg, s', p, c) && p < |cfg.host| ==> FitsPlace(cfg, p, s'.place[c])
    ensures CarriedInv(cfg, s') && AimInv(cfg, s')
  {
    hide FitsPlace;
    forall t: nat, r: Request | t < |s'.carried| ensures s'.carried[t][r] == if IsCarried(cfg, s', t, r) then 1 else 0 {
      assert s.carried[t][r] == if IsCarried(cfg, s, t, r) then 1 else 0;
    }
  }

  lemma NothingUnderway(cfg: Config, s: System, c: nat)
    requires Shaped(cfg, s) && c < |cfg.host| && !s.place[c].Delivering?
    ensures forall q: nat :: Underway(cfg, s, q, c) == []
  {
  }

  lemma Appended(log: map<(nat, nat), seq<int>>, p: nat, c: nat, payload: int)
    ensures forall q: nat, d: nat ::
      Log(Append(log, p, c, payload), q, d) == if q == p && d == c then Log(log, p, c) + [payload] else Log(log, q, d)
  {
  }

  lemma Conclude(cfg: Config, s: System)
    requires Shaped(cfg, s) && Located(cfg)
    requires KernelsInv(cfg, s) && PlaceInv(cfg, s) && NetInv(cfg, s) && TablesInv(cfg, s) && LogInv(cfg, s)
    requires CarriedInv(cfg, s) && AimInv(cfg, s)
    ensures Inv(cfg, s)
  {
  }

  // ----- a request reaches the producer's kernel

  /** A request on its way belongs to a consumer that waits for its producer. */
  lemma RequestIsAwaited(cfg: Config, s: System, pkt: Packet)
    requires Inv(cfg, s) && IsRequestFor(cfg, s, pkt) && (pkt in s.net || pkt in s.pending)
    ensures IsPair(cfg, pkt.producer, pkt.consumer) && Awaits(cfg, s, pkt.producer, pkt.consumer) && IsWire(cfg, pkt)
    ensures s.place[pkt.consumer] == if pkt in s.net then OnTheWire(pkt.to) else Deferred(pkt.to)
    ensures pkt in s.net ==> s.net[pkt] == 1
    ensures pkt !in s.net ==> s.pending[pkt] == 1
  {
    assert s.net[pkt] == if IsFlying(cfg, s, pkt) then 1 else 0;
    assert s.pending[pkt] == if IsPending(cfg, s, pkt) then 1 else 0;
  }

  lemma RequestKeepsWaiting(cfg: Config, s: System, s': System, pkt: Packet)
    requires Shaped(cfg, s) && RequestStep(cfg, s, s', pkt)
    ensures Shaped(cfg, s') && OnlyFor(cfg, s, s', pkt.consumer) && s'.place[pkt.consumer] == InTable(pkt.to)
    ensures forall p: nat, d: nat :: Awaits(cfg, s', p, d) <==> Awaits(cfg, s, p, d)
    ensures KernelsInv(cfg, s) ==> KernelsInv(cfg, s')
  {
  }

  /** The only packet on its way for its consumer. */
  lemma OnlyPacket(cfg: Config, s: System, pkt: Packet)
    requires Inv(cfg, s) && (pkt in s.net || pkt in s.pending)
    ensures forall other: Packet :: other.consumer == pkt.consumer && other != pkt ==>
      s.net[other] == 0 && s.pending[other] == 0
    ensures s.net[pkt] + s.pending[pkt] == 1
  {
    assert s.net[pkt] == if IsFlying(cfg, s, pkt) then 1 else 0;
    assert s.pending[pkt] == if IsPending(cfg, s, pkt) then 1 else 0;
    forall other: Packet | other.consumer == pkt.consumer && other != pkt
      ensures s.net[other] == 0 && s.pending[other] == 0
    {
      assert s.net[other] == if IsFlying(cfg, s, other) then 1 else 0;
      assert s.pending[other] == if IsPending(cfg, s, other) then 1 else 0;
    }
  }

  /** The parts of the invariant, for proofs that leave them closed. */
  lemma Parts(cfg: Config, s: System)
    requires Inv(cfg, s)
    ensures Shaped(cfg, s) && Located(cfg)
    ensures KernelsInv(cfg, s) && PlaceInv(cfg, s) && NetInv(cfg, s) && TablesInv(cfg, s) && LogInv(cfg, s)
    ensures CarriedInv(cfg, s) && AimInv(cfg, s)
  {
  }

  lemma RequestKeepsNet(cfg: Config, s: System, s': System, pkt: Packet)
    requires Shaped(cfg, s) && Inv(cfg, s) && RequestStep(cfg, s, s', pkt) && Shaped(cfg, s')
    requires OnlyFor(cfg, s, s', pkt.consumer) && s'.place[pkt.consumer] == InTable(pkt.to)
    ensures NetInv(cfg, s')
  {
    hide Inv, Located, CarriedInv, AimInv, KernelsInv, PlaceInv, TablesInv, LogInv, NetInv, OnlyFor, Awaits;
    Parts(cfg, s);
    OnlyPacket(cfg, s, pkt);
    NetFrame(cfg, s, s', pkt.consumer);
  }

  /** While a consumer's request is elsewhere, no table has an entry for it. */
  lemma NoEntry(cfg: Config, s: System, c: nat)
    requires Shaped(cfg, s) && TablesInv(cfg, s) && c < |cfg.host| && !s.place[c].InTable?
    ensures forall i: nat, r: Request :: i < |s.kernels| && r.requester == c ==> s.kernels[i].table[r] == 0
  {
    forall i: nat, r: Request | i < |s.kernels| && r.requester == c ensures s.kernels[i].table[r] == 0 {
      assert s.kernels[i].table[r] == if IsEntry(cfg, s, i, r) then 1 else 0;
    }
  }

  /** While a consumer's request is elsewhere, no packet is on its way for it. */
  lemma NoPacket(cfg: Config, s: System, c: nat)
    requires Shaped(cfg, s) && NetInv(cfg, s) && c < |cfg.host|
    ensures !s.place[c].OnTheWire? && !s.place[c].Delivering? ==>
      forall pkt: Packet :: pkt.consumer == c ==> s.net[pkt] == 0
    ensures !s.place[c].Deferred? ==> forall pkt: Packet :: pkt.consumer == c ==> s.pending[pkt] == 0
  {
    forall pkt: Packet | pkt.consumer == c && !s.place[c].OnTheWire? && !s.place[c].Delivering?
      ensures s.net[pkt] == 0
    {
      assert s.net[pkt] == if IsFlying(cfg, s, pkt) then 1 else 0;
    }
    forall pkt: Packet | pkt.consumer == c && !s.place[c].Deferred? ensures s.pending[pkt] == 0 {
      assert s.pending[pkt] == if IsPending(cfg, s, pkt) then 1 else 0;
    }
  }

  /** One entry for c appears, in the table of processor at. */
  lemma EntryAdded(cfg: Config, s: System, s': System, p: nat, c: nat, at: nat)
    requires Shaped(cfg, s) && Shaped(cfg, s') && OnlyFor(cfg, s, s', c) && TablesInv(cfg, s)
    requires IsPair(cfg, p, c) && Awaits(cfg, s', p, c) && s'.place[c] == InTable(at) && !s.place[c].InTable?
    requires forall i: nat :: i < |s.kernels| ==>
      s'.kernels[i].table == s.kernels[i].table + if i == at then multiset{Request(c, p, cfg.host[c])} else multiset{}
    ensures TablesInv(cfg, s')
  {
    hide TablesInv, OnlyFor;
    NoEntry(cfg, s, c);
    forall i: nat, r: Request | i < |s.kernels| && r.requester == c
      ensures s'.kernels[i].table[r] == if IsEntry(cfg, s', i, r) then 1 else 0
    {
      assert s.kernels[i].table[r] == 0;
    }
    TablesFrame(cfg, s, s', c);
  }

  lemma RequestKeepsPlaces(cfg: Config, s: System, s': System, pkt: Packet)
    requires Shaped(cfg, s) && RequestStep(cfg, s, s', pkt) && Shaped(cfg, s') && PlaceInv(cfg, s)
    requires Awaits(cfg, s, pkt.producer, pkt.consumer)
    ensures PlaceInv(cfg, s')
  {
  }

  lemma RequestKeepsTables(cfg: Config, s: System, s': System, pkt: Packet)
    requires Shaped(cfg, s) && TablesInv(cfg, s) && RequestStep(cfg, s, s', pkt) && Shaped(cfg, s')
    requires |s.kernels[pkt.to].table| < cfg.size
    requires OnlyFor(cfg, s, s', pkt.consumer) && IsPair(cfg, pkt.producer, pkt.consumer) && IsWire(cfg, pkt)
    requires Awaits(cfg, s', pkt.producer, pkt.consumer)
    requires s.place[pkt.consumer] == if pkt in s.net then OnTheWire(pkt.to) else Deferred(pkt.to)
    ensures TablesInv(cfg, s')
  {
    hide TablesInv, OnlyFor, Awaits;
    EntryAdded(cfg, s, s', pkt.producer, pkt.consumer, pkt.to);
  }

  lemma LogsUnchanged(cfg: Config, s: System, s': System, c: nat)
    requires Shaped(cfg, s) && LogInv(cfg, s) && Shaped(cfg, s') && OnlyFor(cfg, s, s', c) && c < |cfg.host|
    requires s'.sent == s.sent && s'.received == s.received && !s.place[c].Delivering? && !s'.place[c].Delivering?
    ensures LogInv(cfg, s')
  {
    hide OnlyFor, Awaits;
    LogFrame(cfg, s, s', 0, c);
  }

  lemma RequestKeeps(cfg: Config, s: System, s': System, pkt: Packet)
    requires Inv(cfg, s) && RequestStep(cfg, s, s', pkt) && |s.kernels[pkt.to].table| < cfg.size
    ensures Inv(cfg, s')
  {
    hide Inv, Located, CarriedInv, AimInv, KernelsInv, PlaceInv, NetInv, TablesInv, LogInv, OnlyFor, Awaits, IsWire;
    Parts(cfg, s);
    RequestIsAwaited(cfg, s, pkt);
    RequestKeepsWaiting(cfg, s, s', pkt);
    RequestKeepsNet(cfg, s, s', pkt);
    RequestKeepsPlaces(cfg, s, s', pkt);
    RequestKeepsTables(cfg, s, s', pkt);
    LogsUnchanged(cfg, s, s', pkt.consumer);
    AtTheProducer(cfg, s', pkt);
    RestFrame(cfg, s, s', pkt.consumer);
    Conclude(cfg, s');
  }

  /** Where a request has been entered its producer is known. */
  lemma AtTheProducer(cfg: Config, s: System, pkt: Packet)
    requires Shaped(cfg, s) && IsPair(cfg, pkt.producer, pkt.consumer) && Awaits(cfg, s, pkt.producer, pkt.consumer)
    requires s.place[pkt.consumer] == InTable(pkt.to) && HasTcb(cfg, pkt.to, pkt.producer)
    ensures forall p: nat :: Awaits(cfg, s, p, pkt.consumer) && p < |cfg.host| ==>
      FitsPlace(cfg, p, s.place[pkt.consumer])
  {
  }

  /** A request on its way or put off is at a host of its producer, present or former. */
  lemma RequestIsAtHost(cfg: Config, s: System, pkt: Packet)
    requires Inv(cfg, s) && IsRequestFor(cfg, s, pkt) && (pkt in s.net || pkt in s.pending)
    ensures pkt.to in WorldOf(cfg, pkt.producer).hosts
  {
    hide NetInv, TablesInv, LogInv, CarriedInv, PlaceInv, KernelsInv;
    RequestIsAwaited(cfg, s, pkt);
  }

  lemma FitsOnlyFor(cfg: Config, s: System, p: nat, c: nat)
    requires Shaped(cfg, s) && c < |cfg.host| && p < |cfg.host| && Awaits(cfg, s, p, c) && FitsPlace(cfg, p, s.place[c])
    ensures forall q: nat :: Awaits(cfg, s, q, c) && q < |cfg.host| ==> FitsPlace(cfg, q, s.place[c])
  {
    hide FitsPlace;
  }

  lemma DeferKeeps(cfg: Config, s: System, s': System, pkt: Packet)
    requires Inv(cfg, s) && DeferStep(cfg, s, s', pkt)
    ensures Inv(cfg, s')
  {
    hide NetInv, TablesInv, LogInv, CarriedInv, AimInv, Located;
    Parts(cfg, s);
    RequestIsAwaited(cfg, s, pkt);
    RequestIsAtHost(cfg, s, pkt);
    OnlyPacket(cfg, s, pkt);
    assert forall p: nat, d: nat :: Awaits(cfg, s', p, d) <==> Awaits(cfg, s, p, d);
    NetFrame(cfg, s, s', pkt.consumer);
    EntriesUnchanged(cfg, s, s', pkt.consumer);
    LogsUnchanged(cfg, s, s', pkt.consumer);
    FitsOnlyFor(cfg, s', pkt.producer, pkt.consumer);
    RestFrame(cfg, s, s', pkt.consumer);
  }

  /** Where the producer is not known, its kernel knows a later host to pass the request on to. */
  lemma PassFinds(cfg: Config, s: System, pkt: Packet)
    requires Inv(cfg, s) && IsRequestFor(cfg, s, pkt) && (pkt in s.net || pkt in s.pending)
    requires !HasTcb(cfg, pkt.to, pkt.producer)
    ensures var w := WorldOf(cfg, pkt.producer); var location := LocationAt(w, pkt.to);
      && location != -1 && location != pkt.to && location in w.hosts && pkt.to in w.entry
      && forall i :: 0 <= i < |w.hosts| && w.hosts[i] == pkt.to ==> i < w.entry[pkt.to]
  {
    hide NetInv, TablesInv, LogInv, CarriedInv, PlaceInv, KernelsInv, AimInv, IsSound;
    RequestIsAtHost(cfg, s, pkt);
    FormerHostKnows(WorldOf(cfg, pkt.producer), pkt.to);
  }

  ghost predicate Passes(cfg: Config, s: System, s': System, pkt: Packet, to: nat)
    requires Shaped(cfg, s)
  {
    && IsRequestFor(cfg, s, pkt) && (pkt in s.net || pkt in s.pending)
    && s' == Taken(s, pkt).(net := Taken(s, pkt).net + multiset{Readdressed(pkt, to)},
                            place := s.place[pkt.consumer := OnTheWire(to)])
  }

  lemma PassKeepsNet(cfg: Config, s: System, s': System, pkt: Packet, to: nat)
    requires Inv(cfg, s) && Passes(cfg, s, s', pkt, to) && Shaped(cfg, s') && OnlyFor(cfg, s, s', pkt.consumer)
    requires IsPair(cfg, pkt.producer, pkt.consumer) && Awaits(cfg, s', pkt.producer, pkt.consumer) && IsWire(cfg, pkt)
    ensures NetInv(cfg, s')
  {
    hide Inv, NetInv, OnlyFor;
    Parts(cfg, s);
    OnlyPacket(cfg, s, pkt);
    NetFrame(cfg, s, s', pkt.consumer);
  }

  lemma PassKeeps(cfg: Config, s: System, s': System, pkt: Packet)
    requires Inv(cfg, s) && PassStep(cfg, s, s', pkt)
    ensures Inv(cfg, s')
  {
    hide Inv, NetInv, TablesInv, LogInv, CarriedInv, AimInv, Located, IsWire;
    Parts(cfg, s);
    RequestIsAwaited(cfg, s, pkt);
    PassFinds(cfg, s, pkt);
    var to := LocationAt(WorldOf(cfg, pkt.producer), pkt.to);
    assert Passes(cfg, s, s', pkt, to);
    PassKeepsPlaces(cfg, s, s', pkt, to);
    PassKeepsNet(cfg, s, s', pkt, to);
    EntriesUnchanged(cfg, s, s', pkt.consumer);
    LogsUnchanged(cfg, s, s', pkt.consumer);
    FitsOnlyFor(cfg, s', pkt.producer, pkt.consumer);
    RestFrame(cfg, s, s', pkt.consumer);
    Conclude(cfg, s');
  }

  lemma PassKeepsPlaces(cfg: Config, s: System, s': System, pkt: Packet, to: nat)
    requires Shaped(cfg, s) && Passes(cfg, s, s', pkt, to) && KernelsInv(cfg, s) && PlaceInv(cfg, s)
    requires IsPair(cfg, pkt.producer, pkt.consumer) && Awaits(cfg, s, pkt.producer, pkt.consumer)
    ensures Shaped(cfg, s') && OnlyFor(cfg, s, s', pkt.consumer) && KernelsInv(cfg, s') && PlaceInv(cfg, s')
    ensures Awaits(cfg, s', pkt.producer, pkt.consumer)
  {
  }

  // ----- a message is handed over

  /** Consumer c, which waited for p, has its message and waits no more. */
  ghost predicate Wakes(cfg: Config, s: System, s': System, p: nat, c: nat)
    requires Shaped(cfg, s) && Shaped(cfg, s')
  {
    && IsPair(cfg, p, c) && Awaits(cfg, s, p, c) && s'.place == s.place[c := Nowhere]
    && (forall i: nat :: i < |s.kernels| ==>
      && s'.kernels[i].waiting == (if i == cfg.host[c] then s.kernels[i].waiting - {c} else s.kernels[i].waiting)
      && s'.kernels[i].stuck == s.kernels[i].stuck)
  }

  lemma WakingKeeps(cfg: Config, s: System, s': System, p: nat, c: nat)
    requires Shaped(cfg, s) && Shaped(cfg, s') && KernelsInv(cfg, s) && PlaceInv(cfg, s) && Wakes(cfg, s, s', p, c)
    ensures OnlyFor(cfg, s, s', c) && KernelsInv(cfg, s') && PlaceInv(cfg, s')
    ensures forall q: nat :: !Awaits(cfg, s', q, c)
  {
  }

  lemma DeliveryIsAwaited(cfg: Config, s: System, pkt: Packet)
    requires Inv(cfg, s) && pkt.DeliveryPacket? && pkt in s.net
    ensures IsPair(cfg, pkt.producer, pkt.consumer) && Awaits(cfg, s, pkt.producer, pkt.consumer)
    ensures s.place[pkt.consumer] == Delivering(pkt.payload) && pkt.to == cfg.host[pkt.consumer] && s.net[pkt] == 1
  {
    assert s.net[pkt] == if IsFlying(cfg, s, pkt) then 1 else 0;
  }

  lemma DeliveryKeepsNet(cfg: Config, s: System, s': System, pkt: Packet)
    requires Shaped(cfg, s) && Inv(cfg, s) && DeliveryStep(cfg, s, s', pkt) && Shaped(cfg, s')
    requires OnlyFor(cfg, s, s', pkt.consumer)
    ensures NetInv(cfg, s')
  {
    hide Inv, Located, CarriedInv, AimInv, KernelsInv, PlaceInv, TablesInv, LogInv, NetInv, OnlyFor, Awaits;
    Parts(cfg, s);
    OnlyPacket(cfg, s, pkt);
    NetFrame(cfg, s, s', pkt.consumer);
  }

  lemma DeliveryWakes(cfg: Config, s: System, s': System, pkt: Packet)
    requires Shaped(cfg, s) && DeliveryStep(cfg, s, s', pkt)
    requires IsPair(cfg, pkt.producer, pkt.consumer) && Awaits(cfg, s, pkt.producer, pkt.consumer)
    ensures Shaped(cfg, s') && Wakes(cfg, s, s', pkt.producer, pkt.consumer)
    ensures forall i: nat :: i < |s.kernels| ==> s'.kernels[i].table == s.kernels[i].table
  {
  }

  /** A message handed over moves from what is under way to what was received. */
  lemma DeliveryKeepsLogs(cfg: Config, s: System, s': System, pkt: Packet)
    requires Shaped(cfg, s) && LogInv(cfg, s) && DeliveryStep(cfg, s, s', pkt) && Shaped(cfg, s')
    requires OnlyFor(cfg, s, s', pkt.consumer)
    requires forall q: nat :: Underway(cfg, s, q, pkt.consumer) == if q == pkt.producer then [pkt.payload] else []
    ensures LogInv(cfg, s')
  {
    hide OnlyFor, Awaits;
    LogFrame(cfg, s, s', pkt.producer, pkt.consumer);
  }

  lemma DeliveryIsUnderway(cfg: Config, s: System, p: nat, c: nat, payload: int)
    requires Shaped(cfg, s) && IsPair(cfg, p, c) && Awaits(cfg, s, p, c) && s.place[c] == Delivering(payload)
    ensures forall q: nat :: Underway(cfg, s, q, c) == if q == p then [payload] else []
  {
  }

  lemma DeliveryKeeps(cfg: Config, s: System, s': System, pkt: Packet)
    requires Inv(cfg, s) && DeliveryStep(cfg, s, s', pkt)
    ensures Inv(cfg, s')
  {
    hide Inv, Located, CarriedInv, AimInv, KernelsInv, PlaceInv, NetInv, TablesInv, LogInv, OnlyFor, Wakes, Awaits,
      Underway;
    Parts(cfg, s);
    DeliveryIsAwaited(cfg, s, pkt);
    DeliveryIsUnderway(cfg, s, pkt.producer, pkt.consumer, pkt.payload);
    DeliveryWakes(cfg, s, s', pkt);
    WakingKeeps(cfg, s, s', pkt.producer, pkt.consumer);
    DeliveryKeepsNet(cfg, s, s', pkt);
    EntriesUnchanged(cfg, s, s', pkt.consumer);
    DeliveryKeepsLogs(cfg, s, s', pkt);
    RestFrame(cfg, s, s', pkt.consumer);
    Conclude(cfg, s');
  }

  lemma EntriesUnchanged(cfg: Config, s: System, s': System, c: nat)
    requires Shaped(cfg, s) && Shaped(cfg, s') && OnlyFor(cfg, s, s', c) && TablesInv(cfg, s) && c < |cfg.host|
    requires !s.place[c].InTable? && !s'.place[c].InTable?
    requires forall i: nat :: i < |s.kernels| ==> s'.kernels[i].table == s.kernels[i].table
    ensures TablesInv(cfg, s')
  {
    hide TablesInv, OnlyFor;
    NoEntry(cfg, s, c);
    TablesFrame(cfg, s, s', c);
  }

  // ----- Send

  /** A request in a table belongs to a consumer that waits for its producer there. */
  lemma EntryIsAwaited(cfg: Config, s: System, i: nat, r: Request)
    requires Inv(cfg, s) && i < |s.kernels| && r in s.kernels[i].table
    ensures r.requester >= 0 && r.requested >= 0 && IsPair(cfg, r.requested, r.requester)
    ensures Awaits(cfg, s, r.requested, r.requester)
    ensures s.place[r.requester] == InTable(i) && r.proc == cfg.host[r.requester]
    ensures s.kernels[i].table[r] == 1
  {
    assert s.kernels[i].table[r] == if IsEntry(cfg, s, i, r) then 1 else 0;
  }

  /** The only entry for its consumer. */
  lemma OnlyEntry(cfg: Config, s: System, i: nat, r: Request)
    requires Inv(cfg, s) && i < |s.kernels| && r in s.kernels[i].table
    ensures forall j: nat, other: Request :: j < |s.kernels| && other.requester == r.requester && (j != i || other != r) ==>
      s.kernels[j].table[other] == 0
  {
    EntryIsAwaited(cfg, s, i, r);
    forall j: nat, other: Request | j < |s.kernels| && other.requester == r.requester && (j != i || other != r)
      ensures s.kernels[j].table[other] == 0
    {
      assert s.kernels[j].table[other] == if IsEntry(cfg, s, j, other) then 1 else 0;
    }
  }

  /** The one entry for c disappears. */
  lemma EntryTaken(cfg: Config, s: System, s': System, p: nat, c: nat)
    requires Shaped(cfg, s) && Inv(cfg, s) && Shaped(cfg, s') && OnlyFor(cfg, s, s', c) && IsPair(cfg, p, c)
    requires !s'.place[c].InTable?
    requires Request(c, p, cfg.host[c]) in s.kernels[cfg.host[p]].table
    requires forall i: nat :: i < |s.kernels| ==>
      s'.kernels[i].table ==
      s.kernels[i].table - if i == cfg.host[p] then multiset{Request(c, p, cfg.host[c])} else multiset{}
    ensures TablesInv(cfg, s')
  {
    hide Inv, TablesInv, OnlyFor, Awaits;
    Parts(cfg, s);
    EntryIsAwaited(cfg, s, cfg.host[p], Request(c, p, cfg.host[c]));
    OnlyEntry(cfg, s, cfg.host[p], Request(c, p, cfg.host[c]));
    TablesFrame(cfg, s, s', c);
  }

  lemma PacketsUnchanged(cfg: Config, s: System, s': System, c: nat)
    requires Shaped(cfg, s) && NetInv(cfg, s) && Shaped(cfg, s') && OnlyFor(cfg, s, s', c) && c < |cfg.host|
    requires s'.net == s.net && s'.pending == s.pending
    requires (s.place[c].InTable? || s.place[c] == Nowhere) && (s'.place[c].InTable? || s'.place[c] == Nowhere)
    ensures NetInv(cfg, s')
  {
    hide NetInv, OnlyFor, Awaits;
    NoPacket(cfg, s, c);
    NetFrame(cfg, s, s', c);
  }

  /** The producer finds the request of a local consumer and writes into its buffer. */
  lemma LocalSendKeeps(cfg: Config, s: System, s': System, p: nat, c: nat, payload: int)
    requires Inv(cfg, s) && IsPair(cfg, p, c) && cfg.host[p] == cfg.host[c]
    requires Request(c, p, cfg.host[c]) in KernelOf(cfg, s, p).table
    requires var k := KernelOf(cfg, s, p);
      s' == s.(kernels := s.kernels[cfg.host[p] := Filled(k.(table := k.table - multiset{Request(c, p, cfg.host[c])}), c)],
               sent := Append(s.sent, p, c, payload), received := Append(s.received, p, c, payload),
               place := s.place[c := Nowhere])
    ensures Inv(cfg, s')
  {
    hide Inv, Located, CarriedInv, AimInv, KernelsInv, PlaceInv, NetInv, TablesInv, LogInv, OnlyFor, Wakes;
    Parts(cfg, s);
    EntryIsAwaited(cfg, s, cfg.host[p], Request(c, p, cfg.host[c]));
    LocalSendWakes(cfg, s, s', p, c, payload);
    WakingKeeps(cfg, s, s', p, c);
    PacketsUnchanged(cfg, s, s', c);
    EntryTaken(cfg, s, s', p, c);
    HandedOverKeepsLogs(cfg, s, s', p, c, payload);
    RestFrame(cfg, s, s', c);
    Conclude(cfg, s');
  }

  lemma LocalSendWakes(cfg: Config, s: System, s': System, p: nat, c: nat, payload: int)
    requires Shaped(cfg, s) && IsPair(cfg, p, c) && cfg.host[p] == cfg.host[c] && Awaits(cfg, s, p, c)
    requires var k := KernelOf(cfg, s, p);
      s' == s.(kernels := s.kernels[cfg.host[p] := Filled(k.(table := k.table - multiset{Request(c, p, cfg.host[c])}), c)],
               sent := Append(s.sent, p, c, payload), received := Append(s.received, p, c, payload),
               place := s.place[c := Nowhere])
    ensures Shaped(cfg, s') && Wakes(cfg, s, s', p, c)
    ensures forall i: nat :: i < |s.kernels| ==>
      s'.kernels[i].table ==
      s.kernels[i].table - if i == cfg.host[p] then multiset{Request(c, p, cfg.host[c])} else multiset{}
  {
  }

  lemma HandedOverKeepsLogs(cfg: Config, s: System, s': System, p: nat, c: nat, payload: int)
    requires Shaped(cfg, s) && LogInv(cfg, s) && Shaped(cfg, s') && OnlyFor(cfg, s, s', c) && c < |cfg.host|
    requires s'.sent == Append(s.sent, p, c, payload) && s'.received == Append(s.received, p, c, payload)
    requires !s.place[c].Delivering? && !s'.place[c].Delivering?
    ensures LogInv(cfg, s')
  {
    hide OnlyFor, Awaits, Underway, Log, Append;
    NothingUnderway(cfg, s, c);
    NothingUnderway(cfg, s', c);
    Appended(s.sent, p, c, payload);
    Appended(s.received, p, c, payload);
    LogFrame(cfg, s, s', p, c);
  }

  /** Every consumer waits for what it waited for before. */
  ghost predicate SameWaiting(cfg: Config, s: System, s': System)
    requires Shaped(cfg, s) && Shaped(cfg, s')
  {
    forall i: nat :: i < |s.kernels| ==>
      s'.kernels[i].waiting == s.kernels[i].waiting && s'.kernels[i].stuck == s.kernels[i].stuck
  }

  lemma SameWaitingKeeps(cfg: Config, s: System, s': System, p: nat, c: nat)
    requires Shaped(cfg, s) && Shaped(cfg, s') && SameWaiting(cfg, s, s') && KernelsInv(cfg, s) && PlaceInv(cfg, s)
    requires Awaits(cfg, s, p, c) && s'.place[c] != Nowhere && s'.place == s.place[c := s'.place[c]]
    ensures OnlyFor(cfg, s, s', c) && Awaits(cfg, s', p, c) && KernelsInv(cfg, s') && PlaceInv(cfg, s')
  {
  }

  /** One packet for c appears, where there was none. */
  lemma PacketAdded(cfg: Config, s: System, s': System, pkt: Packet)
    requires Shaped(cfg, s) && NetInv(cfg, s) && Shaped(cfg, s') && OnlyFor(cfg, s, s', pkt.consumer)
    requires IsPair(cfg, pkt.producer, pkt.consumer) && Awaits(cfg, s', pkt.producer, pkt.consumer)
    requires s.place[pkt.consumer].InTable? || s.place[pkt.consumer] == Nowhere
    requires s'.pending == s.pending && s'.net == s.net + multiset{pkt}
    requires match pkt
             case RequestPacket(_, c, _, to) => IsWire(cfg, pkt) && s'.place[c] == OnTheWire(to)
             case DeliveryPacket(_, c, payload, to) => to == cfg.host[c] && s'.place[c] == Delivering(payload)
    ensures NetInv(cfg, s')
  {
    hide NetInv, OnlyFor;
    NoPacket(cfg, s, pkt.consumer);
    NetFrame(cfg, s, s', pkt.consumer);
  }

  /** The producer finds the request of a remote consumer and sends the delivery. */
  ghost predicate SendsRemotely(cfg: Config, s: System, s': System, p: nat, c: nat, payload: int)
    requires Shaped(cfg, s)
  {
    && IsPair(cfg, p, c) && Request(c, p, cfg.host[c]) in KernelOf(cfg, s, p).table
    && var k := KernelOf(cfg, s, p);
    && s' == s.(kernels := s.kernels[cfg.host[p] := k.(table := k.table - multiset{Request(c, p, cfg.host[c])})],
                sent := Append(s.sent, p, c, payload), place := s.place[c := Delivering(payload)],
                net := s.net + multiset{DeliveryPacket(p, c, payload, cfg.host[c])})
  }

  lemma RemoteSendFacts(cfg: Config, s: System, s': System, p: nat, c: nat, payload: int)
    requires Shaped(cfg, s) && SendsRemotely(cfg, s, s', p, c, payload)
    ensures Shaped(cfg, s') && SameWaiting(cfg, s, s') && s'.place == s.place[c := Delivering(payload)]
    ensures forall i: nat :: i < |s.kernels| ==>
      s'.kernels[i].table ==
      s.kernels[i].table - if i == cfg.host[p] then multiset{Request(c, p, cfg.host[c])} else multiset{}
  {
  }

  lemma RemoteSendKeepsLogs(cfg: Config, s: System, s': System, p: nat, c: nat, payload: int)
    requires Shaped(cfg, s) && LogInv(cfg, s) && Shaped(cfg, s') && OnlyFor(cfg, s, s', c) && c < |cfg.host|
    requires s'.sent == Append(s.sent, p, c, payload) && s'.received == s.received && !s.place[c].Delivering?
    requires forall q: nat :: Underway(cfg, s', q, c) == if q == p then [payload] else []
    ensures LogInv(cfg, s')
  {
    hide OnlyFor, Awaits;
    LogFrame(cfg, s, s', p, c);
  }

  lemma RemoteSendKeeps(cfg: Config, s: System, s': System, p: nat, c: nat, payload: int)
    requires Inv(cfg, s) && SendsRemotely(cfg, s, s', p, c, payload)
    ensures Inv(cfg, s')
  {
    hide Inv, Located, CarriedInv, AimInv, KernelsInv, PlaceInv, NetInv, TablesInv, LogInv, OnlyFor, SameWaiting,
      Awaits, Underway;
    Parts(cfg, s);
    EntryIsAwaited(cfg, s, cfg.host[p], Request(c, p, cfg.host[c]));
    RemoteSendFacts(cfg, s, s', p, c, payload);
    SameWaitingKeeps(cfg, s, s', p, c);
    PacketAdded(cfg, s, s', DeliveryPacket(p, c, payload, cfg.host[c]));
    EntryTaken(cfg, s, s', p, c);
    DeliveryIsUnderway(cfg, s', p, c, payload);
    RemoteSendKeepsLogs(cfg, s, s', p, c, payload);
    RestFrame(cfg, s, s', c);
    Conclude(cfg, s');
  }

  /** A step that changes nothing. */
  lemma IdleSend(cfg: Config, s: System, i: nat)
    requires i < |s.kernels|
    ensures s.(kernels := s.kernels[i := s.kernels[i]]) == s
  {
    assert s.kernels[i := s.kernels[i]] == s.kernels;
  }

  lemma SendKeeps(cfg: Config, s: System, s': System, p: nat, c: nat, payload: int, busy: bool, how: Sending,
                  k': Kernel)
    requires Inv(cfg, s) && SendStep(cfg, s, s', p, c, payload, busy, how, k')
    ensures Inv(cfg, s')
  {
    hide Inv, Located, CarriedInv, AimInv, KernelsInv, PlaceInv, NetInv, TablesInv, LogInv, Awaits;
    Parts(cfg, s);
    var k := KernelOf(cfg, s, p);
    if how == NotYet {
      IdleSend(cfg, s, cfg.host[p]);
    } else {
      var proc: int :| Request(c, p, proc) in k.table && Answers(k, k', cfg.host[p], p, c, payload, proc, how);
      EntryIsAwaited(cfg, s, cfg.host[p], Request(c, p, proc));
      if how == WroteLocally {
        LocalSendKeeps(cfg, s, s', p, c, payload);
      } else {
        RemoteSendKeeps(cfg, s, s', p, c, payload);
      }
    }
  }

  // ----- Receive

  /** Consumer c, which waited for nobody, now waits for p. */
  ghost predicate Starts(cfg: Config, s: System, s': System, p: nat, c: nat)
    requires Shaped(cfg, s) && Shaped(cfg, s')
  {
    && IsPair(cfg, p, c) && c !in KernelOf(cfg, s, c).waiting
    && s'.place[c] != Nowhere && s'.place == s.place[c := s'.place[c]]
    && (forall i: nat :: i < |s.kernels| ==>
      && s'.kernels[i].waiting == (if i == cfg.host[c] then s.kernels[i].waiting[c := p] else s.kernels[i].waiting)
      && s'.kernels[i].stuck == s.kernels[i].stuck)
  }

  lemma StartingKeeps(cfg: Config, s: System, s': System, p: nat, c: nat)
    requires Shaped(cfg, s) && Shaped(cfg, s') && KernelsInv(cfg, s) && PlaceInv(cfg, s) && Starts(cfg, s, s', p, c)
    ensures OnlyFor(cfg, s, s', c) && KernelsInv(cfg, s') && PlaceInv(cfg, s') && Awaits(cfg, s', p, c)
    ensures s.place[c] == Nowhere
  {
  }

  lemma LocalReceiveKeeps(cfg: Config, s: System, s': System, p: nat, c: nat)
    requires Inv(cfg, s) && IsPair(cfg, p, c) && Runs(cfg, s, c) && cfg.host[p] == cfg.host[c]
    requires |KernelOf(cfg, s, c).table| < cfg.size
    requires var k := KernelOf(cfg, s, c);
      s' == s.(kernels := s.kernels[cfg.host[c] :=
                            Kernel(k.table + multiset{Request(c, p, cfg.host[c])}, k.waiting[c := p], k.stuck)],
               place := s.place[c := InTable(cfg.host[c])])
    ensures Inv(cfg, s')
  {
    hide Inv, Located, CarriedInv, AimInv, KernelsInv, PlaceInv, NetInv, TablesInv, LogInv, OnlyFor, Awaits;
    Parts(cfg, s);
    assert Starts(cfg, s, s', p, c);
    StartingKeeps(cfg, s, s', p, c);
    PacketsUnchanged(cfg, s, s', c);
    EntryAdded(cfg, s, s', p, c, cfg.host[c]);
    LogsUnchanged(cfg, s, s', c);
    FitsOnlyFor(cfg, s', p, c);
    RestFrame(cfg, s, s', c);
    Conclude(cfg, s');
  }

  lemma RemoteReceiveKeeps(cfg: Config, s: System, s': System, p: nat, c: nat, to: nat)
    requires Inv(cfg, s) && IsPair(cfg, p, c) && Runs(cfg, s, c) && to in WorldOf(cfg, p).hosts
    requires var k := KernelOf(cfg, s, c);
      s' == s.(kernels := s.kernels[cfg.host[c] := k.(waiting := k.waiting[c := p])],
               place := s.place[c := OnTheWire(to)],
               net := s.net + multiset{RequestPacket(p, c, cfg.host[c], to)})
    ensures Inv(cfg, s')
  {
    hide Inv, Located, CarriedInv, AimInv, KernelsInv, PlaceInv, NetInv, TablesInv, LogInv, OnlyFor, Awaits;
    Parts(cfg, s);
    assert Starts(cfg, s, s', p, c);
    StartingKeeps(cfg, s, s', p, c);
    PacketAdded(cfg, s, s', RequestPacket(p, c, cfg.host[c], to));
    EntriesUnchanged(cfg, s, s', c);
    LogsUnchanged(cfg, s, s', c);
    FitsOnlyFor(cfg, s', p, c);
    RestFrame(cfg, s, s', c);
    Conclude(cfg, s');
  }

  /**
   * The location the consumer's kernel has for the producer is a host of it, and its own only if the producer is here.
   */
  lemma LocationIsHost(cfg: Config, s: System, p: nat, c: nat)
    requires Shaped(cfg, s) && Located(cfg) && IsPair(cfg, p, c)
    ensures var location := LocationAt(WorldOf(cfg, p), cfg.host[c]);
      && (location != -1 ==> location in WorldOf(cfg, p).hosts)
      && (location == cfg.host[c] ==> cfg.host[p] == cfg.host[c])
  {
    var w := WorldOf(cfg, p);
    if LocationAt(w, cfg.host[c]) == cfg.host[c] { OwnLocation(w, cfg.host[c]); }
  }

  lemma ReceiveKeeps(cfg: Config, s: System, s': System, p: nat, c: nat, busy: bool, k': Kernel, out: Option<Packet>)
    requires Inv(cfg, s) && ReceiveStep(cfg, s, s', p, c, busy, k', out)
    requires cfg.host[p] == cfg.host[c] ==> |KernelOf(cfg, s, p).table| < cfg.size
    ensures Inv(cfg, s')
  {
    hide Inv, Located, CarriedInv, AimInv, KernelsInv, PlaceInv, NetInv, TablesInv, LogInv, Awaits, WorldOf, LocationAt;
    Parts(cfg, s);
    IdleSend(cfg, s, cfg.host[c]);
    LocationIsHost(cfg, s, p, c);
    var location := LocationAt(WorldOf(cfg, p), cfg.host[c]);
    if busy || location == -1 {
    } else if location == cfg.host[c] {
      LocalReceiveKeeps(cfg, s, s', p, c);
    } else {
      RemoteReceiveKeeps(cfg, s, s', p, c, location);
    }
  }
}
