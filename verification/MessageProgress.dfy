/** What a task waits for can always arrive, wherever its producer is moving, unless that task waits itself. */
module MessageProgress {
  import opened Basics
  import opened RequestTable
  import opened Processor
  import opened Whereabouts
  import opened Messages
  import opened Mobility
  import opened MessageSafety
  import M = Migration

  // ----- how waiting begins

  /**
   * In every state a Receive that finds the sender free and a location for the producer makes its task wait, and its
   * request is entered at once where the producer is believed to be here, and on its way there otherwise.
   */
  lemma ReceiveStarts(cfg: Config, s: System, s': System, p: nat, c: nat, k': Kernel, out: Option<Packet>)
    requires Shaped(cfg, s) && ReceiveStep(cfg, s, s', p, c, false, k', out)
    ensures Shaped(cfg, s')
    ensures var location := LocationAt(WorldOf(cfg, p), cfg.host[c]);
      && (location == -1 ==> s' == s)
      && (location != -1 ==> Awaits(cfg, s', p, c))
      && (location != -1 ==>
          s'.place[c] == if location == cfg.host[c] then InTable(location) else OnTheWire(location))
  {
  }

  // ----- how far a message is from its consumer

  /** How many of the hosts there have been by the time the task last left processor x, x included. */
  ghost function LastHost(hosts: seq<nat>, x: nat): (n: nat)
    ensures n <= |hosts|
  {
    if hosts == [] then 0
    else if hosts[|hosts| - 1] == x then |hosts| else LastHost(hosts[..|hosts| - 1], x)
  }

  lemma {:induction false} LastHostIsLater(hosts: seq<nat>, x: nat, i: nat)
    requires i < |hosts| && hosts[i] == x
    ensures i < LastHost(hosts, x)
  {
    if hosts[|hosts| - 1] != x { LastHostIsLater(hosts[..|hosts| - 1], x, i); }
  }

  lemma {:induction false} LastHostIsEarlier(hosts: seq<nat>, x: nat, k: nat)
    requires forall i :: 0 <= i < |hosts| && hosts[i] == x ==> i < k
    ensures LastHost(hosts, x) <= k
  {
    if hosts != [] && hosts[|hosts| - 1] != x { LastHostIsEarlier(hosts[..|hosts| - 1], x, k); }
  }

  ghost function PlaceWeight(hosts: seq<nat>, place: Place): nat {
    match place
    case Nowhere => 0
    case Delivering(_) => 1
    case InTable(_) => 2
    case Carried => 3
    case OnTheWire(to) => 3 + |hosts| - LastHost(hosts, to)
    case Deferred(at) => 3 + |hosts| - LastHost(hosts, at)
  }

  /** How much of its move task p has before it. */
  function Stage(cfg: Config, p: nat): nat
    requires Fits(cfg) && p < |cfg.host|
  {
    if p in cfg.leaving then 3 else if p !in cfg.arriving then 0 else if cfg.host[p] in cfg.entry[p] then 1 else 2
  }

  ghost predicate Nearer(m: Moment, m': Moment, p: nat, c: nat)
    requires Shaped(m.cfg, m.s) && Shaped(m'.cfg, m'.s) && p < |m.cfg.host| == |m'.cfg.host| && c < |m.cfg.host|
  {
    || Stage(m'.cfg, p) < Stage(m.cfg, p)
    || (Stage(m'.cfg, p) == Stage(m.cfg, p)
        && PlaceWeight(WorldOf(m'.cfg, p).hosts, m'.s.place[c]) < PlaceWeight(WorldOf(m.cfg, p).hosts, m.s.place[c]))
  }

  /** The processor where p runs, or will run once it has moved. */
  function NextHost(cfg: Config, p: nat): nat
    requires Fits(cfg) && p < |cfg.host|
  {
    if p in cfg.leaving then cfg.leaving[p] else cfg.host[p]
  }

  /** Consumer c waits for p, which does not wait itself, and whose next host knows its location or has room for it. */
  ghost predicate CanServe(m: Moment, p: nat, c: nat) {
    && Good(m) && Shaped(m.cfg, m.s) && IsPair(m.cfg, p, c) && Awaits(m.cfg, m.s, p, c)
    && p !in KernelOf(m.cfg, m.s, p).waiting
    && (NextHost(m.cfg, p) in m.cfg.entry[p] || |LocationsAt(m.cfg, NextHost(m.cfg, p))| < m.cfg.locations)
  }

  /** The message has come: all that p has sent to c is received, one message more than before. */
  ghost predicate HasCome(m: Moment, m': Moment, p: nat, c: nat)
    requires Shaped(m'.cfg, m'.s)
  {
    && !Awaits(m'.cfg, m'.s, p, c) && Log(m'.s.received, p, c) == Log(m'.s.sent, p, c)
    && |Log(m'.s.received, p, c)| == |Log(m.s.received, p, c)| + 1
  }

  // ----- what the next step can be

  /** Nobody waits for anything else, and only the place of what c waits for is another. */
  ghost predicate OnlyPlace(m: Moment, s': System, c: nat, place: Place)
    requires Shaped(m.cfg, m.s) && c < |m.s.place|
  {
    && |s'.kernels| == |m.s.kernels| && |s'.carried| == |m.s.carried| && s'.place == m.s.place[c := place]
    && (forall i :: 0 <= i < |s'.kernels| ==> s'.kernels[i].waiting == m.s.kernels[i].waiting)
    && s'.received == m.s.received
  }

  lemma Facts(m: Moment, p: nat, c: nat)
    requires CanServe(m, p, c)
    ensures Shaped(m.cfg, m.s) && IsPair(m.cfg, p, c) && Awaits(m.cfg, m.s, p, c)
    ensures p !in KernelOf(m.cfg, m.s, p).waiting
    ensures Inv(m.cfg, m.s) && m.s.place[c] != Nowhere && Copies(m.s, TraceOf(m.cfg, m.s, p, c)) == 1
    ensures FitsPlace(m.cfg, p, m.s.place[c]) && !KernelOf(m.cfg, m.s, p).stuck && m.cfg.host[p] < m.cfg.processors
    ensures p in m.cfg.leaving ==> p !in m.cfg.arriving && m.cfg.leaving[p] != m.cfg.host[p]
    ensures p in m.cfg.leaving ==> m.cfg.leaving[p] < m.cfg.processors
    ensures forall h :: h in WorldOf(m.cfg, p).hosts ==> h < m.cfg.processors
    ensures p !in m.cfg.arriving ==> m.cfg.host[p] in m.cfg.entry[p]
  {
    hide NetInv, TablesInv, LogInv, CarriedInv, IsSized, Copies, TraceOf, IsSound, LocationsAt;
    AwaitedHasTrace(m.cfg, m.s, p, c);
  }

  /** The request of c as a packet. */
  function RequestOf(cfg: Config, p: nat, c: nat, to: nat): Packet
    requires c < |cfg.host|
  {
    RequestPacket(p, c, cfg.host[c], to)
  }

  lemma RequestIsThere(m: Moment, p: nat, c: nat, to: nat)
    requires CanServe(m, p, c) && (m.s.place[c] == OnTheWire(to) || m.s.place[c] == Deferred(to))
    ensures Shaped(m.cfg, m.s) && IsPair(m.cfg, p, c) && Awaits(m.cfg, m.s, p, c)
    ensures Inv(m.cfg, m.s) && IsRequestFor(m.cfg, m.s, RequestOf(m.cfg, p, c, to))
    ensures RequestOf(m.cfg, p, c, to) in m.s.net || RequestOf(m.cfg, p, c, to) in m.s.pending
  {
    hide CanServe, Good, Inv, LocationsAt;
    Facts(m, p, c);
  }

  /** A request on its way is entered where p is known. */
  lemma RequestEnters(m: Moment, p: nat, c: nat, to: nat) returns (s': System)
    requires CanServe(m, p, c) && (m.s.place[c] == OnTheWire(to) || m.s.place[c] == Deferred(to))
    requires HasTcb(m.cfg, to, p)
    ensures Works(m.cfg, m.s, s') && OnlyPlace(m, s', c, InTable(to))
  {
    hide CanServe, Good, Inv, LocationsAt, Works;
    RequestIsThere(m, p, c, to);
    var pkt := RequestOf(m.cfg, p, c, to);
    s' := Taken(m.s, pkt).(kernels := m.s.kernels[to :=
                             Inserted(m.s.kernels[to], m.cfg.size, Request(c, p, pkt.proc))],
                           place := m.s.place[c := InTable(to)]);
    RequestWorks(m.cfg, m.s, s', pkt);
  }

  lemma RequestWorks(cfg: Config, s: System, s': System, pkt: Packet)
    requires Shaped(cfg, s) && (RequestStep(cfg, s, s', pkt) || PassStep(cfg, s, s', pkt))
    ensures Works(cfg, s, s')
  {
    hide RequestStep, PassStep;
  }

  /** Elsewhere it is passed on to a later host. */
  lemma RequestPasses(m: Moment, p: nat, c: nat, to: nat) returns (s': System, location: nat)
    requires CanServe(m, p, c) && (m.s.place[c] == OnTheWire(to) || m.s.place[c] == Deferred(to))
    requires !HasTcb(m.cfg, to, p)
    ensures Works(m.cfg, m.s, s') && OnlyPlace(m, s', c, OnTheWire(location))
    ensures var hosts := WorldOf(m.cfg, p).hosts; LastHost(hosts, to) < LastHost(hosts, location)
  {
    hide CanServe, Good, Inv, LocationsAt, Works;
    RequestIsThere(m, p, c, to);
    var pkt, w := RequestOf(m.cfg, p, c, to), WorldOf(m.cfg, p);
    PassFinds(m.cfg, m.s, pkt);
    location := LocationAt(w, to);
    s' := Taken(m.s, pkt).(net := Taken(m.s, pkt).net + multiset{Readdressed(pkt, location)},
                           place := m.s.place[c := OnTheWire(location)]);
    RequestWorks(m.cfg, m.s, s', pkt);
    LastHostIsEarlier(w.hosts, to, w.entry[to]);
    LastHostIsLater(w.hosts, location, w.entry[to]);
  }

  /** A delivery in flight fills the buffer of c. */
  lemma DeliveryComes(m: Moment, p: nat, c: nat) returns (s': System)
    requires CanServe(m, p, c) && m.s.place[c].Delivering?
    ensures Works(m.cfg, m.s, s') && Shaped(m.cfg, s') && !Awaits(m.cfg, s', p, c)
    ensures |Log(s'.received, p, c)| == |Log(m.s.received, p, c)| + 1
  {
    hide CanServe, Good, Inv, LocationsAt;
    Facts(m, p, c);
    var pkt := DeliveryPacket(p, c, m.s.place[c].payload, m.cfg.host[c]);
    s' := m.s.(kernels := m.s.kernels[pkt.to := Filled(m.s.kernels[pkt.to], c)], net := m.s.net - multiset{pkt},
               received := Append(m.s.received, p, c, pkt.payload), place := m.s.place[c := Nowhere]);
    assert DeliveryStep(m.cfg, m.s, s', pkt);
  }

  /** The request of c is in the table of the processor p runs on, and no more requests for it. */
  lemma EntryIsThere(m: Moment, p: nat, c: nat)
    requires CanServe(m, p, c) && m.s.place[c] == InTable(m.cfg.host[p]) && p !in m.cfg.arriving
    ensures Shaped(m.cfg, m.s) && IsPair(m.cfg, p, c) && Awaits(m.cfg, m.s, p, c)
    ensures Request(c, p, m.cfg.host[c]) in KernelOf(m.cfg, m.s, p).table && Runs(m.cfg, m.s, p)
  {
    hide CanServe, Good, Inv, LocationsAt;
    Facts(m, p, c);
  }

  /** A Send that finds the senders free fills the buffer of c if it is on the same processor. */
  lemma SendFills(m: Moment, p: nat, c: nat) returns (s': System)
    requires CanServe(m, p, c) && m.s.place[c] == InTable(m.cfg.host[p]) && p !in m.cfg.arriving
    requires m.cfg.host[c] == m.cfg.host[p]
    ensures Works(m.cfg, m.s, s') && Shaped(m.cfg, s') && !Awaits(m.cfg, s', p, c)
    ensures |Log(s'.received, p, c)| == |Log(m.s.received, p, c)| + 1
  {
    hide CanServe, Good, Inv, LocationsAt, Works;
    EntryIsThere(m, p, c);
    var h, k := m.cfg.host[p], KernelOf(m.cfg, m.s, p);
    var k' := Filled(k.(table := k.table - multiset{Request(c, p, h)}), c);
    s' := m.s.(kernels := m.s.kernels[h := k'], sent := Append(m.s.sent, p, c, 0),
               received := Append(m.s.received, p, c, 0), place := m.s.place[c := Nowhere]);
    assert Answers(k, k', h, p, c, 0, h, WroteLocally);
    SendWorks(m.cfg, m.s, s', p, c, WroteLocally, k');
  }

  lemma SendWorks(cfg: Config, s: System, s': System, p: nat, c: nat, how: Sending, k': Kernel)
    requires Shaped(cfg, s) && SendStep(cfg, s, s', p, c, 0, false, how, k')
    ensures Works(cfg, s, s')
  {
    hide SendStep;
  }

  /** And otherwise it sends the message on its way. */
  lemma SendDelivers(m: Moment, p: nat, c: nat) returns (s': System)
    requires CanServe(m, p, c) && m.s.place[c] == InTable(m.cfg.host[p]) && p !in m.cfg.arriving
    requires m.cfg.host[c] != m.cfg.host[p]
    ensures Works(m.cfg, m.s, s') && OnlyPlace(m, s', c, Delivering(0))
  {
    hide CanServe, Good, Inv, LocationsAt, Works;
    EntryIsThere(m, p, c);
    var h, k := m.cfg.host[p], KernelOf(m.cfg, m.s, p);
    var k' := k.(table := k.table - multiset{Request(c, p, m.cfg.host[c])});
    var packet := DeliveryPacket(p, c, 0, m.cfg.host[c]);
    s' := m.s.(kernels := m.s.kernels[h := k'], sent := Append(m.s.sent, p, c, 0),
               net := m.s.net + multiset{packet}, place := m.s.place[c := Delivering(0)]);
    assert Answers(k, k', h, p, c, 0, m.cfg.host[c], SentTo(packet));
    SendWorks(m.cfg, m.s, s', p, c, SentTo(packet), k');
  }

  // ----- the moves of the producer

  /** The requests for a task in a table, in some order, and the others. */
  lemma {:induction false} CanBeShared(table: multiset<Request>, t: nat) returns (requests: seq<Request>,
      kept: multiset<Request>)
    ensures Shared(table, multiset(requests), kept, t)
    decreases |table|
  {
    if table == multiset{} {
      requests, kept := [], multiset{};
    } else {
      var r :| r in table;
      requests, kept := CanBeShared(table - multiset{r}, t);
      if r.requested == t { requests := requests + [r]; } else { kept := kept + multiset{r}; }
    }
  }

  lemma {:induction false} CanBeListed(s: multiset<Request>) returns (requests: seq<Request>)
    ensures multiset(requests) == s
    decreases |s|
  {
    if s == multiset{} {
      requests := [];
    } else {
      var r :| r in s;
      requests := CanBeListed(s - multiset{r});
      requests := requests + [r];
    }
  }

  /** A task under orders that does not wait can leave. */
  lemma CanLeave(m: Moment, t: nat) returns (m': Moment)
    requires Good(m) && Shaped(m.cfg, m.s) && t in m.cfg.leaving && t < |m.cfg.host| && Runs(m.cfg, m.s, t)
    ensures Step(m, m') && m'.cfg == Departed(m.cfg, t) && m'.s.received == m.s.received
    ensures |m'.s.kernels| == |m.s.kernels|
    ensures forall i :: 0 <= i < |m.s.kernels| ==> m'.s.kernels[i].waiting == m.s.kernels[i].waiting
  {
    hide Inv, IsSized;
    var h := m.cfg.host[t];
    var requests, kept := CanBeShared(m.s.kernels[h].table, t);
    m' := m.(cfg := Departed(m.cfg, t),
             s := m.s.(kernels := m.s.kernels[h := m.s.kernels[h].(table := kept)],
                       carried := m.s.carried[t := multiset(requests)],
                       place := Relocated(m.cfg, m.s, t, InTable(h), Carried)));
    hide Shared, Relocated, Recorded;
    assert LeaveStep(m, m', t, requests, kept);
  }

  /** An arriving task whose own location has been taken over can run. */
  lemma CanArrive(m: Moment, t: nat) returns (m': Moment)
    requires Good(m) && Shaped(m.cfg, m.s) && t in m.cfg.arriving && t < |m.cfg.host| && m.cfg.host[t] in m.cfg.entry[t]
    ensures Step(m, m') && m'.cfg == m.cfg.(arriving := m.cfg.arriving - {t}) && m'.s.received == m.s.received
    ensures |m'.s.kernels| == |m.s.kernels|
    ensures forall i :: 0 <= i < |m.s.kernels| ==> m'.s.kernels[i].waiting == m.s.kernels[i].waiting
  {
    hide Good, M.For, Relocated;
    RoomForCarried(m, t);
    var h := m.cfg.host[t];
    var requests := CanBeListed(m.s.carried[t]);
    var held, offered := m.s.kernels[h].table, M.For(requests, t);
    var table := held + multiset(offered[..M.Min(|offered|, m.cfg.size - |held|)]);
    m' := m.(cfg := m.cfg.(arriving := m.cfg.arriving - {t}),
             s := m.s.(kernels := m.s.kernels[h := m.s.kernels[h].(table := table)],
                       carried := m.s.carried[t := multiset{}],
                       place := Relocated(m.cfg, m.s, t, Carried, InTable(h))));
    assert ArriveStep(m, m', t, requests, table);
  }

  /** After the host of task t has taken over its location. */
  function KnownAtHost(cfg: Config, t: nat): Config
    requires Fits(cfg) && t < |cfg.host|
  {
    cfg.(entry := cfg.entry[t := Learned(WorldOf(cfg, t), cfg.host[t], |cfg.past[t]|).entry])
  }

  /** Its new host can take its location over, if it has room. */
  lemma CanLearn(m: Moment, t: nat) returns (m': Moment)
    requires Shaped(m.cfg, m.s) && t < |m.cfg.host| && m.cfg.host[t] !in m.cfg.entry[t]
    requires |LocationsAt(m.cfg, m.cfg.host[t])| < m.cfg.locations
    ensures Step(m, m') && m'.s == m.s
    ensures m'.cfg == KnownAtHost(m.cfg, t)
  {
    hide LocationsAt;
    m' := m.(cfg := KnownAtHost(m.cfg, t));
    assert LearnStep(m, m', t, m.cfg.host[t], |m.cfg.past[t]|);
  }

  // ----- every such message can come

  /** The next step has brought the message to c, or nearer to it. */
  ghost predicate Advances(m: Moment, m': Moment, p: nat, c: nat) {
    && Shaped(m.cfg, m.s) && Shaped(m'.cfg, m'.s) && Step(m, m') && Good(m')
    && p < |m.cfg.host| == |m'.cfg.host| && c < |m.cfg.host|
    && (HasCome(m, m', p, c)
        || (CanServe(m', p, c) && Nearer(m, m', p, c) && m'.s.received == m.s.received))
  }

  /** Kernels that did their work have left the message at another place. */
  lemma WorkAdvances(m: Moment, s': System, p: nat, c: nat, place: Place)
    requires CanServe(m, p, c) && Works(m.cfg, m.s, s') && OnlyPlace(m, s', c, place)
    requires PlaceWeight(WorldOf(m.cfg, p).hosts, place) < PlaceWeight(WorldOf(m.cfg, p).hosts, m.s.place[c])
    ensures Advances(m, m.(s := s'), p, c)
  {
    hide Good, Works, LocationsAt, PlaceWeight;
    WorkKeeps(m, m.(s := s'));
  }

  /** Kernels that did their work have filled the buffer of c. */
  lemma WorkBrings(m: Moment, s': System, p: nat, c: nat)
    requires CanServe(m, p, c) && Works(m.cfg, m.s, s') && Shaped(m.cfg, s') && !Awaits(m.cfg, s', p, c)
    requires |Log(s'.received, p, c)| == |Log(m.s.received, p, c)| + 1
    ensures Advances(m, m.(s := s'), p, c)
  {
    hide Good, Works, LocationsAt, PlaceWeight, Log, Awaits;
    WorkKeeps(m, m.(s := s'));
    LogsMeet(m.(s := s'), p, c);
  }

  lemma LogsMeet(m: Moment, p: nat, c: nat)
    requires Good(m) && Shaped(m.cfg, m.s) && !Awaits(m.cfg, m.s, p, c)
    ensures Log(m.s.received, p, c) == Log(m.s.sent, p, c)
  {
    hide NetInv, TablesInv, CarriedInv, KernelsInv, PlaceInv, AimInv, Located, IsSized, Recorded, Log, Awaits;
  }

  /** The producer has moved on, and nobody waits for anything else. */
  lemma MoveAdvances(m: Moment, m': Moment, p: nat, c: nat)
    requires CanServe(m, p, c) && Step(m, m') && Good(m') && Shaped(m'.cfg, m'.s) && m'.s.received == m.s.received
    requires |m'.cfg.host| == |m.cfg.host| && m'.cfg.app == m.cfg.app && Stage(m'.cfg, p) < Stage(m.cfg, p)
    requires |m'.s.kernels| == |m.s.kernels|
    requires forall i :: 0 <= i < |m.s.kernels| ==> m'.s.kernels[i].waiting == m.s.kernels[i].waiting
    requires m'.cfg.host[c] == m.cfg.host[c] && p !in KernelOf(m'.cfg, m'.s, p).waiting
    requires NextHost(m'.cfg, p) == NextHost(m.cfg, p) && m'.cfg.locations == m.cfg.locations
    requires NextHost(m'.cfg, p) in m'.cfg.entry[p] ||
             LocationsAt(m'.cfg, NextHost(m'.cfg, p)) == LocationsAt(m.cfg, NextHost(m.cfg, p))
    requires NextHost(m.cfg, p) in m.cfg.entry[p] ==> NextHost(m'.cfg, p) in m'.cfg.entry[p]
    ensures Advances(m, m', p, c)
  {
    hide Good, Step, LocationsAt, PlaceWeight;
  }

  lemma ArrivalAdvances(m: Moment, p: nat, c: nat) returns (m': Moment)
    requires CanServe(m, p, c) && p in m.cfg.arriving
    ensures Advances(m, m', p, c)
  {
    hide Good, Step, LocationsAt, Inv;
    Facts(m, p, c);
    if m.cfg.host[p] in m.cfg.entry[p] {
      m' := CanArrive(m, p);
      SameLocations(m.cfg, m'.cfg, m.cfg.host[p]);
    } else {
      m' := CanLearn(m, p);
    }
    StepKeeps(m, m');
    GoodIsShaped(m');
    MoveAdvances(m, m', p, c);
  }

  lemma SameLocations(cfg: Config, cfg': Config, y: nat)
    requires cfg'.entry == cfg.entry
    ensures LocationsAt(cfg', y) == LocationsAt(cfg, y)
  {
    forall t ensures t in LocationsAt(cfg', y) <==> t in LocationsAt(cfg, y) {
    }
  }

  lemma GoodIsShaped(m: Moment)
    requires Good(m)
    ensures Shaped(m.cfg, m.s)
  {
  }

  lemma DepartureAdvances(m: Moment, p: nat, c: nat) returns (m': Moment)
    requires CanServe(m, p, c) && p in m.cfg.leaving
    ensures Advances(m, m', p, c)
  {
    hide Good, Step, Inv;
    Facts(m, p, c);
    m' := CanLeave(m, p);
    StepKeeps(m, m');
    GoodIsShaped(m');
    NotThereYet(m, p);
    assert LocationsAt(m'.cfg, m.cfg.leaving[p]) == LocationsAt(m.cfg, m.cfg.leaving[p]);
    MoveAdvances(m, m', p, c);
  }

  lemma NotThereYet(m: Moment, p: nat)
    requires Good(m) && Shaped(m.cfg, m.s) && p in m.cfg.leaving && p < |m.cfg.host|
    ensures m.cfg.leaving[p] < |m.s.kernels| && p !in m.s.kernels[m.cfg.leaving[p]].waiting
  {
    hide NetInv, TablesInv, CarriedInv, LogInv, PlaceInv, AimInv, IsSized, Recorded, IsSound;
    var k := m.s.kernels[m.cfg.leaving[p]];
    if p in k.waiting { assert false; }
  }

  /**
   * Main result: as long as the producer does not wait itself and can be found where it arrives, some step brings the
   * message that c waits for, or brings it nearer: the request reaches a kernel that knows the producer, the producer
   * completes its move if it is on one, it answers, and the delivery is made.
   */
  lemma MessageAdvances(m: Moment, p: nat, c: nat) returns (m': Moment)
    requires CanServe(m, p, c)
    ensures Advances(m, m', p, c)
  {
    hide Good, Step, LocationsAt, Inv, CanServe, Advances, Works, PlaceWeight;
    Facts(m, p, c);
    if p in m.cfg.arriving {
      m' := ArrivalAdvances(m, p, c);
      return;
    }
    match m.s.place[c]
    case Delivering(_) =>
      var s' := DeliveryComes(m, p, c);
      WorkBrings(m, s', p, c);
      m' := m.(s := s');
    case InTable(at) =>
      if at != m.cfg.host[p] {
        m' := DepartureAdvances(m, p, c);
      } else {
        m' := AnswerAdvances(m, p, c);
      }
    case OnTheWire(to) => m' := UnderWayAdvances(m, p, c, to);
    case Deferred(to) => m' := UnderWayAdvances(m, p, c, to);
  }

  lemma AnswerAdvances(m: Moment, p: nat, c: nat) returns (m': Moment)
    requires CanServe(m, p, c) && m.s.place[c] == InTable(m.cfg.host[p]) && p !in m.cfg.arriving
    ensures Advances(m, m', p, c)
  {
    hide Good, Step, LocationsAt, Inv, Advances, Works;
    var s';
    if m.cfg.host[c] == m.cfg.host[p] {
      s' := SendFills(m, p, c);
      WorkBrings(m, s', p, c);
    } else {
      s' := SendDelivers(m, p, c);
      WorkAdvances(m, s', p, c, Delivering(0));
    }
    m' := m.(s := s');
  }

  lemma UnderWayAdvances(m: Moment, p: nat, c: nat, to: nat) returns (m': Moment)
    requires CanServe(m, p, c) && (m.s.place[c] == OnTheWire(to) || m.s.place[c] == Deferred(to))
    ensures Advances(m, m', p, c)
  {
    hide Good, Step, LocationsAt, Inv, Advances, Works;
    var s';
    if HasTcb(m.cfg, to, p) {
      s' := RequestEnters(m, p, c, to);
      WorkAdvances(m, s', p, c, InTable(to));
    } else {
      var location;
      s', location := RequestPasses(m, p, c, to);
      WorkAdvances(m, s', p, c, OnTheWire(location));
    }
    m' := m.(s := s');
  }

  /** A continuation of a run from m on. */
  ghost predicate Continues(m: Moment, rest: seq<Moment>) {
    var all := [m] + rest;
    forall i :: 0 <= i < |rest| ==> Step(all[i], all[i + 1])
  }

  lemma OneMoreStep(m: Moment, m': Moment, rest: seq<Moment>)
    requires Step(m, m') && Continues(m', rest)
    ensures Continues(m, [m'] + rest)
  {
    hide Step;
    var all, tail := [m] + ([m'] + rest), [m'] + rest;
    forall i | 0 <= i < |tail| ensures Step(all[i], all[i + 1]) {
      if i > 0 {
        assert Step(tail[i - 1], tail[i - 1 + 1]);
        assert all[i] == tail[i - 1] && all[i + 1] == tail[i];
      }
    }
  }

  lemma {:induction false} Comes(m: Moment, p: nat, c: nat) returns (rest: seq<Moment>)
    requires CanServe(m, p, c)
    ensures rest != [] && Continues(m, rest) && Shaped(rest[|rest| - 1].cfg, rest[|rest| - 1].s)
    ensures HasCome(m, rest[|rest| - 1], p, c)
    decreases Stage(m.cfg, p), PlaceWeight(WorldOf(m.cfg, p).hosts, m.s.place[c])
  {
    hide Good, Step, LocationsAt, Inv, Continues, PlaceWeight, Stage, Awaits;
    var m' := MessageAdvances(m, p, c);
    rest := [];
    if !HasCome(m, m', p, c) { rest := Comes(m', p, c); } else { NothingMore(m'); }
    OneMoreStep(m, m', rest);
    rest := [m'] + rest;
  }

  lemma NothingMore(m: Moment)
    ensures Continues(m, [])
  {
  }

  /**
   * Main result: in every run, whenever c waits for a message of p and p itself does not wait and has room for its
   * location where it runs or is going to, the run can go on so that the message comes.
   */
  lemma MessageComes(run: seq<Moment>, n: nat, p: nat, c: nat) returns (rest: seq<Moment>)
    requires IsRun(run) && n < |run| && Shaped(run[n].cfg, run[n].s) && IsPair(run[n].cfg, p, c)
    requires Awaits(run[n].cfg, run[n].s, p, c) && p !in KernelOf(run[n].cfg, run[n].s, p).waiting
    requires var y := NextHost(run[n].cfg, p);
      y in run[n].cfg.entry[p] || |LocationsAt(run[n].cfg, y)| < run[n].cfg.locations
    ensures rest != [] && Continues(run[n], rest) && Shaped(rest[|rest| - 1].cfg, rest[|rest| - 1].s)
    ensures HasCome(run[n], rest[|rest| - 1], p, c)
  {
    hide Good, Init, Step, LocationsAt, Continues, HasCome;
    RunKeeps(run, n);
    rest := Comes(run[n], p, c);
  }
}
