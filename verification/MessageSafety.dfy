/** Safety over whole runs of kernels whose tasks talk to each other and move. */
module MessageSafety {
  import opened Basics
  import opened RequestTable
  import opened TaskLocation
  import opened Processor
  import opened Whereabouts
  import opened Messages
  import opened Mobility
  import M = Migration

  lemma RunInv(run: seq<Moment>, n: nat)
    requires IsRun(run) && n < |run|
    ensures Good(run[n]) && Inv(run[n].cfg, run[n].s) && Shaped(run[n].cfg, run[n].s)
  {
    hide Init, Step, IsSized, Recorded;
    RunKeeps(run, n);
  }

  /**
   * Main result: what a consumer has received from a producer is a prefix of what the producer sent it, at most one
   * message short, wherever the two have moved in the meantime.
   */
  lemma ReceivedIsPrefix(run: seq<Moment>, n: nat, p: nat, c: nat)
    requires IsRun(run) && n < |run|
    ensures var s := run[n].s;
      Log(s.received, p, c) <= Log(s.sent, p, c) && |Log(s.sent, p, c)| <= |Log(s.received, p, c)| + 1
  {
    RunInv(run, n);
    hide IsRun, Init, Step, IsSized, KernelsInv, PlaceInv, NetInv, TablesInv, CarriedInv, AimInv, Located;
  }

  /**
   * What there can be for a waiting consumer: a packet in flight, a deferred request, a table entry, or a request that
   * travels with a moving producer.
   */
  datatype Trace =
    | Flying(packet: Packet)
    | PutOff(packet: Packet)
    | Entered(kernel: nat, request: Request)
    | Along(task: nat, request: Request)

  /** How many of a kind there are. */
  ghost function Copies(s: System, t: Trace): nat {
    match t
    case Flying(packet) => s.net[packet]
    case PutOff(packet) => s.pending[packet]
    case Entered(i, r) => if i < |s.kernels| then s.kernels[i].table[r] else 0
    case Along(u, r) => if u < |s.carried| then s.carried[u][r] else 0
  }

  function ConsumerOf(t: Trace): int {
    match t
    case Flying(packet) => packet.consumer
    case PutOff(packet) => packet.consumer
    case Entered(_, r) => r.requester
    case Along(_, r) => r.requester
  }

  function ProducerOf(t: Trace): int {
    match t
    case Flying(packet) => packet.producer
    case PutOff(packet) => packet.producer
    case Entered(_, r) => r.requested
    case Along(_, r) => r.requested
  }

  ghost predicate IsOnlyTrace(s: System, c: nat, t: Trace) {
    ConsumerOf(t) == c && Copies(s, t) == 1 && forall other :: ConsumerOf(other) == c && Copies(s, other) > 0 ==>
      other == t
  }

  /** The trace the history calls for. */
  ghost function TraceOf(cfg: Config, s: System, p: nat, c: nat): Trace
    requires Shaped(cfg, s) && p < |cfg.host| && c < |cfg.host|
  {
    match s.place[c]
    case OnTheWire(to) => Flying(RequestPacket(p, c, cfg.host[c], to))
    case Delivering(payload) => Flying(DeliveryPacket(p, c, payload, cfg.host[c]))
    case Deferred(at) => PutOff(RequestPacket(p, c, cfg.host[c], at))
    case InTable(at) => Entered(at, Request(c, p, cfg.host[c]))
    case _ => Along(p, Request(c, p, cfg.host[c]))
  }

  lemma TracesAreAwaited(cfg: Config, s: System, t: Trace)
    requires Inv(cfg, s) && Copies(s, t) > 0
    ensures ProducerOf(t) >= 0 && ConsumerOf(t) >= 0 && IsPair(cfg, ProducerOf(t), ConsumerOf(t))
    ensures Awaits(cfg, s, ProducerOf(t), ConsumerOf(t)) && t == TraceOf(cfg, s, ProducerOf(t), ConsumerOf(t))
    ensures s.place[ConsumerOf(t)] != Nowhere
  {
    hide Located, KernelsInv, PlaceInv, LogInv, AimInv;
    match t
    case Flying(packet) => assert s.net[packet] == if IsFlying(cfg, s, packet) then 1 else 0;
    case PutOff(packet) => assert s.pending[packet] == if IsPending(cfg, s, packet) then 1 else 0;
    case Entered(i, r) => assert s.kernels[i].table[r] == if IsEntry(cfg, s, i, r) then 1 else 0;
    case Along(u, r) => assert s.carried[u][r] == if IsCarried(cfg, s, u, r) then 1 else 0;
  }

  lemma AwaitedHasTrace(cfg: Config, s: System, p: nat, c: nat)
    requires Inv(cfg, s) && IsPair(cfg, p, c) && Awaits(cfg, s, p, c) && s.place[c] != Nowhere
    ensures Copies(s, TraceOf(cfg, s, p, c)) == 1
  {
    hide KernelsInv, PlaceInv, LogInv, IsSound;
    assert FitsPlace(cfg, p, s.place[c]);
    match TraceOf(cfg, s, p, c)
    case Flying(packet) => assert IsFlying(cfg, s, packet);
    case PutOff(packet) => assert IsPending(cfg, s, packet);
    case Entered(i, r) => assert IsEntry(cfg, s, i, r);
    case Along(u, r) => assert IsCarried(cfg, s, u, r);
  }

  /**
   * Main result: a task waits exactly when there is, for it, exactly one of a request in flight, a deferred request, a
   * table entry, a request carried along with a moving producer, and a delivery in flight; and that one names the
   * producer it waits for.
   */
  lemma WaitsForExactlyOne(run: seq<Moment>, n: nat, c: nat)
    requires IsRun(run) && n < |run| && c < |run[n].cfg.host|
    ensures Shaped(run[n].cfg, run[n].s)
    ensures var s := run[n].s; var k := KernelOf(run[n].cfg, s, c);
      && (c in k.waiting ==> exists t :: IsOnlyTrace(s, c, t) && ProducerOf(t) == k.waiting[c])
      && (c !in k.waiting ==> forall t :: ConsumerOf(t) == c ==> Copies(s, t) == 0)
  {
    hide IsRun, NetInv, TablesInv, LogInv, CarriedInv, AimInv, Located, IsSized, Copies, TraceOf;
    RunInv(run, n);
    var cfg, s := run[n].cfg, run[n].s;
    forall t | Copies(s, t) > 0 && ConsumerOf(t) == c
      ensures c in KernelOf(cfg, s, c).waiting
      ensures var p := KernelOf(cfg, s, c).waiting[c]; p < |cfg.host| && t == TraceOf(cfg, s, p, c)
    {
      TracesAreAwaited(cfg, s, t);
    }
    if c in KernelOf(cfg, s, c).waiting {
      var p := KernelOf(cfg, s, c).waiting[c];
      AwaitedHasTrace(cfg, s, p, c);
      TraceNames(cfg, s, p, c);
      assert IsOnlyTrace(s, c, TraceOf(cfg, s, p, c));
    }
  }

  lemma TraceNames(cfg: Config, s: System, p: nat, c: nat)
    requires Shaped(cfg, s) && p < |cfg.host| && c < |cfg.host|
    ensures ConsumerOf(TraceOf(cfg, s, p, c)) == c && ProducerOf(TraceOf(cfg, s, p, c)) == p
  {
  }

  /**
   * Main result: no kernel ever enters one of the error loops of the message tables, no request arrives at a full
   * table, and every delivery arrives where its consumer waits.
   */
  lemma NothingIsLost(run: seq<Moment>, n: nat, pkt: Packet)
    requires IsRun(run) && n < |run|
    ensures Shaped(run[n].cfg, run[n].s) && forall i :: 0 <= i < |run[n].s.kernels| ==> !run[n].s.kernels[i].stuck
    ensures var cfg, s := run[n].cfg, run[n].s;
      IsRequestFor(cfg, s, pkt) && (pkt in s.net || pkt in s.pending) && HasTcb(cfg, pkt.to, pkt.producer) ==>
        |s.kernels[pkt.to].table| < cfg.size
    ensures var cfg, s := run[n].cfg, run[n].s;
      pkt.DeliveryPacket? && pkt in s.net ==>
        pkt.consumer < |cfg.host| && Awaits(cfg, s, pkt.producer, pkt.consumer) && pkt.to == cfg.host[pkt.consumer]
  {
    hide IsRun, NetInv, TablesInv, LogInv, PlaceInv, CarriedInv, AimInv, Located, IsSized;
    RunInv(run, n);
    var cfg, s := run[n].cfg, run[n].s;
    if IsRequestFor(cfg, s, pkt) && (pkt in s.net || pkt in s.pending) && HasTcb(cfg, pkt.to, pkt.producer) {
      RequestIsAwaited(cfg, s, pkt);
      TableHasRoom(run[n], pkt.to, pkt.producer, pkt.consumer);
    }
    if pkt.DeliveryPacket? && pkt in s.net { DeliveryIsAwaited(cfg, s, pkt); }
  }

  // ----- the location tables

  /** Processor y is told of a task and has no room for the location. */
  ghost predicate FindsNoRoom(m: Moment, m': Moment, y: nat) {
    exists t :: LearnSpins(m, m', t, y)
  }

  /**
   * Main result: a departing task's host always finds the entry it has to replace, so a processor is in an error loop
   * of the location table exactly when it was told of a task for which the table had no room.
   */
  lemma {:induction false} SpinsExactlyWhenFull(run: seq<Moment>, n: nat, y: nat)
    requires IsRun(run) && n < |run|
    ensures y in run[n].spinning <==> exists k :: 0 <= k < n && FindsNoRoom(run[k], run[k + 1], y)
  {
    hide Step, Init, FindsNoRoom;
    if n == 0 {
      StartsWell(run[0]);
    } else {
      SpinsExactlyWhenFull(run, n - 1, y);
      RunInv(run, n - 1);
      StepOf(run, n - 1);
      SpinsWhenFull(run[n - 1], run[n], y);
      assert run[n - 1 + 1] == run[n];
    }
  }

  lemma StartsWell(m: Moment)
    requires Init(m)
    ensures m.spinning == {}
  {
  }

  lemma SpinsWhenFull(m: Moment, m': Moment, y: nat)
    requires Good(m) && Step(m, m')
    ensures y in m'.spinning <==> y in m.spinning || FindsNoRoom(m, m', y)
  {
    hide Good, Works, LocationsAt, Runs, Relocated, M.Took, TasksAt;
    forall t: nat ensures !LeaveSpins(m, m', t) { LeavingIsRecorded(m, m', t); }
    hide LeaveSpins;
  }

  /** Main result: where the location tables have room for all tasks there are, no processor ever spins. */
  lemma EnoughLocations(run: seq<Moment>, n: nat)
    requires IsRun(run) && n < |run| && |run[0].cfg.host| <= run[0].cfg.locations
    ensures run[n].spinning == {}
  {
    hide IsRun, FindsNoRoom;
    forall y | y in run[n].spinning ensures false {
      SpinsExactlyWhenFull(run, n, y);
      var k :| 0 <= k < n && FindsNoRoom(run[k], run[k + 1], y);
      SameSizes(run, k);
      RunInv(run, k);
      AlwaysRoom(run[k], run[k + 1], y);
    }
  }

  lemma {:induction false} SameSizes(run: seq<Moment>, n: nat)
    requires IsRun(run) && n < |run|
    ensures |run[n].cfg.host| == |run[0].cfg.host| && run[n].cfg.locations == run[0].cfg.locations
  {
    hide Init, Works, LearnSpins, LeaveSpins, Runs, Relocated, M.Took, TasksAt;
    if n > 0 {
      SameSizes(run, n - 1);
      StepOf(run, n - 1);
      StepKeepsSizes(run[n - 1], run[n]);
    }
  }

  lemma StepKeepsSizes(m: Moment, m': Moment)
    requires Step(m, m')
    ensures |m'.cfg.host| == |m.cfg.host| && m'.cfg.locations == m.cfg.locations
  {
    hide Works, Runs, Relocated, M.Took, TasksAt, LocationsAt;
  }

  lemma AlwaysRoom(m: Moment, m': Moment, y: nat)
    requires Shaped(m.cfg, m.s) && |m.cfg.host| <= m.cfg.locations
    ensures !FindsNoRoom(m, m', y)
  {
    if t: nat :| LearnSpins(m, m', t, y) {
      SubsetSize(LocationsAt(m.cfg, y), Below(|m.cfg.host|) - {t});
    }
  }

  // ----- the kernels' own location tables

  /** A kernel's location table holds what the system says processor y knows. */
  ghost predicate Shows(table: seq<Location>, cfg: Config, y: nat)
    requires Fits(cfg)
  {
    && Unique(table) && AreReal(table) && |table| == cfg.locations
    && (forall id :: id in Known(table) ==> 0 <= id < |cfg.host|)
    && (forall t: nat :: t < |cfg.host| ==> Lookup(table, t) == LocationAt(WorldOf(cfg, t), y))
  }

  lemma ShownIsKnown(table: seq<Location>, cfg: Config, y: nat)
    requires Located(cfg) && Shows(table, cfg, y)
    ensures Known(table) == LocationsAt(cfg, y)
  {
    hide Known, AreReal, Unique, Lookup;
    forall t: nat | t < |cfg.host| ensures t in Known(table) <==> y in cfg.entry[t] {
      KnownIsFound(table, t);
      assert IsSound(WorldOf(cfg, t));
    }
  }

  /** What a departing task's host knows of the application afterwards. */
  ghost predicate Tells(known: seq<int>, cfg: Config, base: nat, y: nat)
    requires Fits(cfg)
  {
    forall i :: 0 <= i < |known| && base + i < |cfg.host| ==> known[i] == LocationAt(WorldOf(cfg, base + i), y)
  }

  lemma DepartureShows(cfg: Config, t: nat, was: seq<Location>, now: seq<Location>, known: seq<int>, base: nat)
    requires Located(cfg) && t in cfg.leaving && t < |cfg.host| && Shows(was, cfg, cfg.host[t])
    requires Unique(now) && AreReal(now) && |now| == |was| && Known(now) == Known(was) && AgreeBut(was, now, t)
    requires Lookup(now, t) == cfg.leaving[t] && forall i :: 0 <= i < |known| ==> known[i] == Lookup(now, base + i)
    ensures Fits(Departed(cfg, t)) && Shows(now, Departed(cfg, t), cfg.host[t])
    ensures Tells(known, Departed(cfg, t), base, cfg.host[t])
  {
    hide Known, AreReal, Unique, Lookup, IsSound;
    var cfg', h := Departed(cfg, t), cfg.host[t];
    forall u: nat | u < |cfg.host| ensures Lookup(now, u) == LocationAt(WorldOf(cfg', u), h) {
      if u != t {
        assert WorldOf(cfg', u) == WorldOf(cfg, u);
      } else {
        assert WorldOf(cfg', t) == Moved(WorldOf(cfg, t), cfg.leaving[t]);
      }
    }
  }

  /**
   * Main result: in every state of every run in which a task can leave, its kernel's own work on the location table
   * meets no error loop and does what the departure says, and the new host is told what the old one knows then.
   */
  method LeaveHost(ghost run: seq<Moment>, ghost n: nat, source: Locations, base: nat, count: nat, task: nat,
                   processor: nat)
    returns (known: seq<int>)
    requires IsRun(run) && n < |run| && Shaped(run[n].cfg, run[n].s) && task in run[n].cfg.leaving
    requires task < |run[n].cfg.host|
    requires processor == run[n].cfg.leaving[task] && Shows(source.entries[..], run[n].cfg, run[n].cfg.host[task])
    modifies source.entries
    ensures var cfg := Departed(run[n].cfg, task); var h := run[n].cfg.host[task];
      Fits(cfg) && Shows(source.entries[..], cfg, h) && |known| == count && Tells(known, cfg, base, h)
  {
    hide IsRun, Known, AreReal, Unique, Lookup, IsSound, Inv, IsSized;
    RunInv(run, n);
    InvParts(run[n]);
    ShownIsKnown(source.entries[..], run[n].cfg, run[n].cfg.host[task]);
    ghost var was := source.entries[..];
    var found;
    found, known := M.LeaveLocations(source, base, count, task, processor);
    assert task in LocationsAt(run[n].cfg, run[n].cfg.host[task]);
    DepartureShows(run[n].cfg, task, was, source.entries[..], known, base);
  }

  lemma InvParts(m: Moment)
    requires Good(m)
    ensures Located(m.cfg) && Recorded(m.cfg)
  {
    hide KernelsInv, PlaceInv, NetInv, TablesInv, LogInv, CarriedInv, AimInv, Recorded, Located, IsSized;
  }

  /** The locations told are those of hosts the tasks have had, by position among them. */
  ghost predicate NamesHosts(told: seq<int>, cfg: Config, base: nat, ks: seq<nat>)
    requires Fits(cfg)
  {
    && |ks| == |told|
    && forall i :: 0 <= i < |told| && told[i] != -1 ==>
      base + i < |cfg.host| && ks[i] <= |cfg.past[base + i]| && told[i] == WorldOf(cfg, base + i).hosts[ks[i]]
  }

  /** After processor y has learned of all tasks it is told of and did not know. */
  function LearnedAll(cfg: Config, y: nat, base: nat, told: seq<int>, ks: seq<nat>): Config
    requires |cfg.host| == |cfg.past| == |cfg.entry| && |ks| == |told|
  {
    cfg.(entry := seq(|cfg.entry|, t requires 0 <= t < |cfg.entry| =>
      if base <= t < base + |told| && told[t - base] != -1 then Learned(WorldOf(cfg, t), y, ks[t - base]).entry
      else cfg.entry[t]))
  }

  lemma LearnedAllAt(cfg: Config, y: nat, base: nat, told: seq<int>, ks: seq<nat>, t: nat)
    requires Located(cfg) && NamesHosts(told, cfg, base, ks) && t < |cfg.host|
    ensures var cfg' := LearnedAll(cfg, y, base, told, ks);
      && Fits(cfg')
      && LocationAt(WorldOf(cfg', t), y) ==
         M.Merged(LocationAt(WorldOf(cfg, t), y), if base <= t < base + |told| then told[t - base] else -1)
      && (y in cfg'.entry[t] <==> y in cfg.entry[t] || (base <= t < base + |told| && told[t - base] != -1))
  {
    assert IsSound(WorldOf(cfg, t));
    hide IsSound;
    if base <= t < base + |told| { assert told[t - base] != -1 ==> base + (t - base) < |cfg.host|; }
  }

  /** Taking over the locations one by one, each is a learning step where there is room, or changes nothing. */
  lemma LearnsOneByOne(m: Moment, y: nat, base: nat, told: seq<int>, ks: seq<nat>, i: nat)
    requires Located(m.cfg) && NamesHosts(told, m.cfg, base, ks) && i < |told|
    ensures var a := LearnedAll(m.cfg, y, base, told[..i], ks[..i]);
      var b := LearnedAll(m.cfg, y, base, told[..i + 1], ks[..i + 1]);
      b == a || (|LocationsAt(a, y)| < a.locations ==> LearnStep(m.(cfg := a), m.(cfg := b), base + i, y, ks[i]))
  {
    var a, b := LearnedAll(m.cfg, y, base, told[..i], ks[..i]), LearnedAll(m.cfg, y, base, told[..i + 1], ks[..i + 1]);
    var t := base + i;
    hide LocationsAt, IsSound;
    forall u | 0 <= u < |m.cfg.entry| && u != t ensures b.entry[u] == a.entry[u] { }
    if told[i] == -1 || y in m.cfg.entry[t] {
      assert t < |m.cfg.entry| ==> b.entry[t] == a.entry[t];
      assert b.entry == a.entry;
    } else {
      assert WorldOf(a, t) == WorldOf(m.cfg, t);
      assert b.entry == a.entry[t := Learned(WorldOf(a, t), y, ks[i]).entry];
    }
  }

  lemma TakenOver(cfg: Config, y: nat, base: nat, told: seq<int>, ks: seq<nat>, was: seq<Location>)
    requires Located(cfg) && NamesHosts(told, cfg, base, ks) && Shows(was, cfg, y)
    ensures Known(was) + M.Wanted(base, told) == LocationsAt(LearnedAll(cfg, y, base, told, ks), y)
  {
    hide Known, AreReal, Unique, Lookup, IsSound;
    ShownIsKnown(was, cfg, y);
    var cfg' := LearnedAll(cfg, y, base, told, ks);
    forall t: nat | t < |cfg.host| ensures t in LocationsAt(cfg', y) <==> t in Known(was) + M.Wanted(base, told) {
      LearnedAllAt(cfg, y, base, told, ks, t);
      assert base <= t < base + |told| && told[t - base] != -1 ==> t in M.Wanted(base, told);
    }
  }

  /**
   * Main result: the new host's own work on the location table is learning all it is told, and it enters the error loop
   * exactly when that is more than the table has room for.
   */
  method TakeLocations(target: Locations, base: nat, told: seq<int>, ghost cfg: Config, ghost y: nat,
                       ghost ks: seq<nat>)
    returns (ok: bool)
    requires Located(cfg) && NamesHosts(told, cfg, base, ks) && Shows(target.entries[..], cfg, y)
    modifies target.entries
    ensures Fits(LearnedAll(cfg, y, base, told, ks))
    ensures ok <==> |LocationsAt(LearnedAll(cfg, y, base, told, ks), y)| <= cfg.locations
    ensures ok ==> Shows(target.entries[..], LearnedAll(cfg, y, base, told, ks), y)
  {
    hide Known, AreReal, Unique, Lookup, IsSound, LocationsAt, M.Wanted;
    ghost var was := target.entries[..];
    TakenOver(cfg, y, base, told, ks, was);
    ok := M.HandleMigrationTaskLocation(target, base, told);
    if ok { TakenOverShows(cfg, y, base, told, ks, was, target.entries[..]); }
  }

  lemma TakenOverShows(cfg: Config, y: nat, base: nat, told: seq<int>, ks: seq<nat>, was: seq<Location>,
                       now: seq<Location>)
    requires Located(cfg) && NamesHosts(told, cfg, base, ks) && Shows(was, cfg, y)
    requires Unique(now) && AreReal(now) && |now| == |was| && Known(now) == Known(was) + M.Wanted(base, told)
    requires forall i :: 0 <= i < |told| ==> Lookup(now, base + i) == M.Merged(Lookup(was, base + i), told[i])
    requires forall task: nat :: task < base || task >= base + |told| ==> Lookup(now, task) == Lookup(was, task)
    ensures Fits(LearnedAll(cfg, y, base, told, ks)) && Shows(now, LearnedAll(cfg, y, base, told, ks), y)
  {
    hide Known, AreReal, Unique, Lookup, IsSound;
    var cfg' := LearnedAll(cfg, y, base, told, ks);
    forall t: nat | t < |cfg.host| ensures Lookup(now, t) == LocationAt(WorldOf(cfg', t), y) {
      LearnedAllAt(cfg, y, base, told, ks, t);
      if base <= t < base + |told| {
        var i := t - base;
        assert Lookup(now, base + i) == M.Merged(Lookup(was, base + i), told[i]);
      }
    }
  }

  // ----- moving tasks

  /**
   * Main result: a late request that reaches a processor its producer has left finds a location there that is not that
   * processor itself, and names a host from after the producer last left it; so it is passed on to strictly later
   * hosts.
   */
  lemma LateRequestsAdvance(run: seq<Moment>, n: nat, pkt: Packet)
    requires IsRun(run) && n < |run| && Shaped(run[n].cfg, run[n].s) && IsRequestFor(run[n].cfg, run[n].s, pkt)
    requires (pkt in run[n].s.net || pkt in run[n].s.pending) && !HasTcb(run[n].cfg, pkt.to, pkt.producer)
    ensures var w := WorldOf(run[n].cfg, pkt.producer); var location := LocationAt(w, pkt.to);
      && location != -1 && location != pkt.to && pkt.to in w.entry && w.entry[pkt.to] < |w.hosts|
      && location == w.hosts[w.entry[pkt.to]]
      && forall i :: 0 <= i < |w.hosts| && w.hosts[i] == pkt.to ==> i < w.entry[pkt.to]
  {
    hide IsRun, Inv, IsSized, Recorded;
    RunInv(run, n);
    PassFinds(run[n].cfg, run[n].s, pkt);
  }

  /**
   * Main result: from any processor that knows a task, a request reaches the task's host, however old the entries it
   * follows.
   */
  lemma RequestsReachTheHost(run: seq<Moment>, n: nat, t: nat, x: nat)
    requires IsRun(run) && n < |run| && t < |run[n].cfg.host|
    ensures Shaped(run[n].cfg, run[n].s)
    ensures x in run[n].cfg.entry[t] ==> exists visited :: LeadsToHost(WorldOf(run[n].cfg, t), x, visited)
  {
    hide IsRun, NetInv, TablesInv, LogInv, PlaceInv, CarriedInv, AimInv, KernelsInv, IsSized, IsSound, LeadsToHost;
    RunInv(run, n);
    if x in run[n].cfg.entry[t] { EntriesLeadToHost(WorldOf(run[n].cfg, t), x); }
  }

  /** All requests in tables, and all that travel with moving tasks. */
  ghost function Requests(s: System): multiset<Request> {
    Total(seq(|s.kernels|, i requires 0 <= i < |s.kernels| => s.kernels[i].table)) + Total(s.carried)
  }

  ghost function Total(parts: seq<multiset<Request>>): multiset<Request> {
    if parts == [] then multiset{} else Total(parts[..|parts| - 1]) + parts[|parts| - 1]
  }

  lemma {:induction false} TotalUpdate(parts: seq<multiset<Request>>, i: nat, part: multiset<Request>)
    requires i < |parts|
    ensures Total(parts[i := part]) + parts[i] == Total(parts) + part
  {
    var n := |parts| - 1;
    if i == n {
      assert parts[i := part][..n] == parts[..n];
    } else {
      TotalUpdate(parts[..n], i, part);
      assert parts[i := part][..n] == parts[..n][i := part];
      var a, b, last := Total(parts[..n][i := part]), Total(parts[..n]), parts[n];
      assert a + last + parts[i] == a + parts[i] + last && b + last + part == b + part + last;
    }
  }

  lemma RequestsUpdate(s: System, s': System, h: nat, t: nat, table: multiset<Request>, carried: multiset<Request>)
    requires h < |s.kernels| && t < |s.carried|
    requires s'.kernels == s.kernels[h := s.kernels[h].(table := table)] && s'.carried == s.carried[t := carried]
    requires table + carried == s.kernels[h].table + s.carried[t]
    ensures Requests(s') == Requests(s)
  {
    var tables := seq(|s.kernels|, i requires 0 <= i < |s.kernels| => s.kernels[i].table);
    assert seq(|s'.kernels|, i requires 0 <= i < |s'.kernels| => s'.kernels[i].table) == tables[h := table];
    TotalUpdate(tables, h, table);
    TotalUpdate(s.carried, t, carried);
    hide Total;
    SameSum(Total(tables[h := table]), Total(s.carried[t := carried]), Total(tables), Total(s.carried), table, carried,
            s.kernels[h].table, s.carried[t]);
  }

  lemma SameSum(a': multiset<Request>, b': multiset<Request>, a: multiset<Request>, b: multiset<Request>,
                x': multiset<Request>, y': multiset<Request>, x: multiset<Request>, y: multiset<Request>)
    requires a' + x == a + x' && b' + y == b + y' && x' + y' == x + y
    ensures a' + b' == a + b
  {
    forall r ensures (a' + b')[r] == (a + b)[r] {
      assert (a' + x)[r] == (a + x')[r] && (b' + y)[r] == (b + y')[r] && (x' + y')[r] == (x + y)[r];
    }
  }

  /**
   * Main result: a move neither loses nor duplicates a pending request. In every run, each order, departure, arrival
   * and exchange of locations leaves the requests in the tables and those that travel, taken together, and all packets,
   * as they were.
   */
  lemma MovesKeepRequests(run: seq<Moment>, n: nat)
    requires IsRun(run) && n + 1 < |run| && Shaped(run[n].cfg, run[n].s) && !Works(run[n].cfg, run[n].s, run[n + 1].s)
    ensures Requests(run[n + 1].s) == Requests(run[n].s)
    ensures run[n + 1].s.net == run[n].s.net && run[n + 1].s.pending == run[n].s.pending
  {
    hide IsRun, Good, Inv, Works, Requests, OrderStep, LeaveStep, ArriveStep, LearnStep, LeaveSpins, LearnSpins;
    RunInv(run, n);
    var m, m' := run[n], run[n + 1];
    StepOf(run, n);
    if t: nat, requests, kept :| LeaveStep(m, m', t, requests, kept) {
      LeavingKeepsRequests(m, m', t, requests, kept);
    } else if t: nat, requests, table :| ArriveStep(m, m', t, requests, table) {
      ArrivingKeepsRequests(m, m', t, requests, table);
    } else {
      SameSystem(m, m');
    }
  }

  lemma StepOf(run: seq<Moment>, n: nat)
    requires IsRun(run) && n + 1 < |run|
    ensures Step(run[n], run[n + 1])
  {
  }

  lemma SameSystem(m: Moment, m': Moment)
    requires || (exists t, to :: OrderStep(m, m', t, to)) || (exists t, y, k :: LearnStep(m, m', t, y, k))
      || (exists t :: Shaped(m.cfg, m.s) && LeaveSpins(m, m', t)) || (exists t, y :: LearnSpins(m, m', t, y))
    ensures m'.s == m.s
  {
  }

  lemma LeavingKeepsRequests(m: Moment, m': Moment, t: nat, requests: seq<Request>, kept: multiset<Request>)
    requires Good(m) && Shaped(m.cfg, m.s) && LeaveStep(m, m', t, requests, kept)
    ensures Requests(m'.s) == Requests(m.s) && m'.s.net == m.s.net && m'.s.pending == m.s.pending
  {
    hide Good, Requests, Shared, Relocated;
    NothingCarriedYet(m, t);
    M.SharedAddsUp(KernelOf(m.cfg, m.s, t).table, multiset(requests), kept, t);
    RequestsUpdate(m.s, m'.s, m.cfg.host[t], t, kept, multiset(requests));
  }

  lemma ArrivingKeepsRequests(m: Moment, m': Moment, t: nat, requests: seq<Request>, table: multiset<Request>)
    requires Good(m) && Shaped(m.cfg, m.s) && ArriveStep(m, m', t, requests, table)
    ensures Requests(m'.s) == Requests(m.s) && m'.s.net == m.s.net && m'.s.pending == m.s.pending
  {
    hide Inv, IsSized, Requests, M.Took, Relocated;
    RoomForCarried(m, t);
    AllEnter(m, m', t, requests, table);
    RequestsUpdate(m.s, m'.s, m.cfg.host[t], t, table, multiset{});
  }

  lemma NothingCarriedYet(m: Moment, t: nat)
    requires Good(m) && t < |m.cfg.host| && t !in m.cfg.arriving
    ensures m.s.carried[t] == multiset{}
  {
    hide IsSized, NetInv, TablesInv, LogInv, PlaceInv, KernelsInv, Located;
    forall r ensures m.s.carried[t][r] == 0 {
      assert m.s.carried[t][r] == if IsCarried(m.cfg, m.s, t, r) then 1 else 0;
      EntriesAndCarried(m, r);
      NotYetCarried(m, t, r);
    }
  }

  /**
   * Main result: the kernels' own move of the pending requests, from the table of the old host to that of the new one,
   * keeps every one of them, in every state of every run in which the task can leave.
   */
  method MoveRequests(ghost run: seq<Moment>, ghost n: nat, source: Table, target: Table, task: nat)
    requires IsRun(run) && n < |run| && Shaped(run[n].cfg, run[n].s) && task in run[n].cfg.leaving
    requires task < |run[n].cfg.host|
    requires source.Valid() && target.Valid() && source.slots != target.slots && target.slots.Length == run[n].cfg.size
    requires run[n].cfg.leaving[task] < run[n].cfg.processors
    requires source.Contents() == KernelOf(run[n].cfg, run[n].s, task).table
    requires target.Contents() == run[n].s.kernels[run[n].cfg.leaving[task]].table
    modifies source.slots, target.slots
    ensures source.Valid() && target.Valid()
    ensures source.Contents() + target.Contents() == old(source.Contents()) + old(target.Contents())
    ensures forall r: Request :: r.requested == task ==> source.Contents()[r] == 0
    ensures forall r: Request :: r.requested != task ==> source.Contents()[r] == old(source.Contents())[r]
    ensures forall r: Request :: r.requested != task ==> target.Contents()[r] == old(target.Contents())[r]
  {
    hide IsRun, Good, Inv, Shaped;
    RunInv(run, n);
    ghost var source0, target0 := source.Contents(), target.Contents();
    M.MigrateRequests(source, target, task);
    AllMove(run[n], task, source0, target0, source.Contents(), target.Contents());
  }

  lemma AllMove(m: Moment, t: nat, source0: multiset<Request>, target0: multiset<Request>, source: multiset<Request>,
                target: multiset<Request>)
    requires Good(m) && t in m.cfg.leaving && t < |m.cfg.host| && m.cfg.leaving[t] < m.cfg.processors
    requires source0 == KernelOf(m.cfg, m.s, t).table && target0 == m.s.kernels[m.cfg.leaving[t]].table
    requires M.Moved(source0, target0, source, target, m.cfg.size, t)
    ensures source + target == source0 + target0
  {
    hide Good;
    var taken := source0 - source;
    assert Shared(source0, taken, source, t);
    RoomAtNewHost(m, t, taken, source);
    assert source0 == taken + source;
  }
}
