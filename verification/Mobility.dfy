/** Every run of kernels whose tasks talk to each other and move: the moves, and what all steps together guarantee. */
module Mobility {
  import opened Basics
  import opened RequestTable
  import opened Processor
  import opened Whereabouts
  import opened Messages
  import M = Migration

  /** The system at one time.  `spinning` are the processors in an error loop of the location table. */
  datatype Moment = Moment(cfg: Config, s: System, spinning: set<nat>)

  // ----- the moves

  ghost function TasksAt(cfg: Config, i: nat): set<nat> {
    set t: nat | t < |cfg.host| && HasTcb(cfg, i, t)
  }

  ghost function TasksOf(cfg: Config, a: nat): set<nat> {
    set t: nat | t < |cfg.app| && cfg.app[t] == a
  }

  /** The tasks that processor y has a location entry for. */
  ghost function LocationsAt(cfg: Config, y: nat): set<nat> {
    set t: nat | t < |cfg.entry| && y in cfg.entry[t]
  }

  /** A task is ordered to move, and its code goes to a processor with a free control block. */
  ghost predicate OrderStep(m: Moment, m': Moment, t: nat, to: nat) {
    && m'.s == m.s && m'.spinning == m.spinning && t < |m.cfg.host| && t !in m.cfg.leaving && t !in m.cfg.arriving
    && to < m.cfg.processors && to != m.cfg.host[t]
    && m'.cfg == m.cfg.(leaving := m.cfg.leaving[t := to]) && |TasksAt(m'.cfg, to)| <= m.cfg.maxLocalTasks
  }

  /** After task t has left its host, which records where it went. */
  function Departed(cfg: Config, t: nat): Config
    requires t < |cfg.host| == |cfg.past| == |cfg.entry| && t in cfg.leaving
  {
    cfg.(host := cfg.host[t := cfg.leaving[t]], past := cfg.past[t := WorldOf(cfg, t).hosts],
         entry := cfg.entry[t := Moved(WorldOf(cfg, t), cfg.leaving[t]).entry],
         leaving := cfg.leaving - {t}, arriving := cfg.arriving + {t})
  }

  /** The places of the requests for t once those at the given place have moved to another. */
  ghost function Relocated(cfg: Config, s: System, t: nat, from: Place, to: Place): (place: seq<Place>)
    requires Shaped(cfg, s)
    ensures |place| == |s.place|
  {
    seq(|s.place|, c requires 0 <= c < |s.place| => if s.place[c] == from && Awaits(cfg, s, t, c) then to else s.place[c])
  }

  /** The task's host, which has to replace the task's location entry, would not find one. */
  ghost predicate LeaveSpins(m: Moment, m': Moment, t: nat)
    requires Shaped(m.cfg, m.s)
  {
    && t in m.cfg.leaving && t < |m.cfg.host| && Runs(m.cfg, m.s, t) && m.cfg.host[t] !in m.cfg.entry[t]
    && m' == m.(spinning := m.spinning + {m.cfg.host[t]})
  }

  /**
   * A task that does not wait for a message leaves its host, and takes along the requests for it that are in the table
   * there.
   */
  ghost predicate LeaveStep(m: Moment, m': Moment, t: nat, requests: seq<Request>, kept: multiset<Request>)
    requires Shaped(m.cfg, m.s)
  {
    && t in m.cfg.leaving && t < |m.cfg.host| && Runs(m.cfg, m.s, t) && m.cfg.host[t] in m.cfg.entry[t]
    && m'.spinning == m.spinning && m'.cfg == Departed(m.cfg, t)
    && var h := m.cfg.host[t];
    && Shared(m.s.kernels[h].table, multiset(requests), kept, t)
    && m'.s == m.s.(kernels := m.s.kernels[h := m.s.kernels[h].(table := kept)],
                    carried := m.s.carried[t := multiset(requests)],
                    place := Relocated(m.cfg, m.s, t, InTable(h), Carried))
  }

  /**
   * The last of an arriving task's data is in: the locations that came with it have been taken over, its own among
   * them, the requests have been offered to the table, and it runs again.
   */
  ghost predicate ArriveStep(m: Moment, m': Moment, t: nat, requests: seq<Request>, table: multiset<Request>)
    requires Shaped(m.cfg, m.s)
  {
    && t in m.cfg.arriving && t < |m.cfg.host| && m.cfg.host[t] in m.cfg.entry[t]
    && m'.spinning == m.spinning && m'.cfg == m.cfg.(arriving := m.cfg.arriving - {t})
    && var h := m.cfg.host[t];
    && multiset(requests) == m.s.carried[t] && M.Took(m.s.kernels[h].table, m.cfg.size, M.For(requests, t), table)
    && m'.s == m.s.(kernels := m.s.kernels[h := m.s.kernels[h].(table := table)],
                    carried := m.s.carried[t := multiset{}],
                    place := Relocated(m.cfg, m.s, t, Carried, InTable(h)))
  }

  /** Processor y, which had no location for task t but room for one, is told of one of its hosts. */
  ghost predicate LearnStep(m: Moment, m': Moment, t: nat, y: nat, k: nat) {
    && m'.s == m.s && m'.spinning == m.spinning && |LocationsAt(m.cfg, y)| < m.cfg.locations
    && t < |m.cfg.host| == |m.cfg.past| == |m.cfg.entry| && y !in m.cfg.entry[t] && k <= |m.cfg.past[t]|
    && m'.cfg == m.cfg.(entry := m.cfg.entry[t := Learned(WorldOf(m.cfg, t), y, k).entry])
  }

  /** Processor y is told of a task it has no location for, and its table is full. */
  ghost predicate LearnSpins(m: Moment, m': Moment, t: nat, y: nat) {
    && t < |m.cfg.host| == |m.cfg.entry| && y !in m.cfg.entry[t] && |LocationsAt(m.cfg, y)| >= m.cfg.locations
    && m' == m.(spinning := m.spinning + {y})
  }

  ghost predicate Step(m: Moment, m': Moment) {
    && Shaped(m.cfg, m.s)
    && (|| (m'.cfg == m.cfg && m'.spinning == m.spinning && Works(m.cfg, m.s, m'.s))
        || (exists t, to :: OrderStep(m, m', t, to))
        || (exists t, requests, kept :: LeaveStep(m, m', t, requests, kept))
        || (exists t, requests, table :: ArriveStep(m, m', t, requests, table))
        || (exists t, y, k :: LearnStep(m, m', t, y, k))
        || (exists t :: LeaveSpins(m, m', t))
        || (exists t, y :: LearnSpins(m, m', t, y)))
  }

  /**
   * A request table has a slot for every local task and every other task an application can have; one for locations,
   * for every such.
   */
  ghost predicate IsSized(cfg: Config) {
    && Fits(cfg) && cfg.maxTasksApp > 0 && cfg.size == cfg.maxLocalTasks * (cfg.maxTasksApp - 1)
    && cfg.locations == cfg.maxLocalTasks * cfg.maxTasksApp
    && (forall i: nat :: i < cfg.processors ==> |TasksAt(cfg, i)| <= cfg.maxLocalTasks)
    && (forall a: nat :: |TasksOf(cfg, a)| <= cfg.maxTasksApp)
  }

  ghost predicate Init(m: Moment) {
    && Shaped(m.cfg, m.s) && IsSized(m.cfg) && m.cfg.leaving == map[] && m.cfg.arriving == {} && m.spinning == {}
    && (forall y: nat :: |LocationsAt(m.cfg, y)| <= m.cfg.locations)
    && (forall t: nat :: t < |m.cfg.host| ==> IsReleased(WorldOf(m.cfg, t)))
    && m.s.net == multiset{} && m.s.pending == multiset{} && m.s.sent == map[] && m.s.received == map[]
    && (forall i :: 0 <= i < |m.s.kernels| ==> m.s.kernels[i] == Kernel(multiset{}, map[], false))
    && (forall c :: 0 <= c < |m.s.place| ==> m.s.place[c] == Nowhere && m.s.carried[c] == multiset{})
  }

  ghost predicate IsRun(run: seq<Moment>) {
    run != [] && Init(run[0]) && forall i :: 0 <= i < |run| - 1 ==> Step(run[i], run[i + 1])
  }

  /** The host of every task that runs has an entry for it, and no location table holds more than it has room for. */
  ghost predicate Recorded(cfg: Config) {
    && |cfg.entry| == |cfg.host|
    && (forall t: nat :: t < |cfg.host| && t !in cfg.arriving ==> cfg.host[t] in cfg.entry[t])
    && (forall y: nat :: |LocationsAt(cfg, y)| <= cfg.locations)
  }

  ghost predicate Good(m: Moment) {
    Inv(m.cfg, m.s) && IsSized(m.cfg) && Recorded(m.cfg)
  }

  lemma RecordedEnough(cfg: Config, cfg': Config)
    requires Recorded(cfg) && cfg'.locations == cfg.locations && |cfg'.entry| == |cfg'.host| == |cfg.entry|
    requires forall t: nat :: t < |cfg'.host| && t !in cfg'.arriving ==> cfg'.host[t] in cfg'.entry[t]
    requires forall t: nat, y: nat :: t < |cfg'.entry| ==> (y in cfg'.entry[t] <==> y in cfg.entry[t])
    ensures Recorded(cfg')
  {
    forall y: nat ensures LocationsAt(cfg', y) == LocationsAt(cfg, y) { }
  }

  lemma InitHolds(m: Moment)
    requires Init(m)
    ensures Good(m)
  {
    forall t: nat | t < |m.cfg.host|
      ensures IsSound(WorldOf(m.cfg, t)) && m.cfg.past[t] == [] && m.cfg.host[t] in m.cfg.entry[t]
    {
      ReleasedIsSound(WorldOf(m.cfg, t));
      assert WorldOf(m.cfg, t).hosts == [m.cfg.host[t]];
    }
  }

  // ----- orders and locations

  /** Only what processors know of moves and locations differs: all tasks are where they were. */
  ghost predicate SameHosts(cfg: Config, cfg': Config) {
    cfg' == cfg.(entry := cfg'.entry, leaving := cfg'.leaving, arriving := cfg'.arriving) && |cfg'.entry| == |cfg.entry|
  }

  lemma HostsFrame(cfg: Config, cfg': Config, s: System)
    requires Inv(cfg, s) && SameHosts(cfg, cfg')
    ensures Shaped(cfg', s) && KernelsInv(cfg', s) && PlaceInv(cfg', s) && NetInv(cfg', s) && TablesInv(cfg', s)
    ensures LogInv(cfg', s)
    ensures forall p: nat, c: nat :: Awaits(cfg', s, p, c) <==> Awaits(cfg, s, p, c)
  {
    assert forall pkt :: IsFlying(cfg', s, pkt) <==> IsFlying(cfg, s, pkt);
    assert forall pkt :: IsPending(cfg', s, pkt) <==> IsPending(cfg, s, pkt);
    assert forall i, r :: IsEntry(cfg', s, i, r) <==> IsEntry(cfg, s, i, r);
    assert forall p: nat, c: nat :: Underway(cfg', s, p, c) == Underway(cfg, s, p, c);
  }

  lemma OrderKeeps(m: Moment, m': Moment, t: nat, to: nat)
    requires Good(m) && OrderStep(m, m', t, to)
    ensures Good(m')
  {
    hide KernelsInv, PlaceInv, NetInv, TablesInv, LogInv, IsSound, IsSized, Recorded;
    HostsFrame(m.cfg, m'.cfg, m.s);
    OrderKeepsTasks(m, m', t, to);
    OrderKeepsRecords(m, m', t, to);
    forall u: nat | u < |m.cfg.host| ensures WorldOf(m'.cfg, u) == WorldOf(m.cfg, u) { }
    forall u: nat, r: Request ensures IsCarried(m'.cfg, m.s, u, r) <==> IsCarried(m.cfg, m.s, u, r) { }
  }

  lemma OrderKeepsRecords(m: Moment, m': Moment, t: nat, to: nat)
    requires Recorded(m.cfg) && OrderStep(m, m', t, to)
    ensures Recorded(m'.cfg)
  {
    RecordedEnough(m.cfg, m'.cfg);
  }

  lemma OrderKeepsTasks(m: Moment, m': Moment, t: nat, to: nat)
    requires IsSized(m.cfg) && OrderStep(m, m', t, to)
    ensures IsSized(m'.cfg)
  {
    forall i: nat | i < m.cfg.processors ensures |TasksAt(m'.cfg, i)| <= m.cfg.maxLocalTasks {
      if i != to { assert TasksAt(m'.cfg, i) == TasksAt(m.cfg, i); }
    }
    forall a: nat ensures |TasksOf(m'.cfg, a)| <= m.cfg.maxTasksApp { assert TasksOf(m'.cfg, a) == TasksOf(m.cfg, a); }
  }

  lemma LearnKeeps(m: Moment, m': Moment, t: nat, y: nat, k: nat)
    requires Good(m) && LearnStep(m, m', t, y, k)
    ensures Good(m')
  {
    hide KernelsInv, PlaceInv, NetInv, TablesInv, LogInv, IsSound, Recorded;
    HostsFrame(m.cfg, m'.cfg, m.s);
    LearnKeepsRecords(m, m', t, y, k);
    LearningKeepsSound(WorldOf(m.cfg, t), y, k);
    SameTasks(m.cfg, m'.cfg);
    forall u: nat | u < |m.cfg.host| ensures IsSound(WorldOf(m'.cfg, u)) {
      assert WorldOf(m'.cfg, u) == if u == t then Learned(WorldOf(m.cfg, t), y, k) else WorldOf(m.cfg, u);
    }
    forall u: nat, r: Request ensures IsCarried(m'.cfg, m.s, u, r) <==> IsCarried(m.cfg, m.s, u, r) { }
  }

  lemma LearnKeepsRecords(m: Moment, m': Moment, t: nat, y: nat, k: nat)
    requires Recorded(m.cfg) && LearnStep(m, m', t, y, k)
    ensures Recorded(m'.cfg)
  {
    hide LocationsAt;
    forall z: nat {
      LearnAdds(m, m', t, y, k, z);
    }
  }

  lemma LearnAdds(m: Moment, m': Moment, t: nat, y: nat, k: nat, z: nat)
    requires LearnStep(m, m', t, y, k)
    ensures LocationsAt(m'.cfg, z) == if z == y then LocationsAt(m.cfg, z) + {t} else LocationsAt(m.cfg, z)
    ensures |LocationsAt(m'.cfg, z)| <= if z == y then |LocationsAt(m.cfg, z)| + 1 else |LocationsAt(m.cfg, z)|
  {
  }

  /** The processors have control blocks for the same tasks, or for fewer. */
  lemma SameTasks(cfg: Config, cfg': Config)
    requires IsSized(cfg) && Fits(cfg') && cfg' == cfg.(host := cfg'.host, past := cfg'.past, entry := cfg'.entry,
                                                       leaving := cfg'.leaving, arriving := cfg'.arriving)
    requires forall i: nat, t: nat :: HasTcb(cfg', i, t) ==> HasTcb(cfg, i, t)
    ensures IsSized(cfg')
  {
    forall i: nat | i < cfg.processors ensures |TasksAt(cfg', i)| <= cfg.maxLocalTasks {
      SubsetSize(TasksAt(cfg', i), TasksAt(cfg, i));
    }
    forall a: nat ensures |TasksOf(cfg', a)| <= cfg.maxTasksApp { assert TasksOf(cfg', a) == TasksOf(cfg, a); }
  }

  // ----- leaving

  /** Nobody waits for anything else than before, though one task may be hosted elsewhere now. */
  ghost predicate SameAwaits(m: Moment, m': Moment, t: nat)
    requires Shaped(m.cfg, m.s) && Shaped(m'.cfg, m'.s)
  {
    && |m'.cfg.host| == |m.cfg.host| && m'.cfg.app == m.cfg.app
    && (forall c: nat :: c < |m.cfg.host| && c != t ==> m'.cfg.host[c] == m.cfg.host[c])
    && (forall p: nat, c: nat :: Awaits(m'.cfg, m'.s, p, c) <==> Awaits(m.cfg, m.s, p, c))
    && (forall p: nat :: !Awaits(m.cfg, m.s, p, t) || m'.cfg.host[t] == m.cfg.host[t])
  }

  lemma LeavingAwaits(m: Moment, m': Moment, t: nat, requests: seq<Request>, kept: multiset<Request>)
    requires Inv(m.cfg, m.s) && LeaveStep(m, m', t, requests, kept)
    ensures Shaped(m'.cfg, m'.s) && SameAwaits(m, m', t)
    ensures KernelsInv(m'.cfg, m'.s) && PlaceInv(m'.cfg, m'.s)
  {
    hide NetInv, TablesInv, LogInv, CarriedInv, AimInv, IsSound;
  }

  /** A move changes no packet, and no place but those of requests that are entered or carried. */
  ghost predicate OnlyMoves(m: Moment, m': Moment, t: nat, from: Place, to: Place)
    requires Shaped(m.cfg, m.s) && Shaped(m'.cfg, m'.s)
  {
    && SameAwaits(m, m', t) && m'.s.place == Relocated(m.cfg, m.s, t, from, to)
    && (from.InTable? || from.Carried?) && (to.InTable? || to.Carried?)
    && (m'.s.net, m'.s.pending, m'.s.sent, m'.s.received) == (m.s.net, m.s.pending, m.s.sent, m.s.received)
  }

  lemma MovesKeepNet(m: Moment, m': Moment, t: nat, from: Place, to: Place)
    requires Shaped(m.cfg, m.s) && Shaped(m'.cfg, m'.s) && OnlyMoves(m, m', t, from, to) && NetInv(m.cfg, m.s)
    requires LogInv(m.cfg, m.s)
    ensures NetInv(m'.cfg, m'.s) && LogInv(m'.cfg, m'.s)
  {
    hide Awaits;
    forall pkt ensures IsFlying(m'.cfg, m'.s, pkt) <==> IsFlying(m.cfg, m.s, pkt) { }
    forall pkt ensures IsPending(m'.cfg, m'.s, pkt) <==> IsPending(m.cfg, m.s, pkt) { }
    forall p: nat, c: nat ensures Underway(m'.cfg, m'.s, p, c) == Underway(m.cfg, m.s, p, c) { }
    hide IsFlying, IsPending, Underway, Log, Relocated;
  }

  lemma AwaitsOne(m: Moment, p: nat, q: nat, c: nat)
    requires Shaped(m.cfg, m.s)
    ensures Awaits(m.cfg, m.s, p, c) && Awaits(m.cfg, m.s, q, c) ==> p == q
  {
  }

  /** What a request says of its consumer's host stays right as long as the consumer waits. */
  lemma HostStays(m: Moment, m': Moment, t: nat, r: Request)
    requires Shaped(m.cfg, m.s) && Shaped(m'.cfg, m'.s) && SameAwaits(m, m', t)
    requires r.requester >= 0 && r.requested >= 0 && r.requester < |m.cfg.host|
    requires Awaits(m.cfg, m.s, r.requested, r.requester)
    ensures Awaits(m'.cfg, m'.s, r.requested, r.requester) && m'.cfg.host[r.requester] == m.cfg.host[r.requester]
  {
    hide Awaits;
    var p: nat, c: nat := r.requested, r.requester;
    assert Awaits(m.cfg, m.s, p, c);
  }

  /** A right request of a waiting consumer whose place is the given one. */
  ghost predicate IsEntryAt(m: Moment, r: Request, place: Place)
    requires Shaped(m.cfg, m.s)
  {
    && r.requester >= 0 && r.requested >= 0 && IsPair(m.cfg, r.requested, r.requester)
    && Awaits(m.cfg, m.s, r.requested, r.requester) && m.s.place[r.requester] == place
    && r.proc == m.cfg.host[r.requester]
  }

  lemma EntriesAndCarried(m: Moment, r: Request)
    requires Shaped(m.cfg, m.s)
    ensures forall i: nat :: IsEntry(m.cfg, m.s, i, r) <==> IsEntryAt(m, r, InTable(i))
    ensures forall u: nat :: IsCarried(m.cfg, m.s, u, r) <==> r.requested == u && IsEntryAt(m, r, Carried)
  {
  }

  lemma PlaceMoves(m: Moment, m': Moment, t: nat, from: Place, to: Place, p: nat, c: nat)
    requires Shaped(m.cfg, m.s) && m'.s.place == Relocated(m.cfg, m.s, t, from, to) && Awaits(m.cfg, m.s, p, c)
    ensures c < |m.s.place| && m'.s.place[c] == if p == t && m.s.place[c] == from then to else m.s.place[c]
  {
    AwaitsOne(m, p, t, c);
  }

  /** A request moves with its producer, and stays where it is otherwise. */
  lemma EntryMoves(m: Moment, m': Moment, t: nat, from: Place, to: Place, r: Request, place: Place)
    requires Shaped(m.cfg, m.s) && Shaped(m'.cfg, m'.s) && SameAwaits(m, m', t)
    requires m'.s.place == Relocated(m.cfg, m.s, t, from, to)
    ensures IsEntryAt(m', r, place)
      <==> if r.requested == t && IsEntryAt(m, r, from) then place == to else IsEntryAt(m, r, place)
  {
    hide Awaits, Relocated;
    if r.requester >= 0 && r.requested >= 0 {
      var p: nat, c: nat := r.requested, r.requester;
      assert Awaits(m'.cfg, m'.s, p, c) <==> Awaits(m.cfg, m.s, p, c);
      if Awaits(m.cfg, m.s, p, c) {
        PlaceMoves(m, m', t, from, to, p, c);
        HostStays(m, m', t, r);
      }
    }
  }

  lemma LeavingKeepsTables(m: Moment, m': Moment, t: nat, requests: seq<Request>, kept: multiset<Request>)
    requires Shaped(m.cfg, m.s) && LeaveStep(m, m', t, requests, kept) && TablesInv(m.cfg, m.s)
    requires Shaped(m'.cfg, m'.s) && SameAwaits(m, m', t)
    ensures TablesInv(m'.cfg, m'.s)
  {
    hide Awaits, SameAwaits, Relocated, IsEntry, IsCarried;
    forall i: nat, r: Request | i < |m.s.kernels|
      ensures m'.s.kernels[i].table[r] == if IsEntry(m'.cfg, m'.s, i, r) then 1 else 0
    {
      assert m.s.kernels[i].table[r] == if IsEntry(m.cfg, m.s, i, r) then 1 else 0;
      EntriesAndCarried(m, r);
      EntriesAndCarried(m', r);
      EntryMoves(m, m', t, InTable(m.cfg.host[t]), Carried, r, InTable(i));
    }
  }

  lemma LeavingCarries(m: Moment, m': Moment, t: nat, requests: seq<Request>, kept: multiset<Request>)
    requires Shaped(m.cfg, m.s) && LeaveStep(m, m', t, requests, kept) && TablesInv(m.cfg, m.s)
    requires CarriedInv(m.cfg, m.s)
    requires AimInv(m.cfg, m.s) && t !in m.cfg.arriving && Shaped(m'.cfg, m'.s) && SameAwaits(m, m', t)
    ensures CarriedInv(m'.cfg, m'.s)
  {
    hide Awaits, SameAwaits, Relocated, IsEntry, IsCarried;
    forall u: nat, r: Request | u < |m.s.carried|
      ensures m'.s.carried[u][r] == if IsCarried(m'.cfg, m'.s, u, r) then 1 else 0
    {
      assert m.s.carried[u][r] == if IsCarried(m.cfg, m.s, u, r) then 1 else 0;
      assert m.s.kernels[m.cfg.host[t]].table[r] == if IsEntry(m.cfg, m.s, m.cfg.host[t], r) then 1 else 0;
      EntriesAndCarried(m, r);
      EntriesAndCarried(m', r);
      EntryMoves(m, m', t, InTable(m.cfg.host[t]), Carried, r, Carried);
      if u == t { NotYetCarried(m, t, r); }
    }
  }

  lemma AwaitsInRange(m: Moment, p: nat, c: nat)
    requires Shaped(m.cfg, m.s) && Awaits(m.cfg, m.s, p, c)
    ensures c < |m.cfg.host|
  {
  }

  lemma NotYetCarried(m: Moment, t: nat, r: Request)
    requires Shaped(m.cfg, m.s) && AimInv(m.cfg, m.s) && t !in m.cfg.arriving
    ensures r.requested == t ==> !IsEntryAt(m, r, Carried)
  {
  }

  lemma LeavingKeepsAim(m: Moment, m': Moment, t: nat, requests: seq<Request>, kept: multiset<Request>)
    requires Shaped(m.cfg, m.s) && LeaveStep(m, m', t, requests, kept) && AimInv(m.cfg, m.s)
    requires Shaped(m'.cfg, m'.s) && SameAwaits(m, m', t)
    ensures AimInv(m'.cfg, m'.s)
  {
    hide Awaits;
    forall p: nat, c: nat | Awaits(m'.cfg, m'.s, p, c) && p < |m.cfg.host|
      ensures c < |m.cfg.host| && FitsPlace(m'.cfg, p, m'.s.place[c])
    {
      AwaitsInRange(m, p, c);
      AwaitsOne(m, p, t, c);
      assert FitsPlace(m.cfg, p, m.s.place[c]);
    }
  }

  lemma LeavingKeepsLocated(m: Moment, m': Moment, t: nat, requests: seq<Request>, kept: multiset<Request>)
    requires Shaped(m.cfg, m.s) && LeaveStep(m, m', t, requests, kept) && Located(m.cfg) && IsSized(m.cfg)
    ensures Located(m'.cfg) && IsSized(m'.cfg)
  {
    MoveKeepsSound(WorldOf(m.cfg, t), m.cfg.leaving[t]);
    hide IsSound, Awaits, Shared;
    forall u: nat | u < |m.cfg.host| ensures IsSound(WorldOf(m'.cfg, u)) {
      assert WorldOf(m'.cfg, u) == if u == t then Moved(WorldOf(m.cfg, t), m.cfg.leaving[t]) else WorldOf(m.cfg, u);
    }
    SameTasks(m.cfg, m'.cfg);
  }

  lemma LeaveKeeps(m: Moment, m': Moment, t: nat, requests: seq<Request>, kept: multiset<Request>)
    requires Good(m) && LeaveStep(m, m', t, requests, kept)
    ensures Good(m')
  {
    hide Inv, KernelsInv, PlaceInv, NetInv, TablesInv, LogInv, CarriedInv, AimInv, IsSized, SameAwaits, Shared, Awaits,
      Relocated, IsSound;
    Parts(m.cfg, m.s);
    LeavingAwaits(m, m', t, requests, kept);
    assert OnlyMoves(m, m', t, InTable(m.cfg.host[t]), Carried);
    MovesKeepNet(m, m', t, InTable(m.cfg.host[t]), Carried);
    LeavingKeepsTables(m, m', t, requests, kept);
    LeavingCarries(m, m', t, requests, kept);
    LeavingKeepsAim(m, m', t, requests, kept);
    LeavingKeepsLocated(m, m', t, requests, kept);
    RecordedEnough(m.cfg, m'.cfg);
    Conclude(m'.cfg, m'.s);
  }

  // ----- arriving

  lemma ArrivingAwaits(m: Moment, m': Moment, t: nat, requests: seq<Request>, table: multiset<Request>)
    requires Inv(m.cfg, m.s) && ArriveStep(m, m', t, requests, table)
    ensures Shaped(m'.cfg, m'.s) && SameAwaits(m, m', t)
    ensures KernelsInv(m'.cfg, m'.s) && PlaceInv(m'.cfg, m'.s)
  {
    hide NetInv, TablesInv, LogInv, CarriedInv, AimInv, IsSound;
  }

  /** What has been carried names the task that carries it. */
  lemma CarriedAreFor(m: Moment, t: nat, requests: seq<Request>)
    requires Shaped(m.cfg, m.s) && CarriedInv(m.cfg, m.s) && t < |m.s.carried| && multiset(requests) == m.s.carried[t]
    ensures M.AreFor(requests, t)
  {
    forall i | 0 <= i < |requests| ensures requests[i].requested == t && requests[i].requester >= 0 {
      assert requests[i] in m.s.carried[t];
      assert m.s.carried[t][requests[i]] == if IsCarried(m.cfg, m.s, t, requests[i]) then 1 else 0;
    }
  }

  /** With room in the table all that was carried enters it. */
  lemma AllEnter(m: Moment, m': Moment, t: nat, requests: seq<Request>, table: multiset<Request>)
    requires Inv(m.cfg, m.s) && ArriveStep(m, m', t, requests, table)
    requires |KernelOf(m.cfg, m.s, t).table| + |m.s.carried[t]| <= m.cfg.size
    ensures table == KernelOf(m.cfg, m.s, t).table + m.s.carried[t]
  {
    hide KernelsInv, PlaceInv, NetInv, TablesInv, LogInv, AimInv, Located;
    CarriedAreFor(m, t, requests);
    M.ForAll(requests, t);
    assert requests[..|requests|] == requests && |multiset(requests)| == |requests|;
  }

  lemma ArrivingKeepsTables(m: Moment, m': Moment, t: nat, requests: seq<Request>, table: multiset<Request>)
    requires Shaped(m.cfg, m.s) && ArriveStep(m, m', t, requests, table) && TablesInv(m.cfg, m.s)
    requires CarriedInv(m.cfg, m.s)
    requires table == KernelOf(m.cfg, m.s, t).table + m.s.carried[t] && Shaped(m'.cfg, m'.s) && SameAwaits(m, m', t)
    ensures TablesInv(m'.cfg, m'.s) && CarriedInv(m'.cfg, m'.s)
  {
    hide Awaits, SameAwaits, Relocated, IsEntry, IsCarried, M.Took, M.For;
    forall i: nat, r: Request | i < |m.s.kernels|
      ensures m'.s.kernels[i].table[r] == if IsEntry(m'.cfg, m'.s, i, r) then 1 else 0
    {
      assert m.s.kernels[i].table[r] == if IsEntry(m.cfg, m.s, i, r) then 1 else 0;
      assert m.s.carried[t][r] == if IsCarried(m.cfg, m.s, t, r) then 1 else 0;
      EntriesAndCarried(m, r);
      EntriesAndCarried(m', r);
      EntryMoves(m, m', t, Carried, InTable(m.cfg.host[t]), r, InTable(i));
    }
    forall u: nat, r: Request | u < |m.s.carried|
      ensures m'.s.carried[u][r] == if IsCarried(m'.cfg, m'.s, u, r) then 1 else 0
    {
      assert m.s.carried[u][r] == if IsCarried(m.cfg, m.s, u, r) then 1 else 0;
      EntriesAndCarried(m, r);
      EntriesAndCarried(m', r);
      EntryMoves(m, m', t, Carried, InTable(m.cfg.host[t]), r, Carried);
    }
  }

  lemma ArrivingKeepsAim(m: Moment, m': Moment, t: nat, requests: seq<Request>, table: multiset<Request>)
    requires Shaped(m.cfg, m.s) && ArriveStep(m, m', t, requests, table) && AimInv(m.cfg, m.s)
    requires Shaped(m'.cfg, m'.s) && SameAwaits(m, m', t)
    ensures AimInv(m'.cfg, m'.s)
  {
    hide Awaits, Relocated, M.Took, M.For;
    forall p: nat, c: nat | Awaits(m'.cfg, m'.s, p, c) && p < |m.cfg.host|
      ensures c < |m.cfg.host| && FitsPlace(m'.cfg, p, m'.s.place[c])
    {
      AwaitsInRange(m, p, c);
      PlaceMoves(m, m', t, Carried, InTable(m.cfg.host[t]), p, c);
      assert FitsPlace(m.cfg, p, m.s.place[c]);
    }
  }

  lemma ArrivingKeepsLocated(m: Moment, m': Moment, t: nat, requests: seq<Request>, table: multiset<Request>)
    requires Shaped(m.cfg, m.s) && ArriveStep(m, m', t, requests, table) && Located(m.cfg) && IsSized(m.cfg)
    ensures Located(m'.cfg) && IsSized(m'.cfg)
  {
    hide IsSound, Awaits, M.Took, M.For;
    forall u: nat | u < |m.cfg.host| ensures WorldOf(m'.cfg, u) == WorldOf(m.cfg, u) { }
    SameTasks(m.cfg, m'.cfg);
  }

  lemma ArriveKeeps(m: Moment, m': Moment, t: nat, requests: seq<Request>, table: multiset<Request>)
    requires Good(m) && ArriveStep(m, m', t, requests, table)
    requires |KernelOf(m.cfg, m.s, t).table| + |m.s.carried[t]| <= m.cfg.size
    ensures Good(m')
  {
    hide Inv, KernelsInv, PlaceInv, NetInv, TablesInv, LogInv, CarriedInv, AimInv, IsSized, SameAwaits, Awaits,
      Relocated, IsSound;
    hide M.Took, M.For;
    Parts(m.cfg, m.s);
    ArrivingAwaits(m, m', t, requests, table);
    AllEnter(m, m', t, requests, table);
    assert OnlyMoves(m, m', t, Carried, InTable(m.cfg.host[t]));
    MovesKeepNet(m, m', t, Carried, InTable(m.cfg.host[t]));
    ArrivingKeepsTables(m, m', t, requests, table);
    ArrivingKeepsAim(m, m', t, requests, table);
    ArrivingKeepsLocated(m, m', t, requests, table);
    RecordedEnough(m.cfg, m'.cfg);
    Conclude(m'.cfg, m'.s);
  }

  // ----- the request tables never fill

  ghost function Peers(cfg: Config, p: nat): set<nat>
    requires Fits(cfg) && p < |cfg.host|
  {
    TasksOf(cfg, cfg.app[p]) - {p}
  }

  /** The pairs of a producer among the given tasks and a consumer of its application. */
  ghost function Pairs(cfg: Config, producers: set<nat>): set<(nat, nat)>
    requires Fits(cfg) && forall p :: p in producers ==> p < |cfg.host|
  {
    set p, c | p in producers && c in Peers(cfg, p) :: (p, c)
  }

  ghost function PairsWith(p: nat, consumers: set<nat>): set<(nat, nat)> {
    set c | c in consumers :: (p, c)
  }

  lemma {:induction false} FewPairsWith(p: nat, consumers: set<nat>)
    ensures |PairsWith(p, consumers)| <= |consumers|
  {
    if consumers != {} {
      var c :| c in consumers;
      FewPairsWith(p, consumers - {c});
      assert PairsWith(p, consumers) == PairsWith(p, consumers - {c}) + {(p, c)};
      UnionSize(PairsWith(p, consumers - {c}), {(p, c)});
    }
  }

  lemma UnionSize<T>(a: set<T>, b: set<T>)
    ensures |a + b| <= |a| + |b|
  {
    assert |a + b| + |a * b| == |a| + |b|;
  }

  lemma {:induction false} FewPairs(cfg: Config, producers: set<nat>, maxTasksApp: nat)
    requires Fits(cfg) && maxTasksApp > 0 && forall p :: p in producers ==> p < |cfg.host|
    requires forall a: nat :: |TasksOf(cfg, a)| <= maxTasksApp
    ensures |Pairs(cfg, producers)| <= |producers| * (maxTasksApp - 1)
    decreases producers
  {
    hide Pairs, PairsWith, Peers, TasksOf;
    var k := maxTasksApp - 1;
    if producers == {} {
      NoPairs(cfg);
    } else {
      var p :| p in producers;
      var rest := producers - {p};
      FewPairs(cfg, rest, maxTasksApp);
      FewPairsWith(p, Peers(cfg, p));
      FewPeers(cfg, p, maxTasksApp);
      PairsOfOneMore(cfg, producers, p);
      UnionSize(Pairs(cfg, rest), PairsWith(p, Peers(cfg, p)));
      assert |producers| == |rest| + 1;
      OneMore(|rest|, k);
    }
  }

  lemma NoPairs(cfg: Config)
    requires Fits(cfg)
    ensures Pairs(cfg, {}) == {}
  {
  }

  lemma PairsOfOneMore(cfg: Config, producers: set<nat>, p: nat)
    requires Fits(cfg) && p in producers && forall p :: p in producers ==> p < |cfg.host|
    ensures Pairs(cfg, producers) == Pairs(cfg, producers - {p}) + PairsWith(p, Peers(cfg, p))
  {
  }

  lemma OneMore(n: nat, k: nat)
    ensures (n + 1) * k == n * k + k
  {
  }

  lemma FewPeers(cfg: Config, p: nat, maxTasksApp: nat)
    requires Fits(cfg) && p < |cfg.host| && |TasksOf(cfg, cfg.app[p])| <= maxTasksApp
    ensures |Peers(cfg, p)| <= maxTasksApp - 1
  {
    assert p in TasksOf(cfg, cfg.app[p]);
  }

  /** Requests that differ in their pair are no more than the pairs. */
  lemma {:induction false} RequestsArePairs(table: multiset<Request>, pairs: set<(nat, nat)>)
    requires forall r :: r in table ==>
      table[r] == 1 && r.requested >= 0 && r.requester >= 0 && (r.requested, r.requester) in pairs
    requires forall r, r' :: r in table && r' in table && r.requested == r'.requested && r.requester == r'.requester ==> r == r'
    ensures |table| <= |pairs|
    decreases |table|
  {
    if |table| > 0 {
      var r :| r in table;
      var rest := table - multiset{r};
      forall o | o in rest ensures (o.requested, o.requester) in pairs - {(r.requested, r.requester)} {
        assert o in table && o != r;
      }
      RequestsArePairs(rest, pairs - {(r.requested, r.requester)});
    }
  }

  lemma Monotone(a: nat, b: nat, n: nat)
    requires a <= b
    ensures a * n <= b * n
  {
  }

  /** Requests of waiting consumers for producers that processor i has control blocks of, each once. */
  ghost predicate AreOf(m: Moment, i: nat, requests: multiset<Request>)
    requires Shaped(m.cfg, m.s)
  {
    forall r :: r in requests ==>
      && requests[r] == 1 && r.requester >= 0 && r.requested >= 0 && IsPair(m.cfg, r.requested, r.requester)
      && r.proc == m.cfg.host[r.requester] && HasTcb(m.cfg, i, r.requested)
  }

  lemma PairsFit(cfg: Config, i: nat)
    requires IsSized(cfg) && i < cfg.processors
    ensures forall t :: t in TasksAt(cfg, i) ==> t < |cfg.host|
    ensures |Pairs(cfg, TasksAt(cfg, i))| <= cfg.size
  {
    FewPairs(cfg, TasksAt(cfg, i), cfg.maxTasksApp);
    Monotone(|TasksAt(cfg, i)|, cfg.maxLocalTasks, cfg.maxTasksApp - 1);
  }

  /** Such requests fit into a table, with room to spare when a pair is missing. */
  lemma RequestsFit(m: Moment, i: nat, requests: multiset<Request>, p: nat, c: nat)
    requires Good(m) && i < m.cfg.processors && AreOf(m, i, requests)
    ensures |requests| <= m.cfg.size
    ensures IsPair(m.cfg, p, c) && HasTcb(m.cfg, i, p) && (forall r :: r in requests ==>
      !(r.requested == p && r.requester == c)) ==>
      |requests| < m.cfg.size
  {
    hide Good, IsSized, Pairs, AreOf, TasksAt;
    ShapedAndSized(m);
    PairsFit(m.cfg, i);
    var pairs := Pairs(m.cfg, TasksAt(m.cfg, i));
    NamePairs(m, i, requests, p, c);
    RequestsArePairs(requests, pairs);
    if IsPair(m.cfg, p, c) && HasTcb(m.cfg, i, p) && forall r :: r in requests ==> !(r.requested == p && r.requester == c) {
      RequestsArePairs(requests, pairs - {(p, c)});
    }
  }

  lemma NamePairs(m: Moment, i: nat, requests: multiset<Request>, p: nat, c: nat)
    requires Shaped(m.cfg, m.s) && AreOf(m, i, requests)
    ensures forall r :: r in requests ==>
      && requests[r] == 1 && r.requested >= 0 && r.requester >= 0
      && (r.requested, r.requester) in Pairs(m.cfg, TasksAt(m.cfg, i))
    ensures forall r, r' ::
      r in requests && r' in requests && r.requested == r'.requested && r.requester == r'.requester ==> r == r'
    ensures IsPair(m.cfg, p, c) && HasTcb(m.cfg, i, p) ==> (p, c) in Pairs(m.cfg, TasksAt(m.cfg, i))
  {
  }

  lemma ShapedAndSized(m: Moment)
    requires Good(m)
    ensures Shaped(m.cfg, m.s) && IsSized(m.cfg)
  {
  }

  /** What a table holds and what is carried to it are different requests of its processor's tasks. */
  lemma EntriesAreOf(m: Moment, i: nat, t: nat)
    requires Good(m) && i < |m.s.kernels| && t < |m.cfg.host| && HasTcb(m.cfg, i, t)
    ensures AreOf(m, i, m.s.kernels[i].table) && AreOf(m, i, m.s.kernels[i].table + m.s.carried[t])
  {
    hide IsSized, KernelsInv, PlaceInv, NetInv, LogInv, Located;
    forall r: Request
      ensures m.s.kernels[i].table[r] == if IsEntry(m.cfg, m.s, i, r) then 1 else 0
      ensures m.s.carried[t][r] == if IsCarried(m.cfg, m.s, t, r) then 1 else 0
    {
    }
    forall r | r in m.s.kernels[i].table ensures HasTcb(m.cfg, i, r.requested) {
      assert FitsPlace(m.cfg, r.requested, m.s.place[r.requester]);
    }
  }

  /** Main result: while a request is about to enter a table, that table has room, so no request is ever lost. */
  lemma TableHasRoom(m: Moment, i: nat, p: nat, c: nat)
    requires Good(m) && i < m.cfg.processors && IsPair(m.cfg, p, c) && HasTcb(m.cfg, i, p) && !m.s.place[c].InTable?
    ensures |m.s.kernels[i].table| < m.cfg.size
  {
    EntriesAreOf(m, i, p);
    NoEntry(m.cfg, m.s, c);
    hide Good, AreOf;
    RequestsFit(m, i, m.s.kernels[i].table, p, c);
  }

  /** Main result: the table of a moving task's new host has room for all requests that come with it. */
  lemma RoomForCarried(m: Moment, t: nat)
    requires Good(m) && t < |m.cfg.host|
    ensures |KernelOf(m.cfg, m.s, t).table| + |m.s.carried[t]| <= m.cfg.size
  {
    EntriesAreOf(m, m.cfg.host[t], t);
    ShapedAndSized(m);
    hide Good, AreOf;
    RequestsFit(m, m.cfg.host[t], KernelOf(m.cfg, m.s, t).table + m.s.carried[t], t, t);
  }

  /**
   * Main result: before a task leaves, the table of its new host has room for all requests that are pending at the old
   * one.
   */
  lemma RoomAtNewHost(m: Moment, t: nat, taken: multiset<Request>, kept: multiset<Request>)
    requires Good(m) && t in m.cfg.leaving && t < |m.cfg.host| && m.cfg.leaving[t] < m.cfg.processors
    requires Shared(KernelOf(m.cfg, m.s, t).table, taken, kept, t)
    ensures |m.s.kernels[m.cfg.leaving[t]].table| + |taken| <= m.cfg.size
  {
    var h, to := m.cfg.host[t], m.cfg.leaving[t];
    EntriesAreOf(m, h, t);
    EntriesAreOf(m, to, t);
    TakenElsewhere(m, t, taken, kept);
    ShapedAndSized(m);
    hide Good, AreOf, Shared;
    RequestsFit(m, to, m.s.kernels[to].table + taken, t, t);
  }

  lemma TakenElsewhere(m: Moment, t: nat, taken: multiset<Request>, kept: multiset<Request>)
    requires Good(m) && t in m.cfg.leaving && t < |m.cfg.host| && m.cfg.leaving[t] < m.cfg.processors
    requires Shared(KernelOf(m.cfg, m.s, t).table, taken, kept, t)
    requires AreOf(m, m.cfg.host[t], KernelOf(m.cfg, m.s, t).table)
    requires AreOf(m, m.cfg.leaving[t], m.s.kernels[m.cfg.leaving[t]].table)
    ensures AreOf(m, m.cfg.leaving[t], m.s.kernels[m.cfg.leaving[t]].table + taken)
  {
    hide IsSized, KernelsInv, PlaceInv, NetInv, LogInv, CarriedInv, AimInv, IsSound;
    var h, to := m.cfg.host[t], m.cfg.leaving[t];
    assert h != to;
    forall r: Request ensures m.s.kernels[h].table[r] > 0 ==> m.s.kernels[to].table[r] == 0 {
      assert m.s.kernels[h].table[r] == if IsEntry(m.cfg, m.s, h, r) then 1 else 0;
      assert m.s.kernels[to].table[r] == if IsEntry(m.cfg, m.s, to, r) then 1 else 0;
    }
  }

  // ----- whole runs

  lemma WorkKeeps(m: Moment, m': Moment)
    requires Good(m) && m'.cfg == m.cfg && Works(m.cfg, m.s, m'.s)
    ensures Good(m')
  {
    hide Good, Inv, RequestStep, PassStep, DeferStep, DeliveryStep, SendStep, ReceiveStep;
    ShapedAndSized(m);
    GoodParts(m, m');
    var cfg, s, s' := m.cfg, m.s, m'.s;
    if p, c, payload, busy, how, k' :| SendStep(cfg, s, s', p, c, payload, busy, how, k') {
      SendKeeps(cfg, s, s', p, c, payload, busy, how, k');
    } else if p, c, busy, k', out :| ReceiveStep(cfg, s, s', p, c, busy, k', out) {
      ReceiveWorkKeeps(m, m', p, c, busy, k', out);
    } else if pkt :| RequestStep(cfg, s, s', pkt) {
      RequestWorkKeeps(m, m', pkt);
    } else if pkt :| PassStep(cfg, s, s', pkt) {
      PassKeeps(cfg, s, s', pkt);
    } else if pkt :| DeferStep(cfg, s, s', pkt) {
      DeferKeeps(cfg, s, s', pkt);
    } else {
      var pkt :| DeliveryStep(cfg, s, s', pkt);
      DeliveryKeeps(cfg, s, s', pkt);
    }
  }

  lemma GoodParts(m: Moment, m': Moment)
    requires Good(m) && m'.cfg == m.cfg
    ensures Inv(m.cfg, m.s) && (Inv(m'.cfg, m'.s) ==> Good(m'))
  {
  }

  lemma ReceiveWorkKeeps(m: Moment, m': Moment, p: nat, c: nat, busy: bool, k': Kernel, out: Option<Packet>)
    requires Good(m) && Shaped(m.cfg, m.s) && m'.cfg == m.cfg && ReceiveStep(m.cfg, m.s, m'.s, p, c, busy, k', out)
    ensures Inv(m'.cfg, m'.s)
  {
    hide Inv, IsSized, ReceiveStep;
    ReceiverIsElsewhere(m.cfg, m.s, m'.s, p, c, busy, k', out);
    if m.cfg.host[p] == m.cfg.host[c] { TableHasRoom(m, m.cfg.host[p], p, c); }
    ReceiveKeeps(m.cfg, m.s, m'.s, p, c, busy, k', out);
  }

  lemma RequestWorkKeeps(m: Moment, m': Moment, pkt: Packet)
    requires Good(m) && Shaped(m.cfg, m.s) && m'.cfg == m.cfg && RequestStep(m.cfg, m.s, m'.s, pkt)
    ensures Inv(m'.cfg, m'.s)
  {
    hide Inv, IsSized, RequestStep;
    RequestIsElsewhere(m.cfg, m.s, m'.s, pkt);
    TableHasRoom(m, pkt.to, pkt.producer, pkt.consumer);
    RequestKeeps(m.cfg, m.s, m'.s, pkt);
  }

  lemma ReceiverIsElsewhere(cfg: Config, s: System, s': System, p: nat, c: nat, busy: bool, k': Kernel,
                            out: Option<Packet>)
    requires Inv(cfg, s) && ReceiveStep(cfg, s, s', p, c, busy, k', out)
    ensures IsPair(cfg, p, c) && !s.place[c].InTable? && cfg.host[p] < cfg.processors && HasTcb(cfg, cfg.host[p], p)
  {
  }

  lemma RequestIsElsewhere(cfg: Config, s: System, s': System, pkt: Packet)
    requires Inv(cfg, s) && RequestStep(cfg, s, s', pkt)
    ensures IsPair(cfg, pkt.producer, pkt.consumer) && !s.place[pkt.consumer].InTable? && pkt.to < cfg.processors
    ensures HasTcb(cfg, pkt.to, pkt.producer)
  {
    RequestIsAwaited(cfg, s, pkt);
  }

  lemma StepKeeps(m: Moment, m': Moment)
    requires Good(m) && Step(m, m')
    ensures Good(m')
  {
    ShapedAndSized(m);
    hide Good, Works, OrderStep, LeaveStep, ArriveStep, LearnStep, LeaveSpins, LearnSpins;
    if m'.cfg == m.cfg && m'.spinning == m.spinning && Works(m.cfg, m.s, m'.s) {
      WorkKeeps(m, m');
    } else if t, to :| OrderStep(m, m', t, to) {
      OrderKeeps(m, m', t, to);
    } else if t, requests, kept :| LeaveStep(m, m', t, requests, kept) {
      LeaveKeeps(m, m', t, requests, kept);
    } else if t, requests, table :| ArriveStep(m, m', t, requests, table) {
      ArrivingIsTask(m, m', t, requests, table);
      RoomForCarried(m, t);
      ArriveKeeps(m, m', t, requests, table);
    } else if t, y, k :| LearnStep(m, m', t, y, k) {
      LearnKeeps(m, m', t, y, k);
    } else {
      SpinningKeeps(m, m');
    }
  }

  /** A task that leaves finds its host's entry for it. */
  lemma LeavingIsRecorded(m: Moment, m': Moment, t: nat)
    requires Good(m)
    ensures !LeaveSpins(m, m', t)
  {
    hide Inv, IsSized;
  }

  lemma SpinningKeeps(m: Moment, m': Moment)
    requires Good(m) && ((exists t :: LeaveSpins(m, m', t)) || (exists t, y :: LearnSpins(m, m', t, y)))
    ensures Good(m')
  {
    hide Inv, IsSized, Recorded, Runs, LocationsAt;
  }

  lemma ArrivingIsTask(m: Moment, m': Moment, t: nat, requests: seq<Request>, table: multiset<Request>)
    requires Shaped(m.cfg, m.s) && ArriveStep(m, m', t, requests, table)
    ensures t < |m.cfg.host|
  {
  }

  lemma {:induction false} RunKeeps(run: seq<Moment>, n: nat)
    requires IsRun(run) && n < |run|
    ensures Good(run[n])
  {
    hide Good, Init, Step;
    if n == 0 {
      InitHolds(run[0]);
    } else {
      RunKeeps(run, n - 1);
      assert Step(run[n - 1], run[n - 1 + 1]);
      StepKeeps(run[n - 1], run[n]);
    }
  }
}
