/**
 * The controllers of a clustered network establishing paths between clusters: one token held by a coordinator,
 * and, for its holder, a collection of border states, rounds of detailed routing in the clusters of a path, and a
 * release that either commits the path everywhere or nowhere.
 */
module Protocol {
  import opened Basics

  datatype Status = Idle | Slave | Master

  /**
   * One controller. `path` and `subnet` are the last cluster path found, and `enabled` the pairs of a cluster and a
   * subnet that a path may still use; `plist` is what the last local search left behind, `used` the occupied ports,
   * `stuck` an error loop.
   */
  datatype Controller = Controller(status: Status, requested: bool, responses: nat, allOk: bool, path: seq<nat>,
                                   subnet: nat,
                                   enabled: set<(nat, nat)>, plist: set<nat>, used: set<nat>, globalMode: bool, stuck: bool)

  datatype Message =
    | TokenRequest(from: nat)
    | TokenGrant(to: nat)
    | TokenRelease(from: nat)
    | BorderRequest(from: nat, to: nat)
    | BorderAck(from: nat, to: nat)
    | DetailRequest(from: nat, to: nat)
    | DetailResponse(from: nat, to: nat, ok: bool)
    | ModeRelease(from: nat, to: nat, configure: bool)
    | ModeReleaseAck(from: nat, to: nat)

  // ----- history variables: nothing a controller does depends on them

  datatype Place = NotRequested | Travelling | Queued | Granted

  /** How far a controller is with the message the master sent it in the current phase. */
  datatype Progress = Asked | Answered | Done

  datatype Phase =
    | NoToken
    | Granting(owner: nat)
    | Collecting(owner: nat)
    | Routing(owner: nat)
    | Releasing(owner: nat, commit: bool)
    | Returning(owner: nat)

  /**
   * `answer` and `held` are what each controller answered in the current attempt and the ports of the route it answered
   * for; `faults` what was reported faulty there since it described its borders; `committed` who has written its part
   * of the path.
   */
  datatype History = History(phase: Phase, place: seq<Place>, progress: seq<Progress>, answer: seq<bool>,
                             held: seq<set<nat>>,
                             committed: set<nat>, faults: seq<set<nat>>, arrivals: seq<nat>, grants: seq<nat>)

  /**
   * The whole system: subnets, controllers, the coordinator's token and queue, the messages in flight, and the history.
   */
  datatype System = System(nets: nat, ctl: seq<Controller>, token: int, queue: seq<nat>, net: multiset<Message>,
                           hist: History)

  /**
   * What the environment decides: the path a global search finds, what a local one finds, and where a disturbed retrace
   * ends up.
   */
  datatype Oracle = Oracle(path: seq<nat>, subnet: nat, found: bool, ports: set<nat>, written: set<nat>)

  // ----- handlers

  ghost function Others(n: nat, c: nat): set<nat> {
    Below(n) - {c}
  }

  /** The token goes to a waiting controller; the coordinator hands it to itself without a message. */
  ghost function SendToken(s: System, r: nat): System
    requires WellSized(s) && r < |s.ctl|
  {
    var s := s.(hist := s.hist.(grants := s.hist.grants + [r]));
    if r != 0 then
      s.(net := s.net + multiset{TokenGrant(r)},
         hist := s.hist.(phase := Granting(r), place := s.hist.place[r := Granted]))
    else HandleTokenGrant(s, r)
  }

  ghost function HandleTokenRequest(s: System, r: nat): System
    requires WellSized(s) && r < |s.ctl|
  {
    var s := s.(hist := s.hist.(arrivals := s.hist.arrivals + [r]));
    if s.token == -1 then SendToken(s, r).(token := r)
    else if |s.queue| == |s.ctl| then s.(ctl := s.ctl[0 := s.ctl[0].(stuck := true)])
    else s.(queue := s.queue + [r], hist := s.hist.(place := s.hist.place[r := Queued]))
  }

  ghost function HandleTokenRelease(s: System): System
    requires WellSized(s)
  {
    if s.queue == [] then s.(token := -1, hist := s.hist.(phase := NoToken))
    else if s.queue[0] < |s.ctl| then SendToken(s.(token := s.queue[0], queue := s.queue[1..]), s.queue[0])
    else s
  }

  ghost function HandleTokenGrant(s: System, c: nat): System
    requires WellSized(s) && c < |s.ctl|
  {
    if s.ctl[c].status != Idle || !s.ctl[c].requested then s.(ctl := s.ctl[c := s.ctl[c].(stuck := true)])
    else
      s.(ctl := s.ctl[c := s.ctl[c].(status := Master, requested := false, responses := 1)],
         net := s.net + multiset(set d | d in Others(|s.ctl|, c) :: BorderRequest(c, d)),
         hist := s.hist.(phase := Collecting(c), place := s.hist.place[c := NotRequested], committed := {},
                         faults := s.hist.faults[c := {}],
                         progress := seq(|s.ctl|, i => if i == c then Done else Asked)))
  }

  ghost predicate WellSized(s: System) {
    && |s.ctl| >= 2
    && |s.hist.place| == |s.hist.progress| == |s.hist.answer| == |s.hist.held| == |s.hist.faults| == |s.ctl|
  }

  /** A controller idle and without a pending request starts on the next global path request. */
  ghost function NewGlobalPath(s: System, c: nat): System
    requires WellSized(s) && c < |s.ctl|
  {
    var s := s.(ctl := s.ctl[c := s.ctl[c].(requested := true)]);
    if c != 0 then s.(net := s.net + multiset{TokenRequest(c)}, hist := s.hist.(place := s.hist.place[c := Travelling]))
    else HandleTokenRequest(s, c)
  }

  ghost function HandleBorderRequest(s: System, m: nat, c: nat): System
    requires WellSized(s) && c < |s.ctl|
  {
    var s := s.(net := s.net + multiset{BorderAck(c, m)});
    if s.ctl[c].status == Idle then
      s.(ctl := s.ctl[c := s.ctl[c].(status := Slave)],
         hist := s.hist.(progress := s.hist.progress[c := Answered], faults := s.hist.faults[c := {}]))
    else s.(ctl := s.ctl[c := s.ctl[c].(stuck := true)])
  }

  ghost function HandleBorderAck(s: System, m: nat, c: nat, o: Oracle): System
    requires WellSized(s) && m < |s.ctl| && c < |s.ctl|
  {
    var s := s.(ctl := s.ctl[m := s.ctl[m].(responses := s.ctl[m].responses + 1)],
                hist := s.hist.(progress := s.hist.progress[c := Done]));
    if s.ctl[m].responses != |s.ctl| then s
    else GlobalRouting(AllEnabled(s, m), m, o)
  }

  /** Before its first attempt the master enables all pairs. */
  ghost function AllEnabled(s: System, m: nat): System
    requires m < |s.ctl|
  {
    s.(ctl := s.ctl[m := s.ctl[m].(enabled := Pairs(|s.ctl|, s.nets))])
  }

  function Pairs(n: nat, nets: nat): set<(nat, nat)> {
    set c: nat, k: nat | c < n && k < nets :: (c, k)
  }

  /** A cluster path lists different clusters, from the target's back to the master's own, which is the source's. */
  predicate IsClusterPath(path: seq<nat>, n: nat, m: nat) {
    && |path| >= 2 && path[|path| - 1] == m
    && (forall i :: 0 <= i < |path| ==> path[i] < n)
    && (forall i, j :: 0 <= i < j < |path| ==> path[i] != path[j])
  }

  /** A global search enters enabled clusters only. */
  predicate PathEnabled(enabled: set<(nat, nat)>, path: seq<nat>, subnet: nat) {
    forall i :: 0 <= i < |path| - 1 ==> (path[i], subnet) in enabled
  }

  /**
   * What a no from one cluster costs: that cluster, and the target's where it comes from the source's or the target's.
   */
  function Lost(path: seq<nat>, subnet: nat, m: nat, from: nat): set<(nat, nat)> {
    {(from, subnet)} + if path != [] && (from == m || from == path[0]) then {(path[0], subnet)} else {}
  }

  /** The pairs still enabled once the answer of a cluster is taken into account. */
  function StillEnabled(enabled: set<(nat, nat)>, path: seq<nat>, subnet: nat, m: nat, from: nat, ok: bool): set<(nat,
      nat)> {
    if ok then enabled else enabled - Lost(path, subnet, m, from)
  }

  ghost function PathSet(path: seq<nat>): set<nat> {
    set d | d in path
  }

  /** What the search has found is a path of enabled clusters. */
  predicate CanRoute(ctl: Controller, n: nat, m: nat, o: Oracle) {
    IsClusterPath(o.path, n, m) && PathEnabled(ctl.enabled, o.path, o.subnet)
  }

  /** The master once it has routed its own cluster of a new path. */
  function WithOwnAnswer(ctl: Controller, m: nat, o: Oracle, ok: bool): Controller {
    ctl.(path := o.path, subnet := o.subnet, responses := 1, globalMode := false, allOk := ctl.allOk && ok,
         enabled := StillEnabled(ctl.enabled, o.path, o.subnet, m, m, ok), plist := o.ports)
  }

  /** One attempt: search a cluster path, ask its clusters for a detailed route and route the own cluster. */
  ghost function GlobalRouting(s: System, m: nat, o: Oracle): System
    requires WellSized(s) && m < |s.ctl|
  {
    if !CanRoute(s.ctl[m], |s.ctl|, m, o) then
      SendModeRelease(s.(ctl := s.ctl[m := s.ctl[m].(globalMode := true)]), m, false, {})
    else
      var ok := o.found && FreshPorts(s, m, o);
      s.(ctl := s.ctl[m := WithOwnAnswer(s.ctl[m], m, o, ok)],
         net := s.net + multiset(set d | d in PathSet(o.path) - {m} :: DetailRequest(m, d)),
         hist := s.hist.(phase := Routing(m), answer := seq(|s.ctl|, i => i == m && ok),
                         held := seq(|s.ctl|, i => if i == m then o.ports else {}),
                         faults := s.hist.faults[m := s.hist.faults[m] * s.ctl[m].used],
                         progress := seq(|s.ctl|, i => if i == m then Done else Asked)))
  }

  /**
   * A local search only finds ports that are free, but for the one by which the route enters the cluster: that was free
   * when the borders were described, and is not tested again.
   */
  ghost predicate FreshPorts(s: System, c: nat, o: Oracle)
    requires WellSized(s) && c < |s.ctl|
  {
    o.ports * s.ctl[c].used <= s.hist.faults[c]
  }

  ghost function HandleDetailRequest(s: System, m: nat, c: nat, o: Oracle): System
    requires WellSized(s) && c < |s.ctl|
  {
    var ok := o.found && FreshPorts(s, c, o);
    s.(ctl := s.ctl[c := s.ctl[c].(globalMode := false, plist := o.ports)],
       net := s.net + multiset{DetailResponse(c, m, ok)},
       hist := s.hist.(progress := s.hist.progress[c := Answered], answer := s.hist.answer[c := ok],
                       held := s.hist.held[c := o.ports],
                       faults := s.hist.faults[c := s.hist.faults[c] * s.ctl[c].used]))
  }

  /** The master m has taken one answer into account. */
  function TakeAnswer(ctl: Controller, m: nat, c: nat, ok: bool): Controller {
    ctl.(allOk := ctl.allOk && ok, responses := ctl.responses + 1,
         enabled := StillEnabled(ctl.enabled, ctl.path, ctl.subnet, m, c, ok))
  }

  ghost function HandleDetailResponse(s: System, m: nat, c: nat, ok: bool, o: Oracle): System
    requires WellSized(s) && m < |s.ctl| && c < |s.ctl|
  {
    var s := s.(ctl := s.ctl[m := TakeAnswer(s.ctl[m], m, c, ok)],
                hist := s.hist.(progress := s.hist.progress[c := Done]));
    if s.ctl[m].responses != |s.ctl[m].path| then s
    else if s.ctl[m].allOk then SendModeRelease(s, m, true, o.written)
    else GlobalRouting(s.(ctl := s.ctl[m := s.ctl[m].(allOk := true)]), m, o)
  }

  /**
   * Writes into the port table, which only a local search mode does. Where the ports of the held route are still free
   * it is that route; otherwise the walk back may go astray, and what it writes is left open.
   */
  ghost function Retrace(c: Controller, written: set<nat>): Controller {
    if c.globalMode then c else c.(used := c.used + if c.plist !! c.used then c.plist else written)
  }

  ghost function SendModeRelease(s: System, m: nat, success: bool, written: set<nat>): System
    requires WellSized(s) && m < |s.ctl|
  {
    var on := if success then PathSet(s.ctl[m].path) else {};
    var c := s.ctl[m].(responses := 1);
    s.(ctl := s.ctl[m := if !success then c else if m in on then Retrace(c, written) else c.(stuck := true)],
       net := s.net + multiset(set d | d in Others(|s.ctl|, m) :: ModeRelease(m, d, d in on)),
       hist := s.hist.(phase := Releasing(m, success), committed := if success then {m} else {},
                       progress := seq(|s.ctl|, i => if i == m then Done else Asked)))
  }

  ghost function HandleModeRelease(s: System, m: nat, c: nat, configure: bool, written: set<nat>): System
    requires WellSized(s) && c < |s.ctl|
  {
    var ctl := if configure then Retrace(s.ctl[c], written) else s.ctl[c];
    s.(ctl := s.ctl[c := if ctl.status == Slave then ctl.(status := Idle) else ctl.(stuck := true)],
       net := s.net + multiset{ModeReleaseAck(c, m)},
       hist := s.hist.(progress := s.hist.progress[c := Answered],
                       committed := if configure then s.hist.committed + {c} else s.hist.committed))
  }

  ghost function HandleModeReleaseAck(s: System, m: nat, c: nat): System
    requires WellSized(s) && m < |s.ctl| && c < |s.ctl|
  {
    var s := s.(ctl := s.ctl[m := s.ctl[m].(responses := s.ctl[m].responses + 1)],
                hist := s.hist.(progress := s.hist.progress[c := Done]));
    if s.ctl[m].responses == |s.ctl| then SendTokenRelease(s, m) else s
  }

  ghost function SendTokenRelease(s: System, m: nat): System
    requires WellSized(s) && m < |s.ctl|
  {
    if s.ctl[m].status != Master then s.(ctl := s.ctl[m := s.ctl[m].(stuck := true)])
    else
      var s := s.(ctl := s.ctl[m := s.ctl[m].(status := Idle)]);
      if m != 0 then s.(net := s.net + multiset{TokenRelease(m)}, hist := s.hist.(phase := Returning(m)))
      else HandleTokenRelease(s)
  }

  // ----- steps and runs

  ghost function Deliver(s: System, msg: Message, o: Oracle): System
    requires WellSized(s) && ForController(msg, |s.ctl|)
  {
    var s := s.(net := s.net - multiset{msg});
    match msg
    case TokenRequest(f) => HandleTokenRequest(s, f)
    case TokenGrant(t) => HandleTokenGrant(s, t)
    case TokenRelease(_) => HandleTokenRelease(s)
    case BorderRequest(f, t) => HandleBorderRequest(s, f, t)
    case BorderAck(f, t) => HandleBorderAck(s, t, f, o)
    case DetailRequest(f, t) => HandleDetailRequest(s, f, t, o)
    case DetailResponse(f, t, ok) => HandleDetailResponse(s, t, f, ok, o)
    case ModeRelease(f, t, configure) => HandleModeRelease(s, f, t, configure, o.written)
    case ModeReleaseAck(f, t) => HandleModeReleaseAck(s, t, f)
  }

  ghost predicate ForController(msg: Message, n: nat) {
    match msg
    case TokenRequest(f) => f < n
    case TokenGrant(t) => t < n
    case TokenRelease(f) => f < n
    case BorderRequest(f, t) => f < n && t < n
    case BorderAck(f, t) => f < n && t < n
    case DetailRequest(f, t) => f < n && t < n
    case DetailResponse(f, t, _) => f < n && t < n
    case ModeRelease(f, t, _) => f < n && t < n
    case ModeReleaseAck(f, t) => f < n && t < n
  }

  /** An idle controller serves local requests: its searches replace the held route and its ports change. */
  ghost function LocalWork(s: System, c: nat, plist: set<nat>, used: set<nat>): System
    requires WellSized(s) && c < |s.ctl|
  {
    s.(ctl := s.ctl[c := s.ctl[c].(plist := plist, used := used, globalMode := false)])
  }

  /** A port is reported faulty, which any controller handles at any time. */
  ghost function Fault(s: System, c: nat, port: nat): System
    requires WellSized(s) && c < |s.ctl|
  {
    s.(ctl := s.ctl[c := s.ctl[c].(used := s.ctl[c].used + {port})],
       hist := s.hist.(faults := s.hist.faults[c := s.hist.faults[c] + {port}]))
  }

  ghost predicate Step(s: System, s': System) {
    && WellSized(s)
    && (|| (exists msg, o :: CanDeliver(s, msg) && s' == Deliver(s, msg, o))
        || (exists c :: CanStart(s, c) && s' == NewGlobalPath(s, c))
        || (exists c, plist, used :: CanWorkLocally(s, c) && s' == LocalWork(s, c, plist, used))
        || (exists c, port :: CanRun(s, c) && s' == Fault(s, c, port)))
  }

  ghost predicate CanRun(s: System, c: nat) {
    c < |s.ctl| && !s.ctl[c].stuck
  }

  ghost predicate CanDeliver(s: System, msg: Message) {
    s.net[msg] > 0 && ForController(msg, |s.ctl|)
  }

  ghost predicate CanStart(s: System, c: nat) {
    CanRun(s, c) && s.ctl[c].status == Idle && !s.ctl[c].requested
  }

  ghost predicate CanWorkLocally(s: System, c: nat) {
    CanRun(s, c) && s.ctl[c].status == Idle
  }

  ghost predicate Init(s: System) {
    && WellSized(s) && s.token == -1 && s.queue == [] && s.net == multiset{}
    && (forall c :: 0 <= c < |s.ctl| ==>
      && s.ctl[c].status == Idle && !s.ctl[c].requested && s.ctl[c].allOk && !s.ctl[c].stuck
      && s.hist.place[c] == NotRequested)
    && s.hist.phase == NoToken && s.hist.arrivals == [] && s.hist.grants == []
  }

  ghost predicate IsRun(run: seq<System>) {
    run != [] && Init(run[0]) && forall i :: 0 <= i < |run| - 1 ==> Step(run[i], run[i + 1])
  }
}
