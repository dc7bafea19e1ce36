/**
 * One controller's program: handlers that change its own fields and send messages, each doing exactly what the
 * protocol's step says.
 */
module ClusterManager {
  import opened Basics
  import opened Protocol
  import TokenQueue

  /** The controller a message is handled by. */
  function Receiver(msg: Message): nat {
    match msg
    case TokenRequest(_) => 0
    case TokenGrant(to) => to
    case TokenRelease(_) => 0
    case BorderRequest(_, to) => to
    case BorderAck(_, to) => to
    case DetailRequest(_, to) => to
    case DetailResponse(_, to, _) => to
    case ModeRelease(_, to, _) => to
    case ModeReleaseAck(_, to) => to
  }

  ghost function BorderRequests(all: set<nat>, c: nat): multiset<Message> {
    multiset(set d | d in all - {c} :: BorderRequest(c, d))
  }

  ghost function DetailRequests(all: set<nat>, m: nat): multiset<Message> {
    multiset(set d | d in all - {m} :: DetailRequest(m, d))
  }

  ghost function ModeReleases(all: set<nat>, m: nat, on: set<nat>): multiset<Message> {
    multiset(set d | d in all - {m} :: ModeRelease(m, d, d in on))
  }

  lemma OneMore(a: set<Message>, b: set<Message>, skip: bool, m: Message)
    requires if skip then b == a else m !in a && b == a + {m}
    ensures multiset(b) == multiset(a) + if skip then multiset{} else multiset{m}
  {
  }

  lemma BelowNext(d: nat)
    ensures Below(0) == {} && Below(d + 1) == Below(d) + {d} && d !in Below(d)
  {
  }

  lemma OneMoreBorderRequest(c: nat, d: nat)
    ensures BorderRequests(Below(0), c) == multiset{}
    ensures BorderRequests(Below(d + 1), c) ==
      BorderRequests(Below(d), c) + if d == c then multiset{} else multiset{BorderRequest(c, d)}
  {
    hide Below;
    BelowNext(d);
    OneMore(set e | e in Below(d) - {c} :: BorderRequest(c, e), set e | e in Below(d + 1) - {c} :: BorderRequest(c, e),
            d == c, BorderRequest(c, d));
  }

  lemma OneMoreDetailRequest(path: seq<nat>, m: nat, i: nat)
    requires i < |path| && forall j, k :: 0 <= j < k < |path| ==> path[j] != path[k]
    ensures DetailRequests(PathFrom(path, i), m) ==
      DetailRequests(PathFrom(path, i + 1), m) + if path[i] == m then multiset{} else multiset{DetailRequest(m, path[i])}
  {
    var more, less, d := PathFrom(path, i), PathFrom(path, i + 1), path[i];
    assert d in more && d !in less && more == less + {d};
    OneMore(set e | e in less - {m} :: DetailRequest(m, e), set e | e in more - {m} :: DetailRequest(m, e), d == m,
            DetailRequest(m, d));
  }

  lemma OneMoreModeRelease(m: nat, on: set<nat>, d: nat)
    ensures ModeReleases(Below(0), m, on) == multiset{}
    ensures ModeReleases(Below(d + 1), m, on) ==
      ModeReleases(Below(d), m, on) + if d == m then multiset{} else multiset{ModeRelease(m, d, d in on)}
  {
    hide Below;
    BelowNext(d);
    OneMore(set e | e in Below(d) - {m} :: ModeRelease(m, e, e in on),
            set e | e in Below(d + 1) - {m} :: ModeRelease(m, e, e in on),
            d == m, ModeRelease(m, d, d in on));
  }

  /** The clusters of a path from position i on, which a loop from its end has visited. */
  ghost function PathFrom(path: seq<nat>, i: nat): set<nat>
    requires i <= |path|
  {
    set k | i <= k < |path| :: path[k]
  }

  lemma WholePath(path: seq<nat>, m: nat)
    ensures PathFrom(path, 0) == PathSet(path) && DetailRequests(PathFrom(path, |path|), m) == multiset{}
  {
  }

  /** All of a system that its history is not. */
  ghost predicate Alike(s: System, s': System) {
    s.(hist := s'.hist) == s' && WellSized(s')
  }

  /** After a local search the controller is in local mode and holds what the search left behind. */
  ghost function Routed(s: System, c: nat, o: Oracle): System
    requires c < |s.ctl|
  {
    s.(ctl := s.ctl[c := s.ctl[c].(globalMode := false, plist := o.ports)])
  }

  /**
   * The master's own answer, taken into account after all requests are out, makes the attempt the protocol describes.
   */
  lemma OwnAnswerLast(s: System, m: nat, o: Oracle, asked: System)
    requires WellSized(s) && m < |s.ctl| && CanRoute(s.ctl[m], |s.ctl|, m, o) && (o.found ==> FreshPorts(s, m, o))
    requires asked == s.(ctl := s.ctl[m := s.ctl[m].(path := o.path, subnet := o.subnet, responses := 0, globalMode := true)],
                         net := s.net + DetailRequests(PathSet(o.path), m))
    ensures Alike(HandleDetailResponse(Routed(asked, m, o), m, m, o.found, o), Protocol.GlobalRouting(s, m, o))
  {
    hide SendModeRelease;
  }

  lemma ReleaseInParts(s: System, m: nat, success: bool, written: set<nat>)
    requires WellSized(s) && m < |s.ctl|
    ensures
      var on := if success then PathSet(s.ctl[m].path) else {};
      var c := s.ctl[m].(responses := 1);
      Alike(s.(ctl := s.ctl[m := if !success then c else if m in on then Retrace(c, written) else c.(stuck := true)],
               net := s.net + ModeReleases(Below(|s.ctl|), m, on)), SendModeRelease(s, m, success, written))
  {
  }

  lemma TokenHandedOn(s: System)
    requires WellSized(s) && s.queue != [] && s.queue[0] < |s.ctl|
    ensures HandleTokenRelease(s) == SendToken(s.(token := s.queue[0], queue := s.queue[1..]), s.queue[0])
  {
  }

  lemma HasTwoClusters(path: seq<nat>, n: nat, m: nat)
    ensures IsClusterPath(path, n, m) ==> |path| >= 2
  {
  }

  lemma AddsUp(a: multiset<Message>, b: multiset<Message>, c: multiset<Message>)
    ensures a + (b + c) == a + b + c
  {
  }

  lemma NoPathReleases(s: System, m: nat, o: Oracle)
    requires WellSized(s) && m < |s.ctl| && !CanRoute(s.ctl[m], |s.ctl|, m, o)
    ensures Protocol.GlobalRouting(s, m, o) ==
      SendModeRelease(s.(ctl := s.ctl[m := s.ctl[m].(globalMode := true)]), m, false, {})
  {
  }

  /** The step from s to s' changes controller c only, and the token only if c is the coordinator. */
  ghost predicate IsLocal(s: System, s': System, c: nat) {
    && |s'.ctl| == |s.ctl| && (forall d :: 0 <= d < |s.ctl| && d != c ==> s'.ctl[d] == s.ctl[d])
    && (c != 0 ==> s'.token == s.token && s'.queue == s.queue)
  }

  lemma TokenIsLocal(s: System, r: nat)
    requires WellSized(s) && r < |s.ctl|
    ensures IsLocal(s, Protocol.SendToken(s, 0), 0) && IsLocal(s, Protocol.SendToken(s, r), 0)
    ensures IsLocal(s, HandleTokenRequest(s, r), 0) && IsLocal(s, HandleTokenRelease(s), 0)
  {
  }

  lemma RoutingIsLocal(s: System, m: nat, o: Oracle)
    requires WellSized(s) && m < |s.ctl|
    ensures IsLocal(s, Protocol.GlobalRouting(s, m, o), m) && IsLocal(s, SendModeRelease(s, m, true, o.written), m)
  {
  }

  lemma AnswersAreLocal(s: System, m: nat, c: nat, o: Oracle, configure: bool)
    requires WellSized(s) && m < |s.ctl| && c < |s.ctl|
    ensures IsLocal(s, HandleTokenGrant(s, c), c) && IsLocal(s, HandleBorderRequest(s, m, c), c)
    ensures IsLocal(s, HandleDetailRequest(s, m, c, o), c)
    ensures IsLocal(s, HandleModeRelease(s, m, c, configure, o.written), c)
  {
  }

  lemma ReleaseIsLocal(s: System, m: nat)
    requires WellSized(s) && m < |s.ctl|
    ensures IsLocal(s, Protocol.SendTokenRelease(s, m), m)
  {
    hide HandleTokenRelease;
    TokenIsLocal(s.(ctl := s.ctl[m := s.ctl[m].(status := Idle)]), 0);
  }

  lemma CountingIsLocal(s: System, m: nat, c: nat, ok: bool, o: Oracle)
    requires WellSized(s) && m < |s.ctl| && c < |s.ctl|
    ensures IsLocal(s, HandleBorderAck(s, m, c, o), m) && IsLocal(s, HandleModeReleaseAck(s, m, c), m)
    ensures IsLocal(s, HandleDetailResponse(s, m, c, ok, o), m)
  {
    hide Protocol.GlobalRouting, SendModeRelease, Protocol.SendTokenRelease;
    var hist := s.hist.(progress := s.hist.progress[c := Done]);
    var counted := s.(ctl := s.ctl[m := s.ctl[m].(responses := s.ctl[m].responses + 1)], hist := hist);
    var answered := s.(ctl := s.ctl[m := TakeAnswer(s.ctl[m], m, c, ok)], hist := hist);
    RoutingIsLocal(AllEnabled(counted, m), m, o);
    ReleaseIsLocal(counted, m);
    RoutingIsLocal(answered, m, o);
    RoutingIsLocal(answered.(ctl := answered.ctl[m := answered.ctl[m].(allOk := true)]), m, o);
  }

  /** A delivery changes its receiver only, and the token only at the coordinator. */
  lemma DeliverIsLocal(s: System, msg: Message, o: Oracle)
    requires WellSized(s) && ForController(msg, |s.ctl|)
    ensures IsLocal(s, Deliver(s, msg, o), Receiver(msg))
  {
    hide HandleTokenRequest, HandleTokenRelease, HandleTokenGrant, HandleBorderRequest, HandleBorderAck,
      HandleDetailRequest,
      HandleDetailResponse, HandleModeRelease, HandleModeReleaseAck;
    var s1 := s.(net := s.net - multiset{msg});
    match msg
    case TokenRequest(f) => TokenIsLocal(s1, f);
    case TokenGrant(t) => AnswersAreLocal(s1, t, t, o, false);
    case TokenRelease(_) => TokenIsLocal(s1, 0);
    case BorderRequest(f, t) => AnswersAreLocal(s1, f, t, o, false);
    case BorderAck(f, t) => CountingIsLocal(s1, t, f, false, o);
    case DetailRequest(f, t) => AnswersAreLocal(s1, f, t, o, false);
    case DetailResponse(f, t, ok) => CountingIsLocal(s1, t, f, ok, o);
    case ModeRelease(f, t, configure) => AnswersAreLocal(s1, f, t, o, configure);
    case ModeReleaseAck(f, t) => CountingIsLocal(s1, t, f, false, o);
  }

  class Manager {
    const id: nat
    const clusters: nat
    const nets: nat
    var status: Status
    var requested: bool
    var responses: nat
    var allOk: bool
    var path: seq<nat>
    var subnet: nat
    var enabled: set<(nat, nat)>
    var plist: set<nat>
    var used: set<nat>
    var globalMode: bool
    var stuck: bool
    var token: int
    const queue: TokenQueue.Queue
    /** All messages sent so far. */
    var sent: multiset<Message>

    constructor (id: nat, clusters: nat, nets: nat)
      requires id < clusters
      ensures this.id == id && this.clusters == clusters && this.nets == nets && Valid() && fresh(queue)
      ensures fresh(queue.fifo)
      ensures status == Idle && !requested && allOk && !stuck && token == -1 && queue.Contents() == []
      ensures sent == multiset{}
    {
      this.id, this.clusters, this.nets := id, clusters, nets;
      status, requested, responses, allOk := Idle, false, 0, true;
      path, subnet, enabled, plist, used, globalMode, stuck := [], 0, {}, {}, {}, false, false;
      token, sent := -1, multiset{};
      queue := new TokenQueue.Queue(clusters);
    }

    ghost predicate Valid()
      reads this, queue, queue.fifo
    {
      queue.Valid() && queue.fifo.Length == clusters && id < clusters && forall r :: r in queue.Contents() ==>
        r < clusters
    }

    ghost function State(): Controller
      reads this
    {
      Controller(status, requested, responses, allOk, path, subnet, enabled, plist, used, globalMode, stuck)
    }

    /** This controller is as the system says, and all it has sent is on its way or was delivered before. */
    ghost predicate IsPartOf(s: System, others: multiset<Message>)
      requires Valid()
      reads this, queue, queue.fifo
    {
      && WellSized(s) && |s.ctl| == clusters && s.nets == nets && s.ctl[id] == State() && s.net == others + sent
      && (id == 0 ==> s.token == token && s.queue == queue.Contents())
    }

    // ----- token

    method SendTokenRequest(ghost s: System, ghost net: multiset<Message>)
      requires Valid() && IsPartOf(s, net)
      modifies this, queue, queue.fifo
      ensures Valid() && IsPartOf(NewGlobalPath(s, id), net)
    {
      requested := true;
      if id != 0 {
        sent := sent + multiset{TokenRequest(id)};
      } else {
        HandleTokenRequest(id, s.(ctl := s.ctl[id := s.ctl[id].(requested := true)]), net);
      }
    }

    method SendToken(r: nat, ghost s: System, ghost net: multiset<Message>)
      requires Valid() && IsPartOf(s, net) && id == 0 && r < clusters
      modifies this
      ensures Valid() && IsPartOf(Protocol.SendToken(s, r), net) && token == old(token)
    {
      if r != id {
        sent := sent + multiset{TokenGrant(r)};
      } else {
        HandleTokenGrant(s.(hist := s.hist.(grants := s.hist.grants + [r])), net);
      }
    }

    method SendTokenRelease(ghost s: System, ghost net: multiset<Message>)
      requires Valid() && IsPartOf(s, net)
      modifies this, queue
      ensures Valid() && IsPartOf(Protocol.SendTokenRelease(s, id), net)
    {
      if status != Master {
        stuck := true;
        return;
      }
      status := Idle;
      if id != 0 {
        sent := sent + multiset{TokenRelease(id)};
      } else {
        HandleTokenRelease(s.(ctl := s.ctl[id := s.ctl[id].(status := Idle)]), net);
      }
    }

    method HandleTokenRelease(ghost s: System, ghost net: multiset<Message>)
      requires Valid() && IsPartOf(s, net) && id == 0
      modifies this, queue
      ensures Valid() && IsPartOf(Protocol.HandleTokenRelease(s), net)
    {
      hide Protocol.SendToken, TokenQueue.Ring;
      if s.queue != [] {
        assert s.queue[0] in queue.Contents();
        TokenHandedOn(s);
      }
      token := queue.GetNextTokenRequest();
      assert forall r :: r in queue.Contents() ==> r in s.queue;
      if token != -1 {
        SendToken(token, s.(token := token, queue := s.queue[1..]), net);
      }
    }

    method HandleTokenRequest(r: nat, ghost s: System, ghost net: multiset<Message>)
      requires Valid() && IsPartOf(s, net) && id == 0 && r < clusters
      modifies this, queue, queue.fifo
      ensures Valid() && IsPartOf(Protocol.HandleTokenRequest(s, r), net)
    {
      if token == -1 {
        SendToken(r, s.(hist := s.hist.(arrivals := s.hist.arrivals + [r])), net);
        token := r;
      } else {
        var ok := queue.AddTokenRequest(r);
        if !ok { stuck := true; }
      }
    }

    method HandleTokenGrant(ghost s: System, ghost net: multiset<Message>)
      requires Valid() && IsPartOf(s, net)
      modifies this
      ensures Valid() && IsPartOf(Protocol.HandleTokenGrant(s, id), net) && token == old(token)
    {
      if status != Idle || !requested {
        stuck := true;
        return;
      }
      status, requested := Master, false;
      SendUpdateBorderRequest();
    }

    // ----- borders

    method SendUpdateBorderRequest()
      modifies this`responses, this`sent
      ensures responses == 1 && sent == old(sent) + BorderRequests(Below(clusters), id)
    {
      hide *;
      responses := 1;
      OneMoreBorderRequest(id, 0);
      for d := 0 to clusters
        invariant responses == 1 && sent == old(sent) + BorderRequests(Below(d), id)
      {
        if d != id { sent := sent + multiset{BorderRequest(id, d)}; }
        OneMoreBorderRequest(id, d);
      }
    }

    method HandleUpdateBorderRequest(m: nat, ghost s: System, ghost net: multiset<Message>)
      requires Valid() && IsPartOf(s, net)
      modifies this
      ensures Valid() && IsPartOf(HandleBorderRequest(s, m, id), net)
    {
      sent := sent + multiset{BorderAck(id, m)};
      if status == Idle { status := Slave; } else { stuck := true; }
    }

    method HandleUpdateBorderAck(c: nat, o: Oracle, ghost s: System, ghost net: multiset<Message>)
      requires Valid() && IsPartOf(s, net) && c < clusters && Plausible(o, s)
      modifies this
      ensures Valid() && IsPartOf(HandleBorderAck(s, id, c, o), net)
    {
      hide Protocol.GlobalRouting, Pairs;
      responses := responses + 1;
      ghost var s := s.(ctl := s.ctl[id := s.ctl[id].(responses := s.ctl[id].responses + 1)],
                        hist := s.hist.(progress := s.hist.progress[c := Done]));
      if responses == clusters {
        EnableAll();
        GlobalRouting(o, AllEnabled(s, id), net);
      }
    }

    /** Enables every cluster on every subnet. */
    method EnableAll()
      modifies this`enabled
      ensures enabled == Pairs(clusters, nets)
    {
      enabled := {};
      for c := 0 to clusters
        invariant enabled == Pairs(c, nets)
      {
        for k := 0 to nets
          invariant enabled == Pairs(c, nets) + set j: nat | j < k :: (c, j)
        {
          enabled := enabled + {(c, k)};
        }
        assert Pairs(c + 1, nets) == Pairs(c, nets) + set j: nat | j < nets :: (c, j);
      }
    }

    // ----- routing

    /**
     * A local search finds only ports that are free, but for those reported faulty since the borders were described.
     */
    ghost predicate Plausible(o: Oracle, s: System) {
      WellSized(s) && id < |s.ctl| && (o.found ==> FreshPorts(s, id, o))
    }

    /** One attempt: asks the other clusters of the path from its end on, and routes the own cluster last. */
    method GlobalRouting(o: Oracle, ghost s: System, ghost net: multiset<Message>)
      requires Valid() && IsPartOf(s, net) && Plausible(o, s)
      modifies this
      ensures Valid() && IsPartOf(Protocol.GlobalRouting(s, id, o), net)
      decreases 3
    {
      hide SendModeRelease, HandleDetailResponse, Protocol.GlobalRouting, DetailRequests, IsClusterPath, PathSet,
        Below, TokenQueue.Ring;
      globalMode := true;
      if !IsClusterPath(o.path, clusters, id) || !PathEnabled(enabled, o.path, o.subnet) {
        NoPathReleases(s, id, o);
        SendGlobalModeRelease(false, {}, s.(ctl := s.ctl[id := State()]), net);
        return;
      }
      TryPath(o, s, net);
    }

    /** Asks the other clusters of the path from its end on, and routes the own cluster last. */
    method TryPath(o: Oracle, ghost s: System, ghost net: multiset<Message>)
      requires Valid() && globalMode && CanRoute(State(), clusters, id, o) && Plausible(o, s)
      requires id < |s.ctl| && IsPartOf(s.(ctl := s.ctl[id := State()]), net)
      requires s.ctl[id] == State().(globalMode := s.ctl[id].globalMode)
      modifies this
      ensures Valid() && IsPartOf(Protocol.GlobalRouting(s, id, o), net)
      decreases 2
    {
      hide SendModeRelease, HandleDetailResponse, Protocol.GlobalRouting, DetailRequests, IsClusterPath, PathSet,
        Below, TokenQueue.Ring;
      HasTwoClusters(o.path, clusters, id);
      path, subnet := o.path, o.subnet;
      SendDetailedRoutingRequests();
      responses := 0;
      ghost var asked := s.(ctl := s.ctl[id := State()], net := net + sent);
      AddsUp(net, old(sent), DetailRequests(PathSet(path), id));
      OwnAnswerLast(s, id, o, asked);
      DetailedRouting(id, o, asked, net);
    }

    method SendDetailedRoutingRequests()
      requires IsClusterPath(path, clusters, id)
      modifies this`sent
      ensures sent == old(sent) + DetailRequests(PathSet(path), id)
    {
      hide DetailRequests, PathFrom, PathSet;
      var i: nat := |path|;
      WholePath(path, id);
      while i > 0
        invariant i <= |path| && sent == old(sent) + DetailRequests(PathFrom(path, i), id)
      {
        i := i - 1;
        if path[i] != id { sent := sent + multiset{DetailRequest(id, path[i])}; }
        OneMoreDetailRequest(path, id, i);
      }
    }

    /** Routes this cluster for the master, which takes its own answer into account at once. */
    method DetailedRouting(m: nat, o: Oracle, ghost s: System, ghost net: multiset<Message>)
      requires Valid() && IsPartOf(s, net) && Plausible(o, s) && (m == id ==> responses == 0 && |path| >= 2)
      modifies this
      ensures Valid()
      ensures m == id ==> IsPartOf(HandleDetailResponse(Routed(s, id, o), id, id, o.found, o), net)
      ensures m != id ==> IsPartOf(HandleDetailRequest(s, m, id, o), net)
      decreases 1
    {
      globalMode, plist := false, o.ports;
      if m != id {
        sent := sent + multiset{DetailResponse(id, m, o.found)};
      } else {
        HandleDetailedRoutingResponse(id, o.found, o, Routed(s, id, o), net);
      }
    }

    /** A no from cluster c costs its pair, and that of the target's where it comes from the source's or the target's. */
    method DisableAfterNo(c: nat)
      modifies `enabled
      ensures enabled == old(enabled) - Lost(path, subnet, id, c)
      ensures forall d, k :: (d, k) in old(enabled) ==>
        ((d, k) in enabled <==> k != subnet || (d != c && (path == [] || !(d == path[0] && c == id))))
    {
      ghost var was := enabled;
      enabled := enabled - {(c, subnet)};
      if path != [] && (c == id || c == path[0]) { enabled := enabled - {(path[0], subnet)}; }
      assert enabled == was - Lost(path, subnet, id, c);
    }

    method HandleDetailedRoutingResponse(c: nat, ok: bool, o: Oracle, ghost s: System, ghost net: multiset<Message>)
      requires Valid() && IsPartOf(s, net) && c < clusters && Plausible(o, s)
      modifies this
      ensures Valid() && IsPartOf(HandleDetailResponse(s, id, c, ok, o), net)
      decreases if responses + 1 == |path| then 4 else 0
    {
      hide SendModeRelease, Protocol.GlobalRouting, TokenQueue.Ring;
      if !ok {
        allOk := false;
        DisableAfterNo(c);
      }
      responses := responses + 1;
      if responses == |path| {
        ghost var s := s.(ctl := s.ctl[id := State()], hist := s.hist.(progress := s.hist.progress[c := Done]));
        if allOk {
          SendGlobalModeRelease(true, o.written, s, net);
        } else {
          allOk := true;
          GlobalRouting(o, s.(ctl := s.ctl[id := State()]), net);
        }
      }
    }

    // ----- release

    /** Whether a cluster is on the path, looked up from its end. */
    method IsOnPath(d: nat) returns (found: bool)
      ensures found <==> d in PathSet(path)
    {
      var i: nat := |path|;
      while i > 0
        invariant i <= |path| && forall k :: i <= k < |path| ==> path[k] != d
      {
        i := i - 1;
        if path[i] == d { return true; }
      }
      return false;
    }

    /** Releases every other controller, and says whether this one is on the path. */
    method SendReleases(success: bool) returns (mine: bool)
      requires id < clusters
      modifies this`sent
      ensures var on := if success then PathSet(path) else {};
        sent == old(sent) + ModeReleases(Below(clusters), id, on) && mine == (id in on)
    {
      hide *;
      mine := false;
      ghost var on := if success then PathSet(path) else {};
      OneMoreModeRelease(id, on, 0);
      for d := 0 to clusters
        invariant sent == old(sent) + ModeReleases(Below(d), id, on) && mine == (id < d && id in on)
      {
        var configure := false;
        if success { configure := IsOnPath(d); }
        if d != id { sent := sent + multiset{ModeRelease(id, d, configure)}; } else { mine := configure; }
        OneMoreModeRelease(id, on, d);
      }
    }

    method SendGlobalModeRelease(success: bool, written: set<nat>, ghost s: System, ghost net: multiset<Message>)
      requires Valid() && IsPartOf(s, net)
      modifies this
      ensures Valid() && IsPartOf(SendModeRelease(s, id, success, written), net)
    {
      hide SendModeRelease, ModeReleases, PathSet, Retrace, Below, TokenQueue.Ring;
      ReleaseInParts(s, id, success, written);
      responses := 1;
      var mine := SendReleases(success);
      if success { ConfigureOwn(mine, written); }
      AddsUp(net, old(sent), ModeReleases(Below(clusters), id, if success then PathSet(path) else {}));
    }

    method ConfigureOwn(mine: bool, written: set<nat>)
      modifies this`used, this`stuck
      ensures State() == if mine then Retrace(old(State()), written) else old(State()).(stuck := true)
    {
      if mine { WriteHeldRoute(written); } else { stuck := true; }
    }

    method WriteHeldRoute(written: set<nat>)
      modifies this`used
      ensures State() == Retrace(old(State()), written)
    {
      if !globalMode { used := used + if plist !! used then plist else written; }
    }

    method HandleGlobalModeRelease(m: nat, configure: bool, written: set<nat>, ghost s: System,
                                   ghost net: multiset<Message>)
      requires Valid() && IsPartOf(s, net)
      modifies this
      ensures Valid() && IsPartOf(HandleModeRelease(s, m, id, configure, written), net)
    {
      if configure { WriteHeldRoute(written); }
      sent := sent + multiset{ModeReleaseAck(id, m)};
      if status == Slave { status := Idle; } else { stuck := true; }
    }

    method HandleGlobalModeReleaseAck(c: nat, ghost s: System, ghost net: multiset<Message>)
      requires Valid() && IsPartOf(s, net) && c < clusters
      modifies this, queue
      ensures Valid() && IsPartOf(HandleModeReleaseAck(s, id, c), net)
    {
      responses := responses + 1;
      if responses == clusters {
        SendTokenRelease(s.(ctl := s.ctl[id := State()], hist := s.hist.(progress := s.hist.progress[c := Done])), net);
      }
    }

    // ----- what else a controller does

    /** A port is reported faulty, in whatever mode the controller is. */
    method SetFault(port: nat, ghost s: System, ghost net: multiset<Message>)
      requires Valid() && IsPartOf(s, net)
      modifies this`used
      ensures Valid() && IsPartOf(Fault(s, id, port), net)
    {
      used := used + {port};
    }

    /** An idle controller has served a local request: its search left a list behind and its ports have changed. */
    method ServeLocalRequest(list: set<nat>, ports: set<nat>, ghost s: System, ghost net: multiset<Message>)
      requires Valid() && IsPartOf(s, net) && status == Idle
      modifies this
      ensures Valid() && IsPartOf(LocalWork(s, id, list, ports), net)
    {
      plist, used, globalMode := list, ports, false;
    }

    // ----- dispatch

    /**
     * Main result: handling a message in place is the protocol's delivery of it, as far as this controller sees the
     * system.
     */
    method HandlePacket(msg: Message, o: Oracle, ghost s: System, ghost net: multiset<Message>)
      requires Valid() && WellSized(s) && ForController(msg, |s.ctl|) && Receiver(msg) == id && Plausible(o, s)
      requires msg.DetailRequest? ==> msg.from != id
      requires IsPartOf(s.(net := s.net - multiset{msg}), net)
      modifies this, queue, queue.fifo
      ensures Valid() && IsPartOf(Deliver(s, msg, o), net)
    {
      ghost var s := s.(net := s.net - multiset{msg});
      match msg {
        case TokenRequest(from) => HandleTokenRequest(from, s, net);
        case TokenGrant(_) => HandleTokenGrant(s, net);
        case TokenRelease(_) => HandleTokenRelease(s, net);
        case BorderRequest(from, _) => HandleUpdateBorderRequest(from, s, net);
        case BorderAck(from, _) => HandleUpdateBorderAck(from, o, s, net);
        case DetailRequest(from, _) => DetailedRouting(from, o, s, net);
        case DetailResponse(from, _, ok) => HandleDetailedRoutingResponse(from, ok, o, s, net);
        case ModeRelease(from, _, configure) => HandleGlobalModeRelease(from, configure, o.written, s, net);
        case ModeReleaseAck(from, _) => HandleGlobalModeReleaseAck(from, s, net);
      }
    }
  }
}
