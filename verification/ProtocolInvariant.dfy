/** What every reachable state of the controller protocol satisfies, and that every step keeps it. */
module ProtocolInvariant {
  import opened Basics
  import opened Protocol

  /** Whether a message is in flight, read off the history variables. */
  ghost predicate InFlight(h: History, path: seq<nat>, msg: Message) {
    match msg
    case TokenRequest(f) => f < |h.place| && h.place[f] == Travelling
    case TokenGrant(t) => h.phase == Granting(t)
    case TokenRelease(f) => h.phase == Returning(f)
    case BorderRequest(f, t) => h.phase == Collecting(f) && t != f && At(h, t, Asked)
    case BorderAck(f, t) => h.phase == Collecting(t) && t != f && At(h, f, Answered)
    case DetailRequest(f, t) => h.phase == Routing(f) && t != f && t in path && At(h, t, Asked)
    case DetailResponse(f, t, ok) => h.phase == Routing(t) && t != f && f in path && At(h, f, Answered) && ok == h.answer[f]
    case ModeRelease(f, t, configure) =>
      h.phase.Releasing? && h.phase.owner == f && t != f && At(h, t, Asked) && configure == (h.phase.commit && t in path)
    case ModeReleaseAck(f, t) => h.phase.Releasing? && h.phase.owner == t && t != f && At(h, f, Answered)
  }

  ghost predicate At(h: History, c: nat, p: Progress) {
    c < |h.progress| && |h.progress| == |h.answer| && h.progress[c] == p
  }

  /** The controllers that have completed the current phase, as far as they take part in it. */
  ghost function Finished(h: History): set<nat> {
    set c: nat | c < |h.progress| && h.progress[c] == Done
  }

  ghost predicate Owned(phase: Phase, n: nat) {
    phase != NoToken ==> phase.owner < n
  }

  function TokenOf(phase: Phase): int {
    if phase == NoToken then -1 else phase.owner
  }

  /** The mode each controller is in. */
  function StatusOf(h: History, c: nat): Status
    requires c < |h.progress|
  {
    match h.phase
    case Collecting(m) => if c == m then Master else if h.progress[c] == Asked then Idle else Slave
    case Routing(m) => if c == m then Master else Slave
    case Releasing(m, _) => if c == m then Master else if h.progress[c] == Asked then Slave else Idle
    case _ => Idle
  }

  ghost function PathOf(s: System): seq<nat>
  {
    if s.hist.phase == NoToken || s.hist.phase.owner >= |s.ctl| then [] else s.ctl[s.hist.phase.owner].path
  }

  /** The coordinator: who holds the token, who waits in the queue in which order, and who has asked. */
  ghost predicate TokenInv(s: System)
    requires WellSized(s)
  {
    && Owned(s.hist.phase, |s.ctl|)
    && s.token == TokenOf(s.hist.phase)
    && (s.token == -1 ==> s.queue == [])
    && (forall i :: 0 <= i < |s.queue| ==> s.queue[i] < |s.ctl| && s.hist.place[s.queue[i]] == Queued)
    && (forall i, j :: 0 <= i < j < |s.queue| ==> s.queue[i] != s.queue[j])
    && (forall c :: 0 <= c < |s.ctl| ==> (s.hist.place[c] == Queued ==> c in s.queue))
    && (forall c: nat :: c < |s.ctl| ==> (s.hist.place[c] == Granted <==> s.hist.phase == Granting(c)))
    && (forall c :: 0 <= c < |s.ctl| ==> (s.ctl[c].requested <==> s.hist.place[c] != NotRequested))
    && s.hist.place[0] != Travelling && s.hist.place[0] != Granted
    && s.hist.arrivals == s.hist.grants + s.queue
  }

  /** The owner counts the answers of those that take part in the phase, itself included. */
  ghost predicate CountInv(s: System)
    requires WellSized(s) && Owned(s.hist.phase, |s.ctl|)
  {
    match s.hist.phase
    case Collecting(m) => s.hist.progress[m] == Done && s.ctl[m].responses == |Finished(s.hist)| < |s.ctl|
    case Routing(m) =>
      && IsClusterPath(s.ctl[m].path, |s.ctl|, m) && s.hist.progress[m] == Done
      && Finished(s.hist) <= PathSet(s.ctl[m].path)
      && s.ctl[m].responses == |Finished(s.hist)| < |s.ctl[m].path|
      && (s.ctl[m].allOk <==> forall c :: c in Finished(s.hist) ==> s.hist.answer[c])
      && (s.ctl[m].allOk ==> PathEnabled(s.ctl[m].enabled, s.ctl[m].path, s.ctl[m].subnet))
    case Releasing(m, commit) =>
      && s.hist.progress[m] == Done && s.ctl[m].responses == |Finished(s.hist)| < |s.ctl|
      && (commit ==> IsClusterPath(s.ctl[m].path, |s.ctl|, m))
    case _ => true
  }

  /**
   * A controller that answered yes holds the route it answered for, its ports free but for those reported faulty, in
   * local mode.
   */
  ghost predicate Holds(s: System, c: nat)
    requires WellSized(s) && c < |s.ctl|
  {
    && s.ctl[c].plist == s.hist.held[c] && !s.ctl[c].globalMode
    && s.hist.held[c] * s.ctl[c].used == s.hist.held[c] * s.hist.faults[c]
  }

  ghost predicate CommitInv(s: System)
    requires WellSized(s) && Owned(s.hist.phase, |s.ctl|)
  {
    match s.hist.phase
    case Collecting(m) => s.hist.committed == {}
    case Routing(m) =>
      && s.hist.committed == {}
      && (forall c: nat :: c < |s.ctl| && s.hist.progress[c] == Asked ==> !s.hist.answer[c])
      && forall c: nat :: c < |s.ctl| && c in s.ctl[m].path && s.hist.progress[c] != Asked && s.hist.answer[c] ==>
        Holds(s, c)
    case Releasing(m, commit) =>
      && (forall c: nat :: c < |s.ctl| && commit && c in s.ctl[m].path ==> s.hist.answer[c])
      && (forall c: nat :: c < |s.ctl| && commit && c in s.ctl[m].path && s.hist.progress[c] == Asked ==> Holds(s, c))
      && s.hist.committed == (set c: nat | c < |s.ctl| && commit && c in s.ctl[m].path && s.hist.progress[c] != Asked)
    case _ => true
  }

  /** Every controller is in the mode the phase asks for, outside every error loop. */
  ghost predicate ModeInv(s: System)
    requires WellSized(s)
  {
    && (forall c :: 0 <= c < |s.ctl| ==> s.ctl[c].status == StatusOf(s.hist, c) && !s.ctl[c].stuck)
    && (forall c :: 0 <= c < |s.ctl| && s.hist.phase != Routing(c) ==> s.ctl[c].allOk)
  }

  /** The messages in flight are exactly those the history calls for, one copy each. */
  ghost predicate NetInv(net: multiset<Message>, h: History, path: seq<nat>) {
    forall msg :: net[msg] == if InFlight(h, path, msg) then 1 else 0
  }

  ghost predicate Inv(s: System) {
    && WellSized(s)
    && TokenInv(s) && CountInv(s) && CommitInv(s) && ModeInv(s)
    && NetInv(s.net, s.hist, PathOf(s))
  }

  lemma IsInFlight(s: System, msg: Message)
    requires Inv(s) && CanDeliver(s, msg)
    ensures InFlight(s.hist, PathOf(s), msg)
  {
    hide TokenInv, CountInv, CommitInv, ModeInv, InFlight;
  }

  lemma InitHolds(s: System)
    requires Init(s)
    ensures Inv(s)
  {
  }

  // ----- what is in flight, when the token moves

  ghost predicate NetBut(net: multiset<Message>, h: History, path: seq<nat>, taken: Message) {
    forall msg :: net[msg] == if InFlight(h, path, msg) && msg != taken then 1 else 0
  }

  /** Only token requests are in flight. */
  ghost predicate Calm(net: multiset<Message>, h: History) {
    forall msg :: net[msg] == if msg.TokenRequest? && InFlight(h, [], msg) then 1 else 0
  }

  /** The token requests of the controllers other than r travel, and nothing else does. */
  ghost predicate CalmBut(net: multiset<Message>, h: History, r: nat) {
    forall msg :: net[msg] == if msg.TokenRequest? && msg.from != r && InFlight(h, [], msg) then 1 else 0
  }

  lemma TakeNet(net: multiset<Message>, h: History, path: seq<nat>, msg: Message)
    requires NetInv(net, h, path) && net[msg] > 0
    ensures InFlight(h, path, msg) && NetBut(net - multiset{msg}, h, path, msg)
  {
    assert InFlight(h, path, msg);
  }

  lemma RequestQueuedNet(net: multiset<Message>, h: History, h': History, path: seq<nat>, r: nat)
    requires NetBut(net, h, path, TokenRequest(r)) && r < |h.place|
    requires h' == h.(place := h.place[r := Queued], arrivals := h'.arrivals)
    ensures NetInv(net, h', path)
  {
    forall msg ensures net[msg] == if InFlight(h', path, msg) then 1 else 0 {
      assert net[msg] == if InFlight(h, path, msg) && msg != TokenRequest(r) then 1 else 0;
    }
  }

  lemma RequestSentNet(net: multiset<Message>, h: History, h': History, path: seq<nat>, r: nat)
    requires NetInv(net, h, path) && r < |h.place| && h.place[r] != Travelling
    requires h' == h.(place := h.place[r := Travelling])
    ensures NetInv(net + multiset{TokenRequest(r)}, h', path)
  {
    forall msg ensures (net + multiset{TokenRequest(r)})[msg] == if InFlight(h', path, msg) then 1 else 0 {
      assert net[msg] == if InFlight(h, path, msg) then 1 else 0;
    }
  }

  lemma GrantSentNet(net: multiset<Message>, h: History, h': History, path: seq<nat>, r: nat)
    requires CalmBut(net, h, r) && r < |h.place| && h'.place == h.place[r := Granted] && h'.phase == Granting(r)
    ensures NetInv(net + multiset{TokenGrant(r)}, h', path)
  {
    forall msg ensures (net + multiset{TokenGrant(r)})[msg] == if InFlight(h', path, msg) then 1 else 0 {
      assert net[msg] == if msg.TokenRequest? && msg.from != r && InFlight(h, [], msg) then 1 else 0;
    }
  }

  lemma CalmBecomesBut(net: multiset<Message>, h: History, r: nat)
    requires Calm(net, h) && r < |h.place| && h.place[r] != Travelling
    ensures CalmBut(net, h, r)
  {
    forall msg ensures net[msg] == if msg.TokenRequest? && msg.from != r && InFlight(h, [], msg) then 1 else 0 {
      assert net[msg] == if msg.TokenRequest? && InFlight(h, [], msg) then 1 else 0;
    }
  }

  lemma TokenHomeNet(net: multiset<Message>, h: History, h': History, path: seq<nat>)
    requires Calm(net, h) && h'.place == h.place && h'.phase == NoToken
    ensures NetInv(net, h', path)
  {
    forall msg ensures net[msg] == if InFlight(h', path, msg) then 1 else 0 {
      assert net[msg] == if msg.TokenRequest? && InFlight(h, [], msg) then 1 else 0;
    }
  }

  lemma TokenSentBackNet(net: multiset<Message>, h: History, h': History, path: seq<nat>, m: nat)
    requires Calm(net, h) && h'.place == h.place && h'.phase == Returning(m)
    ensures NetInv(net + multiset{TokenRelease(m)}, h', path)
  {
    forall msg ensures (net + multiset{TokenRelease(m)})[msg] == if InFlight(h', path, msg) then 1 else 0 {
      assert net[msg] == if msg.TokenRequest? && InFlight(h, [], msg) then 1 else 0;
    }
  }

  /** While the token is at home, on its way to a controller or on its way back, only it and requests travel. */
  lemma TokenTakenNet(net: multiset<Message>, h: History, path: seq<nat>, msg: Message)
    requires NetInv(net, h, path) && net[msg] > 0 && (msg.TokenGrant? || msg.TokenRelease?)
    ensures InFlight(h, path, msg) && Calm(net - multiset{msg}, h)
  {
    assert InFlight(h, path, msg);
    forall other ensures (net - multiset{msg})[other] == if other.TokenRequest? && InFlight(h, [], other) then 1 else 0 {
      assert net[other] == if InFlight(h, path, other) then 1 else 0;
    }
  }

  lemma TokenHomeCalm(net: multiset<Message>, h: History, path: seq<nat>, r: nat)
    requires NetBut(net, h, path, TokenRequest(r)) && h.phase == NoToken
    ensures CalmBut(net, h, r)
  {
    forall msg ensures net[msg] == if msg.TokenRequest? && msg.from != r && InFlight(h, [], msg) then 1 else 0 {
      assert net[msg] == if InFlight(h, path, msg) && msg != TokenRequest(r) then 1 else 0;
    }
  }

  lemma NetIgnoresFaults(net: multiset<Message>, h: History, h': History, path: seq<nat>)
    requires NetInv(net, h, path) && h' == h.(faults := h'.faults)
    ensures NetInv(net, h', path)
  {
    forall msg ensures InFlight(h', path, msg) == InFlight(h, path, msg) { }
  }

  /** Only the bookkeeping of the token differs. */
  ghost predicate OnlyToken(s: System, s': System)
    requires WellSized(s)
  {
    && |s'.ctl| == |s.ctl|
    && (forall c :: 0 <= c < |s.ctl| ==> s'.ctl[c] == s.ctl[c].(requested := s'.ctl[c].requested))
    && |s'.hist.place| == |s.ctl|
    && s'.hist == s.hist.(place := s'.hist.place, arrivals := s'.hist.arrivals)
  }

  lemma TokenFrame(s: System, s': System)
    requires WellSized(s) && OnlyToken(s, s') && Owned(s.hist.phase, |s.ctl|)
    ensures WellSized(s') && Owned(s'.hist.phase, |s'.ctl|) && PathOf(s') == PathOf(s)
    ensures CountInv(s) ==> CountInv(s')
    ensures CommitInv(s) ==> CommitInv(s')
    ensures ModeInv(s) ==> ModeInv(s')
  {
  }

  /** Only the ports differ: what the controllers hold, and which faults were reported. */
  ghost predicate OnlyPorts(s: System, s': System)
    requires WellSized(s)
  {
    && |s'.ctl| == |s.ctl| && |s'.hist.faults| == |s.ctl|
    && (s'.token, s'.queue, s'.net) == (s.token, s.queue, s.net) && s'.hist == s.hist.(faults := s'.hist.faults)
    && (forall c :: 0 <= c < |s.ctl| ==>
      s'.ctl[c] == s.ctl[c].(plist := s'.ctl[c].plist, used := s'.ctl[c].used, globalMode := s'.ctl[c].globalMode))
  }

  lemma PortsFrame(s: System, s': System)
    requires Inv(s) && OnlyPorts(s, s')
    ensures WellSized(s') && Owned(s'.hist.phase, |s'.ctl|)
    ensures TokenInv(s') && CountInv(s') && ModeInv(s') && NetInv(s'.net, s'.hist, PathOf(s'))
  {
    assert PathOf(s') == PathOf(s);
    NetIgnoresFaults(s.net, s.hist, s'.hist, PathOf(s));
    hide CommitInv, InFlight, NetInv;
  }

  // ----- counting

  lemma FinishedGrows(h: History, h': History, c: nat)
    requires c < |h.progress| && h.progress[c] != Done && h'.progress == h.progress[c := Done]
    ensures Finished(h') == Finished(h) + {c} && |Finished(h')| == |Finished(h)| + 1
  {
  }

  lemma FinishedSame(h: History, h': History, c: nat, p: Progress)
    requires c < |h.progress| && h.progress[c] != Done && p != Done && h'.progress == h.progress[c := p]
    ensures Finished(h') == Finished(h)
  {
  }

  lemma AllFinished(h: History)
    requires |Finished(h)| == |h.progress|
    ensures forall c :: 0 <= c < |h.progress| ==> h.progress[c] == Done
  {
    SubsetSize(Finished(h), Below(|h.progress|));
    forall c | 0 <= c < |h.progress| ensures h.progress[c] == Done {
      assert c in Below(|h.progress|);
    }
  }

  lemma PathSetSize(path: seq<nat>)
    requires forall i, j :: 0 <= i < j < |path| ==> path[i] != path[j]
    ensures |PathSet(path)| == |path|
  {
    if path != [] {
      var n := |path| - 1;
      PathSetSize(path[..n]);
      assert PathSet(path) == PathSet(path[..n]) + {path[n]};
    } else {
      assert PathSet(path) == {};
    }
  }

  // ----- a controller answers the master

  /** Controller c takes a message of the current phase and puts its answer on the way. */
  ghost predicate Answers(s: System, s': System, c: nat, taken: Message, sent: Message)
    requires WellSized(s) && WellSized(s') && c < |s.ctl|
  {
    && |s'.ctl| == |s.ctl|
    && (s'.token, s'.queue, s'.net) == (s.token, s.queue, s.net - multiset{taken} + multiset{sent})
    && s'.hist == s.hist.(progress := s.hist.progress[c := Answered], answer := s'.hist.answer, held := s'.hist.held,
                            committed := s'.hist.committed, faults := s'.hist.faults)
    && (forall d :: 0 <= d < |s.ctl| && d != c ==>
      && (s'.ctl[d], s'.hist.answer[d], s'.hist.faults[d]) == (s.ctl[d], s.hist.answer[d], s.hist.faults[d])
      && s'.hist.held[d] == s.hist.held[d])
    && s'.ctl[c] == s.ctl[c].(status := s'.ctl[c].status, stuck := s'.ctl[c].stuck, plist := s'.ctl[c].plist,
                              used := s'.ctl[c].used, globalMode := s'.ctl[c].globalMode)
  }

  lemma AnswerKeepsToken(s: System, s': System, c: nat, taken: Message, sent: Message)
    requires WellSized(s) && WellSized(s') && c < |s.ctl| && Answers(s, s', c, taken, sent)
    requires TokenInv(s)
    ensures TokenInv(s')
  {
  }

  lemma AnswerKeepsCount(s: System, s': System, c: nat, taken: Message, sent: Message)
    requires WellSized(s) && WellSized(s') && c < |s.ctl| && Answers(s, s', c, taken, sent)
    requires Owned(s.hist.phase, |s.ctl|) && CountInv(s)
    requires s.hist.progress[c] == Asked && s.hist.phase != NoToken && c != s.hist.phase.owner
    ensures CountInv(s')
  {
    FinishedSame(s.hist, s'.hist, c, Answered);
  }

  lemma AnswerKeepsNet(s: System, s': System, c: nat, taken: Message, sent: Message)
    requires WellSized(s) && WellSized(s') && c < |s.ctl| && Answers(s, s', c, taken, sent)
    requires NetInv(s.net, s.hist, PathOf(s))
    requires s.hist.progress[c] == Asked && s.hist.phase != NoToken && c != s.hist.phase.owner < |s.ctl|
    requires InFlight(s.hist, PathOf(s), taken) && IsRequestTo(taken, c)
    requires InFlight(s'.hist, PathOf(s), sent) && IsAnswerFrom(sent, c)
    ensures NetInv(s'.net, s'.hist, PathOf(s'))
  {
    assert PathOf(s') == PathOf(s);
    forall msg ensures s'.net[msg] == if InFlight(s'.hist, PathOf(s), msg) then 1 else 0 {
      assert s.net[msg] == if InFlight(s.hist, PathOf(s), msg) then 1 else 0;
      assert msg != taken && msg != sent ==> (InFlight(s'.hist, PathOf(s), msg) <==> InFlight(s.hist, PathOf(s), msg));
    }
  }

  predicate IsRequestTo(msg: Message, c: nat) {
    match msg
    case BorderRequest(_, t) => t == c
    case DetailRequest(_, t) => t == c
    case ModeRelease(_, t, _) => t == c
    case _ => false
  }

  predicate IsAnswerFrom(msg: Message, c: nat) {
    match msg
    case BorderAck(f, _) => f == c
    case DetailResponse(f, _, _) => f == c
    case ModeReleaseAck(f, _) => f == c
    case _ => false
  }

  /** Puts the parts of the invariant together. */
  lemma Conclude(s: System)
    requires WellSized(s) && TokenInv(s) && CountInv(s) && CommitInv(s) && ModeInv(s)
    requires NetInv(s.net, s.hist, PathOf(s))
    ensures Inv(s)
  {
  }

  lemma AnswerKeeps(s: System, s': System, c: nat, taken: Message, sent: Message)
    requires Inv(s) && WellSized(s') && c < |s.ctl| && Answers(s, s', c, taken, sent)
    requires s.hist.progress[c] == Asked && s.hist.phase != NoToken && c != s.hist.phase.owner
    requires InFlight(s.hist, PathOf(s), taken) && IsRequestTo(taken, c)
    requires InFlight(s'.hist, PathOf(s), sent) && IsAnswerFrom(sent, c)
    requires Owned(s'.hist.phase, |s'.ctl|) && ModeInv(s') && CommitInv(s')
    ensures Inv(s')
  {
    AnswerKeepsToken(s, s', c, taken, sent);
    AnswerKeepsCount(s, s', c, taken, sent);
    AnswerKeepsNet(s, s', c, taken, sent);
  }

  lemma BorderRequestFinds(s: System, m: nat, c: nat)
    requires Inv(s) && s.net[BorderRequest(m, c)] > 0 && m < |s.ctl| && c < |s.ctl|
    ensures Owned(s.hist.phase, |s.ctl|) && InFlight(s.hist, PathOf(s), BorderRequest(m, c)) && s.ctl[c].status == Idle
  {
    assert InFlight(s.hist, PathOf(s), BorderRequest(m, c));
  }

  /** An update border request finds its receiver idle. */
  lemma BorderRequestKeeps(s: System, m: nat, c: nat)
    requires Inv(s) && s.net[BorderRequest(m, c)] > 0 && m < |s.ctl| && c < |s.ctl|
    ensures s.ctl[c].status == Idle
    ensures Inv(HandleBorderRequest(s.(net := s.net - multiset{BorderRequest(m, c)}), m, c))
  {
    hide TokenInv, CountInv, NetInv;
    BorderRequestFinds(s, m, c);
    AnswerKeeps(s, HandleBorderRequest(s.(net := s.net - multiset{BorderRequest(m, c)}), m, c), c,
                BorderRequest(m, c), BorderAck(c, m));
  }

  lemma DetailRequestHolds(s: System, s': System, m: nat, c: nat, o: Oracle)
    requires WellSized(s) && Owned(s.hist.phase, |s.ctl|) && CommitInv(s)
    requires m < |s.ctl| && c < |s.ctl| && InFlight(s.hist, PathOf(s), DetailRequest(m, c))
    requires s' == HandleDetailRequest(s.(net := s.net - multiset{DetailRequest(m, c)}), m, c, o)
    ensures WellSized(s') && Owned(s'.hist.phase, |s'.ctl|) && CommitInv(s')
  {
  }

  lemma DetailRequestFinds(s: System, m: nat, c: nat)
    requires Inv(s) && s.net[DetailRequest(m, c)] > 0 && m < |s.ctl| && c < |s.ctl|
    ensures Owned(s.hist.phase, |s.ctl|) && InFlight(s.hist, PathOf(s), DetailRequest(m, c)) && s.ctl[c].status == Slave
  {
    assert InFlight(s.hist, PathOf(s), DetailRequest(m, c));
  }

  /**
   * A detailed routing request finds its receiver a slave, and a yes leaves it holding a route whose ports are free.
   */
  lemma DetailRequestKeeps(s: System, m: nat, c: nat, o: Oracle)
    requires Inv(s) && s.net[DetailRequest(m, c)] > 0 && m < |s.ctl| && c < |s.ctl|
    ensures s.ctl[c].status == Slave
    ensures Inv(HandleDetailRequest(s.(net := s.net - multiset{DetailRequest(m, c)}), m, c, o))
  {
    hide CommitInv, TokenInv, CountInv, NetInv;
    DetailRequestFinds(s, m, c);
    var s' := HandleDetailRequest(s.(net := s.net - multiset{DetailRequest(m, c)}), m, c, o);
    DetailRequestHolds(s, s', m, c, o);
    AnswerKeeps(s, s', c, DetailRequest(m, c), DetailResponse(c, m, s'.hist.answer[c]));
  }

  /**
   * A global mode release finds its receiver a slave and, where it configures, with the held route still free but for
   * faults.
   */
  lemma ModeReleaseFinds(s: System, m: nat, c: nat, configure: bool)
    requires Inv(s) && s.net[ModeRelease(m, c, configure)] > 0 && m < |s.ctl| && c < |s.ctl|
    ensures Owned(s.hist.phase, |s.ctl|) && InFlight(s.hist, PathOf(s), ModeRelease(m, c, configure))
    ensures s.ctl[c].status == Slave && (configure ==> Holds(s, c))
  {
    assert InFlight(s.hist, PathOf(s), ModeRelease(m, c, configure));
  }

  lemma ModeReleaseCommits(s: System, s': System, m: nat, c: nat, configure: bool, written: set<nat>)
    requires WellSized(s) && Owned(s.hist.phase, |s.ctl|) && CommitInv(s)
    requires m < |s.ctl| && c < |s.ctl| && InFlight(s.hist, PathOf(s), ModeRelease(m, c, configure))
    requires s' == HandleModeRelease(s.(net := s.net - multiset{ModeRelease(m, c, configure)}), m, c, configure, written)
    ensures WellSized(s') && Owned(s'.hist.phase, |s'.ctl|) && CommitInv(s')
  {
  }

  lemma ModeReleaseKeeps(s: System, m: nat, c: nat, configure: bool, written: set<nat>)
    requires Inv(s) && s.net[ModeRelease(m, c, configure)] > 0 && m < |s.ctl| && c < |s.ctl|
    ensures Inv(HandleModeRelease(s.(net := s.net - multiset{ModeRelease(m, c, configure)}), m, c, configure, written))
  {
    hide CommitInv, TokenInv, CountInv, NetInv;
    var s' := HandleModeRelease(s.(net := s.net - multiset{ModeRelease(m, c, configure)}), m, c, configure, written);
    ModeReleaseFinds(s, m, c, configure);
    ModeReleaseCommits(s, s', m, c, configure, written);
    AnswerKeeps(s, s', c, ModeRelease(m, c, configure), ModeReleaseAck(c, m));
  }

  // ----- the end of a phase

  ghost predicate Modes(s: System, m: nat, others: Status) {
    forall c :: 0 <= c < |s.ctl| ==>
      s.ctl[c].status == (if c == m then Master else others) && !s.ctl[c].stuck && s.ctl[c].allOk
  }

  /** Where the master stands when everyone has answered: it holds the token, and nothing but token requests travels. */
  ghost predicate PhaseOver(s: System, m: nat, others: Status) {
    && WellSized(s) && m < |s.ctl|
    && TokenInv(s) && s.token == m && (s.hist.phase.Collecting? || s.hist.phase.Routing? || s.hist.phase.Releasing?)
    && Modes(s, m, others) && Calm(s.net, s.hist)
  }

  /** A batch of messages sent at once: exactly those the new phase calls for. */
  lemma BroadcastNet(net: multiset<Message>, h: History, net': multiset<Message>, h': History, path: seq<nat>,
                     batch: set<Message>)
    requires Calm(net, h) && net' == net + multiset(batch) && h'.place == h.place
    requires forall msg :: msg in batch <==> (!msg.TokenRequest? && InFlight(h', path, msg))
    ensures NetInv(net', h', path)
  {
    forall msg ensures net'[msg] == if InFlight(h', path, msg) then 1 else 0 {
      assert net[msg] == if msg.TokenRequest? && InFlight(h, [], msg) then 1 else 0;
      assert multiset(batch)[msg] == if msg in batch then 1 else 0;
    }
  }

  lemma DetailRequestsNet(s: System, m: nat, o: Oracle)
    requires PhaseOver(s, m, Slave) && CanRoute(s.ctl[m], |s.ctl|, m, o)
    ensures var s' := GlobalRouting(s, m, o); NetInv(s'.net, s'.hist, o.path)
  {
    var s' := GlobalRouting(s, m, o);
    BroadcastNet(s.net, s.hist, s'.net, s'.hist, o.path, set d | d in PathSet(o.path) - {m} :: DetailRequest(m, d));
  }

  lemma GlobalRoutingKeeps(s: System, m: nat, o: Oracle)
    requires PhaseOver(s, m, Slave) && s.hist.committed == {}
    ensures Inv(GlobalRouting(s, m, o))
  {
    hide Inv, NetInv, TokenInv, Modes, Calm, CanRoute;
    if CanRoute(s.ctl[m], |s.ctl|, m, o) {
      AttemptStarts(s, m, o);
      DetailRequestsNet(s, m, o);
      Conclude(GlobalRouting(s, m, o));
    } else {
      StillOver(s, m);
      SendModeReleaseKeeps(s.(ctl := s.ctl[m := s.ctl[m].(globalMode := true)]), m, false, {});
    }
  }

  lemma StillOver(s: System, m: nat)
    requires PhaseOver(s, m, Slave)
    ensures PhaseOver(s.(ctl := s.ctl[m := s.ctl[m].(globalMode := true)]), m, Slave)
    ensures PhaseOver(AllEnabled(s, m), m, Slave)
  {
    hide Calm, InFlight;
  }

  lemma AttemptStarts(s: System, m: nat, o: Oracle)
    requires PhaseOver(s, m, Slave) && s.hist.committed == {} && CanRoute(s.ctl[m], |s.ctl|, m, o)
    ensures var s' := GlobalRouting(s, m, o);
      WellSized(s') && TokenInv(s') && CountInv(s') && CommitInv(s') && ModeInv(s') && PathOf(s') == o.path
  {
    hide NetInv, InFlight, Calm, IsClusterPath, Lost;
    var s' := GlobalRouting(s, m, o);
    OwnIsOnPath(o.path, |s.ctl|, m);
    assert Finished(s'.hist) == {m};
  }

  lemma OwnIsOnPath(path: seq<nat>, n: nat, m: nat)
    requires IsClusterPath(path, n, m)
    ensures m in path && |path| >= 2
  {
  }

  lemma ModeReleasesNet(s: System, m: nat, success: bool, written: set<nat>)
    requires PhaseOver(s, m, Slave) && (success ==> IsClusterPath(s.ctl[m].path, |s.ctl|, m))
    ensures var s' := SendModeRelease(s, m, success, written); NetInv(s'.net, s'.hist, s.ctl[m].path)
  {
    var s' := SendModeRelease(s, m, success, written);
    var on := if success then PathSet(s.ctl[m].path) else {};
    var batch := set d | d in Others(|s.ctl|, m) :: ModeRelease(m, d, d in on);
    forall msg: Message | !msg.TokenRequest? && InFlight(s'.hist, s.ctl[m].path, msg) ensures msg in batch {
      assert msg.to in Others(|s.ctl|, m);
    }
    BroadcastNet(s.net, s.hist, s'.net, s'.hist, s.ctl[m].path, batch);
  }

  lemma SendModeReleaseKeeps(s: System, m: nat, success: bool, written: set<nat>)
    requires PhaseOver(s, m, Slave)
    requires success ==> IsClusterPath(s.ctl[m].path, |s.ctl|, m)
    requires success ==> forall c: nat :: c < |s.ctl| && c in s.ctl[m].path ==> Holds(s, c) && s.hist.answer[c]
    ensures Inv(SendModeRelease(s, m, success, written))
  {
    hide CountInv, CommitInv, ModeInv, NetInv, InFlight, Calm, Holds;
    ModeReleaseCounts(s, m, success, written);
    NothingCommittedYet(s, m, success, written);
    ModeReleasesNet(s, m, success, written);
  }

  lemma ModeReleaseCounts(s: System, m: nat, success: bool, written: set<nat>)
    requires PhaseOver(s, m, Slave)
    requires success ==> IsClusterPath(s.ctl[m].path, |s.ctl|, m)
    ensures var s' := SendModeRelease(s, m, success, written);
      WellSized(s') && Owned(s'.hist.phase, |s'.ctl|) && CountInv(s') && ModeInv(s')
  {
    assert Finished(SendModeRelease(s, m, success, written).hist) == {m};
    hide NetInv, CommitInv, InFlight, Calm;
  }

  /** The master itself writes at once, and everyone else's route is still held. */
  lemma NothingCommittedYet(s: System, m: nat, success: bool, written: set<nat>)
    requires PhaseOver(s, m, Slave)
    requires success ==> IsClusterPath(s.ctl[m].path, |s.ctl|, m)
    requires success ==> forall c: nat :: c < |s.ctl| && c in s.ctl[m].path ==> Holds(s, c) && s.hist.answer[c]
    ensures var s' := SendModeRelease(s, m, success, written); WellSized(s') && Owned(s'.hist.phase, |s'.ctl|) && CommitInv(s')
  {
    hide NetInv, CountInv, TokenInv, ModeInv, InFlight, Calm;
  }

  // ----- the master counts an answer

  /** The master m takes the answer of controller c into account. */
  ghost predicate Counts(s: System, s': System, m: nat, c: nat, taken: Message)
    requires WellSized(s) && WellSized(s') && m < |s.ctl|
  {
    && |s'.ctl| == |s.ctl|
    && (s'.token, s'.queue, s'.net) == (s.token, s.queue, s.net - multiset{taken})
    && c < |s.ctl| && s'.hist == s.hist.(progress := s.hist.progress[c := Done])
    && s'.ctl == s.ctl[m := s.ctl[m].(responses := s.ctl[m].responses + 1, allOk := s'.ctl[m].allOk,
                                      enabled := s'.ctl[m].enabled)]
  }

  lemma CountKeepsNet(s: System, s': System, m: nat, c: nat, taken: Message)
    requires WellSized(s) && WellSized(s') && m < |s.ctl| && Counts(s, s', m, c, taken)
    requires NetInv(s.net, s.hist, PathOf(s)) && s.hist.progress[c] == Answered
    requires InFlight(s.hist, PathOf(s), taken) && IsAnswerFrom(taken, c)
    ensures NetInv(s'.net, s'.hist, PathOf(s'))
  {
    assert PathOf(s') == PathOf(s);
    forall msg ensures s'.net[msg] == if InFlight(s'.hist, PathOf(s), msg) then 1 else 0 {
      assert s.net[msg] == if InFlight(s.hist, PathOf(s), msg) then 1 else 0;
      assert msg != taken ==> (InFlight(s'.hist, PathOf(s), msg) <==> InFlight(s.hist, PathOf(s), msg));
    }
  }

  lemma CountKeepsToken(s: System, s': System, m: nat, c: nat, taken: Message)
    requires WellSized(s) && WellSized(s') && m < |s.ctl| && Counts(s, s', m, c, taken) && TokenInv(s)
    ensures TokenInv(s')
  {
  }

  /** When all that take part have finished, only token requests are left in flight. */
  lemma CalmWhenFinished(net: multiset<Message>, h: History, path: seq<nat>)
    requires NetInv(net, h, path) && (h.phase.Collecting? || h.phase.Routing? || h.phase.Releasing?)
    requires forall c :: 0 <= c < |h.progress| && (h.phase.Routing? ==> c in path) ==> h.progress[c] == Done
    ensures Calm(net, h)
  {
    forall msg ensures net[msg] == if msg.TokenRequest? && InFlight(h, [], msg) then 1 else 0 {
      assert net[msg] == if InFlight(h, path, msg) then 1 else 0;
    }
  }

  /** The answer of c to the master m, once counted. */
  ghost function Counted(s: System, m: nat, c: nat, taken: Message): (s': System)
    requires WellSized(s) && m < |s.ctl| && c < |s.ctl|
    ensures WellSized(s') && |s'.ctl| == |s.ctl| && Counts(s, s', m, c, taken)
  {
    s.(net := s.net - multiset{taken}, ctl := s.ctl[m := s.ctl[m].(responses := s.ctl[m].responses + 1)],
       hist := s.hist.(progress := s.hist.progress[c := Done]))
  }

  /** An answer in flight belongs to the current phase of its master. */
  ghost predicate Counting(s: System, m: nat, c: nat, taken: Message) {
    && Inv(s) && m < |s.ctl| && c < |s.ctl|
    && s.hist.phase != NoToken && s.hist.phase.owner == m && s.hist.progress[c] == Answered
    && InFlight(s.hist, PathOf(s), taken) && IsAnswerFrom(taken, c)
  }

  /** The master and every controller that has answered are in their modes. */
  lemma ModesWhenFinished(s: System, m: nat, c: nat)
    requires WellSized(s) && ModeInv(s) && m < |s.ctl| && c < |s.ctl|
    requires s.hist.phase == Collecting(m) || (s.hist.phase.Releasing? && s.hist.phase.owner == m)
    requires s.hist.progress[c] == Answered
    requires forall d :: 0 <= d < |s.ctl| && d != c ==> s.hist.progress[d] == Done
    ensures Modes(s, m, if s.hist.phase.Collecting? then Slave else Idle)
  {
  }

  lemma CountKeepsCount(s: System, m: nat, c: nat, taken: Message)
    requires Counting(s, m, c, taken) && !s.hist.phase.Routing? && s.ctl[m].responses + 1 != |s.ctl|
    ensures var s' := Counted(s, m, c, taken); Owned(s'.hist.phase, |s'.ctl|) && CountInv(s')
  {
    var s' := Counted(s, m, c, taken);
    FinishedGrows(s.hist, s'.hist, c);
    SubsetSize(Finished(s'.hist), Below(|s.ctl|));
    hide TokenInv, NetInv, InFlight, ModeInv, CommitInv, Finished;
  }

  lemma CountKeepsCommit(s: System, m: nat, c: nat, taken: Message)
    requires Counting(s, m, c, taken) && !s.hist.phase.Routing?
    ensures var s' := Counted(s, m, c, taken); Owned(s'.hist.phase, |s'.ctl|) && CommitInv(s')
  {
    hide TokenInv, NetInv, InFlight, ModeInv, CountInv;
  }

  lemma CountKeeps(s: System, m: nat, c: nat, taken: Message)
    requires Counting(s, m, c, taken) && !s.hist.phase.Routing? && s.ctl[m].responses + 1 != |s.ctl|
    ensures Inv(Counted(s, m, c, taken))
  {
    var s' := Counted(s, m, c, taken);
    CountKeepsNet(s, s', m, c, taken);
    CountKeepsToken(s, s', m, c, taken);
    CountKeepsCount(s, m, c, taken);
    CountKeepsCommit(s, m, c, taken);
    hide TokenInv, NetInv, InFlight, CountInv, CommitInv;
  }

  lemma AllCounted(s: System, m: nat, c: nat, taken: Message)
    requires Counting(s, m, c, taken) && (s.hist.phase.Collecting? || s.hist.phase.Releasing?)
    requires s.ctl[m].responses + 1 == |s.ctl|
    ensures forall d :: 0 <= d < |s.ctl| && d != c ==> s.hist.progress[d] == Done
    ensures forall d :: 0 <= d < |s.ctl| ==> Counted(s, m, c, taken).hist.progress[d] == Done
  {
    hide TokenInv, CommitInv, ModeInv, NetInv, InFlight, Finished;
    var s' := Counted(s, m, c, taken);
    FinishedGrows(s.hist, s'.hist, c);
    AllFinished(s'.hist);
    forall d | 0 <= d < |s.ctl| && d != c ensures s.hist.progress[d] == Done {
      assert s'.hist.progress[d] == Done;
    }
  }

  lemma LastCountCalm(s: System, m: nat, c: nat, taken: Message)
    requires Counting(s, m, c, taken) && (s.hist.phase.Collecting? || s.hist.phase.Releasing?)
    requires s.ctl[m].responses + 1 == |s.ctl|
    ensures Calm(Counted(s, m, c, taken).net, Counted(s, m, c, taken).hist)
  {
    hide TokenInv, CountInv, CommitInv, ModeInv, NetInv, InFlight, Calm;
    var s' := Counted(s, m, c, taken);
    CountKeepsNet(s, s', m, c, taken);
    AllCounted(s, m, c, taken);
    CalmWhenFinished(s'.net, s'.hist, PathOf(s'));
  }

  lemma LastCount(s: System, m: nat, c: nat, taken: Message)
    requires Counting(s, m, c, taken) && (s.hist.phase.Collecting? || s.hist.phase.Releasing?)
    requires s.ctl[m].responses + 1 == |s.ctl|
    ensures PhaseOver(Counted(s, m, c, taken), m, if s.hist.phase.Collecting? then Slave else Idle)
  {
    hide CountInv, CommitInv, ModeInv, NetInv, InFlight, Calm;
    CountKeepsToken(s, Counted(s, m, c, taken), m, c, taken);
    AllCounted(s, m, c, taken);
    LastCountCalm(s, m, c, taken);
    ModesWhenFinished(s, m, c);
  }

  lemma BorderAckCounts(s: System, m: nat, c: nat)
    requires Inv(s) && s.net[BorderAck(c, m)] > 0 && m < |s.ctl| && c < |s.ctl|
    ensures WellSized(s) && Counting(s, m, c, BorderAck(c, m)) && s.hist.phase.Collecting? && s.hist.committed == {}
  {
    assert InFlight(s.hist, PathOf(s), BorderAck(c, m));
    hide TokenInv, CountInv, ModeInv, NetInv;
  }

  lemma BorderAckKeeps(s: System, m: nat, c: nat, o: Oracle)
    requires Inv(s) && s.net[BorderAck(c, m)] > 0 && m < |s.ctl| && c < |s.ctl|
    ensures Inv(HandleBorderAck(s.(net := s.net - multiset{BorderAck(c, m)}), m, c, o))
  {
    hide Inv, PhaseOver, Counting, GlobalRouting;
    BorderAckCounts(s, m, c);
    if s.ctl[m].responses + 1 == |s.ctl| {
      LastCount(s, m, c, BorderAck(c, m));
      StillOver(Counted(s, m, c, BorderAck(c, m)), m);
      GlobalRoutingKeeps(AllEnabled(Counted(s, m, c, BorderAck(c, m)), m), m, o);
    } else {
      CountKeeps(s, m, c, BorderAck(c, m));
    }
  }

  lemma ModeReleaseAckCounts(s: System, m: nat, c: nat)
    requires Inv(s) && s.net[ModeReleaseAck(c, m)] > 0 && m < |s.ctl| && c < |s.ctl|
    ensures WellSized(s) && Counting(s, m, c, ModeReleaseAck(c, m)) && s.hist.phase.Releasing?
  {
    assert InFlight(s.hist, PathOf(s), ModeReleaseAck(c, m));
    hide TokenInv, CountInv, CommitInv, ModeInv, NetInv;
  }

  lemma ModeReleaseAckKeeps(s: System, m: nat, c: nat)
    requires Inv(s) && s.net[ModeReleaseAck(c, m)] > 0 && m < |s.ctl| && c < |s.ctl|
    ensures Inv(HandleModeReleaseAck(s.(net := s.net - multiset{ModeReleaseAck(c, m)}), m, c))
  {
    hide Inv, PhaseOver, Counting, SendTokenRelease;
    ModeReleaseAckCounts(s, m, c);
    if s.ctl[m].responses + 1 == |s.ctl| {
      LastCount(s, m, c, ModeReleaseAck(c, m));
      SendTokenReleaseKeeps(Counted(s, m, c, ModeReleaseAck(c, m)), m);
    } else {
      CountKeeps(s, m, c, ModeReleaseAck(c, m));
    }
  }

  /** The detailed routing answer of c, once counted. */
  ghost function CountedAnswer(s: System, m: nat, c: nat, ok: bool): (s': System)
    requires WellSized(s) && m < |s.ctl| && c < |s.ctl|
    ensures WellSized(s') && |s'.ctl| == |s.ctl| && Counts(s, s', m, c, DetailResponse(c, m, ok))
  {
    s.(net := s.net - multiset{DetailResponse(c, m, ok)},
       ctl := s.ctl[m := TakeAnswer(s.ctl[m], m, c, ok)],
       hist := s.hist.(progress := s.hist.progress[c := Done]))
  }

  lemma DetailResponseCounts(s: System, m: nat, c: nat, ok: bool)
    requires Inv(s) && s.net[DetailResponse(c, m, ok)] > 0 && m < |s.ctl| && c < |s.ctl|
    ensures WellSized(s) && Counting(s, m, c, DetailResponse(c, m, ok)) && s.hist.phase == Routing(m)
    ensures c in s.ctl[m].path && ok == s.hist.answer[c] && IsClusterPath(s.ctl[m].path, |s.ctl|, m)
    ensures s.hist.committed == {}
  {
    assert InFlight(s.hist, PathOf(s), DetailResponse(c, m, ok));
    hide TokenInv, ModeInv, NetInv;
  }

  lemma AnswerCounted(s: System, m: nat, c: nat, ok: bool)
    requires Counting(s, m, c, DetailResponse(c, m, ok)) && s.hist.phase == Routing(m)
    ensures var s' := CountedAnswer(s, m, c, ok); var path := s.ctl[m].path;
      && Finished(s'.hist) <= PathSet(path) && |PathSet(path)| == |path|
      && s'.ctl[m].responses == |Finished(s'.hist)| <= |path|
      && (s'.ctl[m].allOk <==> forall d :: d in Finished(s'.hist) ==> s'.hist.answer[d])
      && s'.token == m && Owned(s'.hist.phase, |s'.ctl|) && TokenInv(s') && CommitInv(s')
      && NetInv(s'.net, s'.hist, PathOf(s'))
  {
    hide Inv, Counting, CountInv, CommitInv, TokenInv, NetInv, InFlight, Finished, PathSet, IsClusterPath, Counts;
    AnswerCountsOne(s, m, c, ok);
    AnswerKeepsRest(s, m, c, ok);
  }

  lemma AnswerCountsOne(s: System, m: nat, c: nat, ok: bool)
    requires Counting(s, m, c, DetailResponse(c, m, ok)) && s.hist.phase == Routing(m)
    ensures var s' := CountedAnswer(s, m, c, ok); var path := s.ctl[m].path;
      && Finished(s'.hist) <= PathSet(path) && |PathSet(path)| == |path|
      && s'.ctl[m].responses == |Finished(s'.hist)| <= |path|
      && (s'.ctl[m].allOk <==> forall d :: d in Finished(s'.hist) ==> s'.hist.answer[d])
  {
    hide TokenInv, NetInv, ModeInv, CommitInv, Finished, PathSet, IsClusterPath;
    var s' := CountedAnswer(s, m, c, ok);
    FinishedGrows(s.hist, s'.hist, c);
    ClustersOf(s.ctl[m].path, |s.ctl|, m, c);
    SubsetSize(Finished(s'.hist), PathSet(s.ctl[m].path));
  }

  lemma ClustersOf(path: seq<nat>, n: nat, m: nat, c: nat)
    requires IsClusterPath(path, n, m)
    ensures |path| > 0 && |PathSet(path)| == |path| && (c in PathSet(path) <==> c in path)
  {
    PathSetSize(path);
  }

  lemma AnswerKeepsRest(s: System, m: nat, c: nat, ok: bool)
    requires Counting(s, m, c, DetailResponse(c, m, ok)) && s.hist.phase == Routing(m)
    ensures var s' := CountedAnswer(s, m, c, ok);
      s'.token == m && Owned(s'.hist.phase, |s'.ctl|) && TokenInv(s') && CommitInv(s') && NetInv(s'.net, s'.hist, PathOf(s'))
  {
    var s' := CountedAnswer(s, m, c, ok);
    CountKeepsNet(s, s', m, c, DetailResponse(c, m, ok));
    CountKeepsToken(s, s', m, c, DetailResponse(c, m, ok));
    hide TokenInv, NetInv, ModeInv, CountInv, IsClusterPath;
  }

  /** While answers are outstanding everyone on the path is a slave, and the master alone may have seen a no. */
  lemma AnswerKeepsModes(s: System, m: nat, c: nat, ok: bool)
    requires Counting(s, m, c, DetailResponse(c, m, ok)) && s.hist.phase == Routing(m)
    ensures var s' := CountedAnswer(s, m, c, ok);
      ModeInv(s') && Modes(s'.(ctl := s'.ctl[m := s'.ctl[m].(allOk := true)]), m, Slave)
  {
    hide TokenInv, CountInv, CommitInv, NetInv, InFlight;
  }

  lemma AnswerContinues(s: System, m: nat, c: nat, ok: bool)
    requires Counting(s, m, c, DetailResponse(c, m, ok)) && s.hist.phase == Routing(m)
    requires s.ctl[m].responses + 1 != |s.ctl[m].path|
    ensures Inv(CountedAnswer(s, m, c, ok))
  {
    var s' := CountedAnswer(s, m, c, ok);
    AnswerCounted(s, m, c, ok);
    AnswerKeepsModes(s, m, c, ok);
    hide TokenInv, NetInv, CommitInv, ModeInv, InFlight, Finished;
    assert CountInv(s');
    hide CountInv;
  }

  /**
   * The last answer is in: the whole path has answered, and if all said yes every one of its clusters holds a free
   * route.
   */
  lemma AllAnswered(s: System, m: nat, c: nat, ok: bool)
    requires Counting(s, m, c, DetailResponse(c, m, ok)) && s.hist.phase == Routing(m)
    requires s.ctl[m].responses + 1 == |s.ctl[m].path|
    ensures var s' := CountedAnswer(s, m, c, ok);
      && (forall d :: 0 <= d < |s.ctl| && d in s.ctl[m].path ==> s'.hist.progress[d] == Done)
      && (s'.ctl[m].allOk ==> forall d: nat :: d < |s.ctl| && d in s.ctl[m].path ==> Holds(s', d) && s'.hist.answer[d])
  {
    var s' := CountedAnswer(s, m, c, ok);
    AnswerCounted(s, m, c, ok);
    SubsetSize(Finished(s'.hist), PathSet(s.ctl[m].path));
    hide TokenInv, NetInv, ModeInv, InFlight;
    forall d | 0 <= d < |s.ctl| && d in s.ctl[m].path ensures s'.hist.progress[d] == Done {
      assert d in Finished(s'.hist);
    }
  }

  lemma TokenIgnoresAnswers(s: System, m: nat)
    requires WellSized(s) && m < |s.ctl| && TokenInv(s)
    ensures TokenInv(s.(ctl := s.ctl[m := s.ctl[m].(allOk := true)]))
  {
  }

  lemma LastAnswerCalm(s: System, m: nat, c: nat, ok: bool)
    requires Counting(s, m, c, DetailResponse(c, m, ok)) && s.hist.phase == Routing(m)
    requires s.ctl[m].responses + 1 == |s.ctl[m].path|
    ensures var s' := CountedAnswer(s, m, c, ok); Calm(s'.net, s'.hist)
  {
    var s' := CountedAnswer(s, m, c, ok);
    AnswerCounted(s, m, c, ok);
    AllAnswered(s, m, c, ok);
    hide TokenInv, CountInv, CommitInv, ModeInv, NetInv, InFlight, Calm;
    CalmWhenFinished(s'.net, s'.hist, PathOf(s'));
  }

  lemma LastAnswer(s: System, m: nat, c: nat, ok: bool)
    requires Counting(s, m, c, DetailResponse(c, m, ok)) && s.hist.phase == Routing(m)
    requires s.ctl[m].responses + 1 == |s.ctl[m].path|
    ensures var s' := CountedAnswer(s, m, c, ok); PhaseOver(s'.(ctl := s'.ctl[m := s'.ctl[m].(allOk := true)]), m, Slave)
  {
    var s' := CountedAnswer(s, m, c, ok);
    AnswerCounted(s, m, c, ok);
    AnswerKeepsModes(s, m, c, ok);
    LastAnswerCalm(s, m, c, ok);
    TokenIgnoresAnswers(s', m);
    hide NetInv, InFlight, Calm, CommitInv, TokenInv, CountInv, ModeInv, Modes, Inv, Counting;
  }

  lemma DetailResponseKeeps(s: System, m: nat, c: nat, ok: bool, o: Oracle)
    requires Inv(s) && s.net[DetailResponse(c, m, ok)] > 0 && m < |s.ctl| && c < |s.ctl|
    ensures Inv(HandleDetailResponse(s.(net := s.net - multiset{DetailResponse(c, m, ok)}), m, c, ok, o))
  {
    hide Inv, PhaseOver, Counting, GlobalRouting, SendModeRelease;
    DetailResponseCounts(s, m, c, ok);
    var s' := CountedAnswer(s, m, c, ok);
    if s'.ctl[m].responses != |s.ctl[m].path| {
      AnswerContinues(s, m, c, ok);
    } else {
      LastAnswer(s, m, c, ok);
      AllAnswered(s, m, c, ok);
      var s1 := s'.(ctl := s'.ctl[m := s'.ctl[m].(allOk := true)]);
      if s'.ctl[m].allOk {
        assert s1 == s';
        SendModeReleaseKeeps(s', m, true, o.written);
      } else {
        GlobalRoutingKeeps(s1, m, o);
      }
    }
  }

  // ----- the token

  /** Controller r is next: everyone is idle, and r asked for the token and is on no list any more. */
  ghost predicate Next(s: System, r: nat) {
    && WellSized(s) && r < |s.ctl|
    && (forall i :: 0 <= i < |s.queue| ==>
      s.queue[i] < |s.ctl| && s.queue[i] != r && s.hist.place[s.queue[i]] == Queued)
    && (forall i, j :: 0 <= i < j < |s.queue| ==> s.queue[i] != s.queue[j])
    && (forall c :: 0 <= c < |s.ctl| && c != r ==> (s.hist.place[c] == Queued ==> c in s.queue))
    && (forall c: nat :: c < |s.ctl| && c != r ==> s.hist.place[c] != Granted)
    && (forall c :: 0 <= c < |s.ctl| && c != r ==> (s.ctl[c].requested <==> s.hist.place[c] != NotRequested))
    && s.ctl[r].requested && (r != 0 ==> s.hist.place[0] != Travelling && s.hist.place[0] != Granted)
    && (forall c :: 0 <= c < |s.ctl| ==> s.ctl[c].status == Idle && !s.ctl[c].stuck && s.ctl[c].allOk)
    && CalmBut(s.net, s.hist, r)
  }

  lemma BorderRequestsNet(s: System, c: nat)
    requires Next(s, c)
    ensures var s' := HandleTokenGrant(s, c); NetInv(s'.net, s'.hist, PathOf(s'))
  {
    var s' := HandleTokenGrant(s, c);
    var batch := set d | d in Others(|s.ctl|, c) :: BorderRequest(c, d);
    forall msg ensures s'.net[msg] == if InFlight(s'.hist, PathOf(s'), msg) then 1 else 0 {
      assert s.net[msg] == if msg.TokenRequest? && msg.from != c && InFlight(s.hist, [], msg) then 1 else 0;
      assert multiset(batch)[msg] == if msg in batch then 1 else 0;
      if msg.BorderRequest? {
        assert msg in batch <==> msg.from == c && msg.to in Others(|s.ctl|, c);
      }
    }
  }

  /** A token grant finds its receiver idle with a request pending. */
  lemma TokenGrantStarts(s: System, c: nat)
    requires Next(s, c) && s.hist.arrivals == s.hist.grants + s.queue
    ensures Inv(HandleTokenGrant(s, c).(token := c))
  {
    var s' := HandleTokenGrant(s, c);
    BorderRequestsNet(s, c);
    assert Finished(s'.hist) == {c};
    hide NetInv, InFlight, CalmBut;
  }

  lemma SendTokenKeeps(s: System, r: nat)
    requires Next(s, r) && s.hist.arrivals == s.hist.grants + [r] + s.queue
    ensures Inv(SendToken(s, r).(token := r))
  {
    if r == 0 {
      TokenGrantStarts(s.(hist := s.hist.(grants := s.hist.grants + [r])), 0);
    } else {
      var s' := SendToken(s, r);
      GrantSentNet(s.net, s.hist, s'.hist, PathOf(s'), r);
      hide NetInv, InFlight, CalmBut;
    }
  }

  /** The coordinator gets the token back while everyone is idle. */
  lemma TokenReturns(s: System)
    requires WellSized(s) && TokenInv(s) && s.token != -1 && !s.hist.phase.Granting? && Calm(s.net, s.hist)
    requires forall c :: 0 <= c < |s.ctl| ==> s.ctl[c].status == Idle && !s.ctl[c].stuck && s.ctl[c].allOk
    ensures Inv(HandleTokenRelease(s))
  {
    hide Inv, Next, TokenInv, Calm;
    if s.queue == [] {
      TokenStaysHome(s);
    } else {
      NextInQueue(s);
      NextIsHandedOn(s);
    }
  }

  lemma TokenStaysHome(s: System)
    requires WellSized(s) && TokenInv(s) && !s.hist.phase.Granting? && Calm(s.net, s.hist) && s.queue == []
    requires forall c :: 0 <= c < |s.ctl| ==> s.ctl[c].status == Idle && !s.ctl[c].stuck && s.ctl[c].allOk
    ensures Inv(HandleTokenRelease(s))
  {
    TokenHomeNet(s.net, s.hist, HandleTokenRelease(s).hist, PathOf(HandleTokenRelease(s)));
    hide NetInv, InFlight, Calm;
  }

  lemma NextIsHandedOn(s: System)
    requires WellSized(s) && TokenInv(s) && s.queue != [] && s.queue[0] < |s.ctl|
    requires Next(s.(token := s.queue[0], queue := s.queue[1..]), s.queue[0])
    ensures Inv(HandleTokenRelease(s))
  {
    hide Inv, Next;
    SendTokenKeeps(s.(token := s.queue[0], queue := s.queue[1..]), s.queue[0]);
  }

  lemma NextInQueue(s: System)
    requires WellSized(s) && TokenInv(s) && !s.hist.phase.Granting? && Calm(s.net, s.hist) && s.queue != []
    requires forall c :: 0 <= c < |s.ctl| ==> s.ctl[c].status == Idle && !s.ctl[c].stuck && s.ctl[c].allOk
    ensures s.queue[0] < |s.ctl| && Next(s.(token := s.queue[0], queue := s.queue[1..]), s.queue[0])
  {
    CalmBecomesBut(s.net, s.hist, s.queue[0]);
    hide Calm, CalmBut;
  }

  lemma TokenSentBack(s: System, m: nat)
    requires PhaseOver(s, m, Idle) && m != 0
    ensures Inv(SendTokenRelease(s, m))
  {
    var s' := SendTokenRelease(s, m);
    TokenSentBackNet(s.net, s.hist, s'.hist, PathOf(s'), m);
    hide NetInv, InFlight, Calm;
  }

  lemma SendTokenReleaseKeeps(s: System, m: nat)
    requires PhaseOver(s, m, Idle)
    ensures Inv(SendTokenRelease(s, m))
  {
    if m == 0 {
      var s1 := s.(ctl := s.ctl[m := s.ctl[m].(status := Idle)]);
      assert TokenInv(s1);
      hide Inv, TokenInv, Calm, HandleTokenRelease;
      TokenReturns(s1);
    } else {
      TokenSentBack(s, m);
    }
  }

  /** A token release comes back from the only holder. */
  lemma TokenReleaseKeeps(s: System, f: nat)
    requires Inv(s) && s.net[TokenRelease(f)] > 0 && f < |s.ctl|
    ensures Inv(HandleTokenRelease(s.(net := s.net - multiset{TokenRelease(f)})))
  {
    TokenTakenNet(s.net, s.hist, PathOf(s), TokenRelease(f));
    hide NetInv, Calm;
    TokenReturns(s.(net := s.net - multiset{TokenRelease(f)}));
  }

  /** A token grant finds its receiver idle with a request pending. */
  lemma TokenGrantKeeps(s: System, c: nat)
    requires Inv(s) && s.net[TokenGrant(c)] > 0 && c < |s.ctl|
    ensures s.ctl[c].status == Idle && s.ctl[c].requested
    ensures Inv(HandleTokenGrant(s.(net := s.net - multiset{TokenGrant(c)}), c))
  {
    TokenTakenNet(s.net, s.hist, PathOf(s), TokenGrant(c));
    CalmBecomesBut(s.net - multiset{TokenGrant(c)}, s.hist, c);
    hide NetInv, CalmBut, Calm;
    TokenGrantStarts(s.(net := s.net - multiset{TokenGrant(c)}), c);
  }

  /** A request reaches the coordinator: r has asked, stands in no list and its message has been taken. */
  ghost predicate Arriving(s: System, r: nat) {
    && WellSized(s) && r < |s.ctl| && s.ctl[r].requested
    && (s.hist.place[r] == Travelling || s.hist.place[r] == NotRequested)
    && Owned(s.hist.phase, |s.ctl|) && s.token == TokenOf(s.hist.phase) && (s.token == -1 ==> s.queue == [])
    && (forall i :: 0 <= i < |s.queue| ==> s.queue[i] < |s.ctl| && s.hist.place[s.queue[i]] == Queued)
    && (forall i, j :: 0 <= i < j < |s.queue| ==> s.queue[i] != s.queue[j])
    && (forall c :: 0 <= c < |s.ctl| ==> (s.hist.place[c] == Queued ==> c in s.queue))
    && (forall c: nat :: c < |s.ctl| ==> (s.hist.place[c] == Granted <==> s.hist.phase == Granting(c)))
    && (forall c :: 0 <= c < |s.ctl| && c != r ==> (s.ctl[c].requested <==> s.hist.place[c] != NotRequested))
    && s.hist.place[0] != Travelling && s.hist.place[0] != Granted
    && s.hist.arrivals == s.hist.grants + s.queue
  }

  /** The queue has room: it holds different controllers, and not the one that asks. */
  lemma QueueHasRoom(s: System, r: nat)
    requires Arriving(s, r)
    ensures |s.queue| < |s.ctl|
  {
    PathSetSize(s.queue);
    SubsetSize(PathSet(s.queue), Below(|s.ctl|) - {r});
  }

  /** The coordinator queues the request while the token is away. */
  lemma RequestQueues(s: System, r: nat)
    requires Arriving(s, r) && s.token != -1 && CountInv(s) && CommitInv(s) && ModeInv(s)
    requires NetBut(s.net, s.hist, PathOf(s), TokenRequest(r))
    ensures Inv(HandleTokenRequest(s, r))
  {
    var s' := HandleTokenRequest(s, r);
    QueueHasRoom(s, r);
    QueuedIsKnown(s, s', r);
    TokenFrame(s, s');
    RequestQueuedNet(s.net, s.hist, s'.hist, PathOf(s), r);
    hide *;
    Conclude(s');
  }

  lemma QueuedIsKnown(s: System, s': System, r: nat)
    requires Arriving(s, r) && s.token != -1 && |s.queue| < |s.ctl| && s' == HandleTokenRequest(s, r)
    ensures WellSized(s') && TokenInv(s')
  {
    assert s'.queue == s.queue + [r];
    forall c | 0 <= c < |s.ctl| && s'.hist.place[c] == Queued ensures c in s'.queue {
      assert s'.queue[|s.queue|] == r;
    }
  }

  /** The coordinator grants the token at once while it is at home. */
  lemma RequestGrants(s: System, r: nat)
    requires Arriving(s, r) && s.token == -1 && ModeInv(s)
    requires NetBut(s.net, s.hist, PathOf(s), TokenRequest(r))
    ensures Inv(HandleTokenRequest(s, r))
  {
    TokenHomeCalm(s.net, s.hist, PathOf(s), r);
    hide CalmBut, NetBut, InFlight, Inv;
    SendTokenKeeps(s.(hist := s.hist.(arrivals := s.hist.arrivals + [r])), r);
  }

  lemma TokenRequestArrives(s: System, r: nat)
    requires Inv(s) && s.net[TokenRequest(r)] > 0 && r < |s.ctl|
    ensures var s1 := s.(net := s.net - multiset{TokenRequest(r)});
      && Arriving(s1, r) && CountInv(s1) && CommitInv(s1) && ModeInv(s1) && PathOf(s1) == PathOf(s)
      && NetBut(s1.net, s1.hist, PathOf(s), TokenRequest(r))
  {
    TakeNet(s.net, s.hist, PathOf(s), TokenRequest(r));
    hide NetInv, NetBut;
  }

  lemma TokenRequestKeeps(s: System, r: nat)
    requires Inv(s) && s.net[TokenRequest(r)] > 0 && r < |s.ctl|
    ensures Inv(HandleTokenRequest(s.(net := s.net - multiset{TokenRequest(r)}), r))
  {
    hide *;
    TokenRequestArrives(s, r);
    var s1 := s.(net := s.net - multiset{TokenRequest(r)});
    if s.token == -1 { RequestGrants(s1, r); } else { RequestQueues(s1, r); }
  }

  // ----- the steps a controller takes on its own

  lemma CoordinatorAsks(s: System)
    requires Inv(s) && CanStart(s, 0)
    ensures var s1 := s.(ctl := s.ctl[0 := s.ctl[0].(requested := true)]);
      && Arriving(s1, 0) && CountInv(s1) && CommitInv(s1) && ModeInv(s1)
      && NetBut(s1.net, s1.hist, PathOf(s1), TokenRequest(0))
  {
    var s1 := s.(ctl := s.ctl[0 := s.ctl[0].(requested := true)]);
    TokenFrame(s, s1);
    assert NetBut(s.net, s.hist, PathOf(s), TokenRequest(0)) by {
      forall msg ensures s.net[msg] == if InFlight(s.hist, PathOf(s), msg) && msg != TokenRequest(0) then 1 else 0 {
        assert s.net[msg] == if InFlight(s.hist, PathOf(s), msg) then 1 else 0;
      }
    }
    hide NetInv, NetBut, InFlight, CountInv, CommitInv, ModeInv;
  }

  lemma StartKeeps(s: System, c: nat)
    requires Inv(s) && CanStart(s, c)
    ensures Inv(NewGlobalPath(s, c))
  {
    if c == 0 {
      CoordinatorAsks(s);
      var s1 := s.(ctl := s.ctl[0 := s.ctl[0].(requested := true)]);
      hide Inv, Arriving, TokenInv, CountInv, CommitInv, ModeInv, NetInv, NetBut;
      if s.token == -1 { RequestGrants(s1, 0); } else { RequestQueues(s1, 0); }
    } else {
      var s' := NewGlobalPath(s, c);
      TokenFrame(s, s');
      RequestSentNet(s.net, s.hist, s'.hist, PathOf(s), c);
      hide NetInv, InFlight, CountInv, CommitInv, ModeInv;
    }
  }

  lemma LocalWorkKeeps(s: System, c: nat, plist: set<nat>, used: set<nat>)
    requires Inv(s) && CanWorkLocally(s, c)
    ensures Inv(LocalWork(s, c, plist, used))
  {
    PortsFrame(s, LocalWork(s, c, plist, used));
    hide TokenInv, CountInv, NetInv, InFlight;
  }

  lemma FaultOnBothSides(plist: set<nat>, used: set<nat>, faults: set<nat>, port: nat)
    requires plist * used == plist * faults
    ensures plist * (used + {port}) == plist * (faults + {port})
  {
    assert plist * (used + {port}) == plist * used + plist * {port};
    assert plist * (faults + {port}) == plist * faults + plist * {port};
  }

  lemma FaultKeepsRoutes(s: System, c: nat, port: nat)
    requires WellSized(s) && c < |s.ctl| && Owned(s.hist.phase, |s.ctl|) && CommitInv(s)
    ensures CommitInv(Fault(s, c, port))
  {
    var s' := Fault(s, c, port);
    if Holds(s, c) { FaultOnBothSides(s.ctl[c].plist, s.ctl[c].used, s.hist.faults[c], port); }
    assert forall d :: 0 <= d < |s.ctl| && Holds(s, d) ==> Holds(s', d);
    hide Holds;
  }

  lemma FaultKeeps(s: System, c: nat, port: nat)
    requires Inv(s) && CanRun(s, c)
    ensures Inv(Fault(s, c, port))
  {
    PortsFrame(s, Fault(s, c, port));
    FaultKeepsRoutes(s, c, port);
    hide TokenInv, CountInv, CommitInv, ModeInv, NetInv;
  }

  lemma DeliverKeeps(s: System, msg: Message, o: Oracle)
    requires Inv(s) && CanDeliver(s, msg)
    ensures Inv(Deliver(s, msg, o))
  {
    hide Inv, HandleTokenRequest, HandleTokenGrant, HandleTokenRelease, HandleBorderRequest, HandleBorderAck,
      HandleDetailRequest,
      HandleDetailResponse, HandleModeRelease, HandleModeReleaseAck;
    match msg
    case TokenRequest(f) => TokenRequestKeeps(s, f);
    case TokenGrant(t) => TokenGrantKeeps(s, t);
    case TokenRelease(f) => TokenReleaseKeeps(s, f);
    case BorderRequest(f, t) => BorderRequestKeeps(s, f, t);
    case BorderAck(f, t) => BorderAckKeeps(s, t, f, o);
    case DetailRequest(f, t) => DetailRequestKeeps(s, f, t, o);
    case DetailResponse(f, t, ok) => DetailResponseKeeps(s, t, f, ok, o);
    case ModeRelease(f, t, configure) => ModeReleaseKeeps(s, f, t, configure, o.written);
    case ModeReleaseAck(f, t) => ModeReleaseAckKeeps(s, t, f);
  }
}
