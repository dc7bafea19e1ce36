/**
 * The token is never stuck: what its holder waits for is on its way, and every delivery brings the token nearer to its
 * return.
 */
module ProtocolProgress {
  import opened Basics
  import opened Protocol
  import opened ProtocolInvariant
  import opened ProtocolRetries
  import opened ProtocolSafety

  /** The controllers the current phase still waits for, and among them those that have not been reached yet. */
  ghost function Awaited(h: History, path: seq<nat>): set<nat> {
    set c: nat | c < |h.progress| && h.progress[c] != Done && (h.phase.Routing? ==> c in path)
  }

  ghost function Unreached(h: History, path: seq<nat>): set<nat> {
    set c: nat | c < |h.progress| && h.progress[c] == Asked && (h.phase.Routing? ==> c in path)
  }

  /** How many steps the phase takes at most. */
  ghost function Waiting(s: System): nat {
    |Awaited(s.hist, PathOf(s))| + |Unreached(s.hist, PathOf(s))|
  }

  function Rank(phase: Phase): nat {
    match phase
    case NoToken => 0
    case Returning(_) => 1
    case Releasing(_, _) => 2
    case Routing(_) => 3
    case Collecting(_) => 4
    case Granting(_) => 5
  }

  /** The token has come back: it is free, or the next in the queue has been given it. */
  ghost predicate Returned(s: System, s': System) {
    s'.hist.phase == NoToken || |s'.hist.grants| > |s.hist.grants|
  }

  /** How many attempts the routing phase can still take, one that has seen a no counting as one more. */
  ghost function Left(s: System): nat {
    if s.hist.phase.Routing? && s.hist.phase.owner < |s.ctl| then
      |s.ctl[s.hist.phase.owner].enabled| + if s.ctl[s.hist.phase.owner].allOk then 0 else 1
    else 0
  }

  /** Nearer to the return of the token: by phase, then by attempts left, then by answers outstanding. */
  ghost predicate Nearer(s: System, s': System) {
    || Rank(s'.hist.phase) < Rank(s.hist.phase)
    || (Rank(s'.hist.phase) == Rank(s.hist.phase) && Left(s') < Left(s))
    || (Rank(s'.hist.phase) == Rank(s.hist.phase) && Left(s') == Left(s) && Waiting(s') < Waiting(s))
  }

  ghost predicate AsNear(s: System, s': System) {
    Rank(s'.hist.phase) == Rank(s.hist.phase) && Left(s') == Left(s) && Waiting(s') == Waiting(s)
  }

  ghost predicate Advances(s: System, s': System) {
    Returned(s, s') || Nearer(s, s')
  }

  /** What is on its way while the token is held. */
  lemma Something(s: System) returns (msg: Message)
    requires Inv(s) && s.hist.phase != NoToken
    ensures CanDeliver(s, msg) && InFlight(s.hist, PathOf(s), msg) && !msg.TokenRequest?
  {
    var m := s.hist.phase.owner;
    match s.hist.phase
    case Granting(_) => msg := TokenGrant(m);
    case Returning(_) => msg := TokenRelease(m);
    case Collecting(_) =>
      var c := Unfinished(s, Below(|s.ctl|));
      msg := if s.hist.progress[c] == Asked then BorderRequest(m, c) else BorderAck(c, m);
    case Releasing(_, commit) =>
      var c := Unfinished(s, Below(|s.ctl|));
      msg := if s.hist.progress[c] == Asked then ModeRelease(m, c, commit && c in PathOf(s)) else ModeReleaseAck(c, m);
    case Routing(_) =>
      PathSetSize(s.ctl[m].path);
      var c := Unfinished(s, PathSet(s.ctl[m].path));
      msg := if s.hist.progress[c] == Asked then DetailRequest(m, c) else DetailResponse(c, m, s.hist.answer[c]);
  }

  /** One that has not finished, among more than have. */
  lemma Unfinished(s: System, all: set<nat>) returns (c: nat)
    requires WellSized(s) && |Finished(s.hist)| < |all| && forall d :: d in all ==> d < |s.ctl|
    ensures c in all && s.hist.progress[c] != Done
  {
    if forall d :: d in all ==> s.hist.progress[d] == Done {
      SubsetSize(all, Finished(s.hist));
    }
    c :| c in all && s.hist.progress[c] != Done;
  }

  // ----- each kind of message

  /** A controller has been counted. */
  lemma OneCounted(h: History, h': History, path: seq<nat>, c: nat)
    requires c < |h.progress| && h'.progress == h.progress[c := Done] && h'.phase == h.phase
    requires (h.phase.Routing? ==> c in path)
    requires h.progress[c] == Answered
    ensures |Awaited(h', path)| + |Unreached(h', path)| < |Awaited(h, path)| + |Unreached(h, path)|
  {
    assert Awaited(h', path) == Awaited(h, path) - {c} && c in Awaited(h, path);
    assert Unreached(h', path) == Unreached(h, path);
  }

  /** A controller has been reached. */
  lemma OneReached(h: History, h': History, path: seq<nat>, c: nat)
    requires c < |h.progress| && h'.progress == h.progress[c := Answered] && h'.phase == h.phase
    requires (h.phase.Routing? ==> c in path)
    requires h.progress[c] == Asked
    ensures |Awaited(h', path)| + |Unreached(h', path)| < |Awaited(h, path)| + |Unreached(h, path)|
  {
    assert Awaited(h', path) == Awaited(h, path);
    assert Unreached(h', path) == Unreached(h, path) - {c} && c in Unreached(h, path);
  }

  lemma RequestAdvances(s: System, msg: Message, o: Oracle)
    requires Inv(s) && CanDeliver(s, msg) && InFlight(s.hist, PathOf(s), msg)
    requires msg.BorderRequest? || msg.DetailRequest? || msg.ModeRelease?
    ensures Nearer(s, Deliver(s, msg, o))
  {
    var s' := Deliver(s, msg, o);
    hide TokenInv, CountInv, CommitInv, ModeInv, NetInv, Awaited, Unreached;
    assert PathOf(s') == PathOf(s);
    OneReached(s.hist, s'.hist, PathOf(s), msg.to);
  }

  lemma TokenReleaseReturns(s: System)
    requires WellSized(s) && forall i :: 0 <= i < |s.queue| ==> s.queue[i] < |s.ctl|
    ensures Returned(s, HandleTokenRelease(s))
  {
  }

  lemma ReleaseAdvances(s: System, m: nat)
    requires WellSized(s) && m < |s.ctl| && s.hist.phase.Releasing? && s.ctl[m].status == Master
    requires forall i :: 0 <= i < |s.queue| ==> s.queue[i] < |s.ctl|
    ensures Returned(s, SendTokenRelease(s, m)) || Rank(SendTokenRelease(s, m).hist.phase) < Rank(s.hist.phase)
  {
    hide HandleTokenRelease;
    if m == 0 { TokenReleaseReturns(s.(ctl := s.ctl[m := s.ctl[m].(status := Idle)])); }
  }

  lemma BorderAckAdvances(s: System, m: nat, c: nat, o: Oracle)
    requires Inv(s) && s.net[BorderAck(c, m)] > 0 && m < |s.ctl| && c < |s.ctl|
    ensures Nearer(s, Deliver(s, BorderAck(c, m), o))
  {
    hide Inv, Counting, CanDeliver, Awaited, Unreached, GlobalRouting, IsClusterPath, InFlight;
    BorderAckCounts(s, m, c);
    CountingFacts(s, m, c, BorderAck(c, m));
    var s1 := Counted(s, m, c, BorderAck(c, m));
    if s.ctl[m].responses + 1 == |s.ctl| {
      NextAttemptStarts(AllEnabled(s1, m), m, o);
    } else {
      OneCounted(s.hist, s1.hist, PathOf(s), c);
    }
  }

  lemma CountingFacts(s: System, m: nat, c: nat, taken: Message)
    requires Counting(s, m, c, taken)
    ensures s.hist.phase != NoToken && s.hist.phase.owner == m && s.hist.progress[c] == Answered
    ensures PathOf(s) == PathOf(Counted(s, m, c, taken)) == s.ctl[m].path
  {
    hide Inv, InFlight;
  }

  lemma ModeReleaseAckAdvances(s: System, m: nat, c: nat, o: Oracle)
    requires Inv(s) && s.net[ModeReleaseAck(c, m)] > 0 && m < |s.ctl| && c < |s.ctl|
    ensures var s' := Deliver(s, ModeReleaseAck(c, m), o); Returned(s, s') || Nearer(s, s')
  {
    hide Counting, CountInv, CommitInv, NetInv, CanDeliver, Awaited, Unreached, SendTokenRelease, IsClusterPath,
      InFlight;
    ModeReleaseAckCounts(s, m, c);
    CountingFacts(s, m, c, ModeReleaseAck(c, m));
    var s1 := Counted(s, m, c, ModeReleaseAck(c, m));
    if s.ctl[m].responses + 1 == |s.ctl| {
      ReleaseAdvances(s1, m);
    } else {
      OneCounted(s.hist, s1.hist, PathOf(s), c);
    }
  }

  /**
   * A no costs at least one enabled pair, as long as the whole path is enabled, even where it comes from the source's
   * own cluster.
   */
  lemma NoLosesOne(enabled: set<(nat, nat)>, path: seq<nat>, subnet: nat, n: nat, m: nat, from: nat)
    requires IsClusterPath(path, n, m) && PathEnabled(enabled, path, subnet) && from in path
    ensures |enabled - Lost(path, subnet, m, from)| < |enabled|
  {
    var i :| 0 <= i < |path| && path[i] == from;
    var k := if i == |path| - 1 then 0 else i;
    assert (path[k], subnet) in enabled && (path[k], subnet) in Lost(path, subnet, m, from);
    SubsetSize(enabled - Lost(path, subnet, m, from), enabled);
  }

  /** Taking an answer into account never leaves more attempts. */
  lemma AnswerLeavesFewer(s: System, m: nat, c: nat, ok: bool)
    requires WellSized(s) && m < |s.ctl| && c < |s.ctl| && s.hist.phase == Routing(m) && CountInv(s)
    requires c in s.ctl[m].path
    ensures Left(CountedAnswer(s, m, c, ok)) <= Left(s)
  {
    var ctl := s.ctl[m];
    SubsetSize(StillEnabled(ctl.enabled, ctl.path, ctl.subnet, m, c, ok), ctl.enabled);
    if !ok && ctl.allOk { NoLosesOne(ctl.enabled, ctl.path, ctl.subnet, |s.ctl|, m, c); }
    hide Finished, IsClusterPath, PathEnabled, Lost;
  }

  /** The next attempt has fewer enabled pairs to lose than the failed one had. */
  lemma NextAttemptLeavesFewer(s: System, m: nat, o: Oracle)
    requires WellSized(s) && m < |s.ctl| && s.hist.phase == Routing(m) && !s.ctl[m].allOk
    ensures var s1 := s.(ctl := s.ctl[m := s.ctl[m].(allOk := true)]);
      CanRoute(s1.ctl[m], |s.ctl|, m, o) ==> Left(GlobalRouting(s1, m, o)) < Left(s)
  {
    var s1 := s.(ctl := s.ctl[m := s.ctl[m].(allOk := true)]);
    if CanRoute(s1.ctl[m], |s.ctl|, m, o) {
      OwnIsOnPath(o.path, |s.ctl|, m);
      NoLosesOne(s.ctl[m].enabled, o.path, o.subnet, |s.ctl|, m, m);
      hide IsClusterPath, PathEnabled, Lost;
    }
  }

  lemma DetailResponseAdvances(s: System, m: nat, c: nat, ok: bool, o: Oracle)
    requires Inv(s) && s.net[DetailResponse(c, m, ok)] > 0 && m < |s.ctl| && c < |s.ctl|
    ensures Advances(s, Deliver(s, DetailResponse(c, m, ok), o))
  {
    hide Inv, Counting, HandleDetailResponse, GlobalRouting, SendModeRelease, Awaited, Unreached, IsClusterPath,
      InFlight, CanRoute, Left;
    DetailResponseCounts(s, m, c, ok);
    AnswerFacts(s, m, c, ok);
    AnswerWrites(s, m, c, ok, o);
    AnswerLeavesFewer(s, m, c, ok);
    var s1 := CountedAnswer(s, m, c, ok);
    if s1.ctl[m].responses != |s1.ctl[m].path| {
      OneCounted(s.hist, s1.hist, PathOf(s), c);
    } else if s1.ctl[m].allOk {
      CommitStarts(s1, m, o.written);
    } else {
      NextAttemptLeavesFewer(s1, m, o);
      NextAttemptStarts(s1.(ctl := s1.ctl[m := s1.ctl[m].(allOk := true)]), m, o);
    }
  }

  lemma AnswerFacts(s: System, m: nat, c: nat, ok: bool)
    requires Counting(s, m, c, DetailResponse(c, m, ok)) && s.hist.phase == Routing(m)
    ensures s.hist.progress[c] == Answered && PathOf(s) == s.ctl[m].path && WellSized(s) && CountInv(s)
    ensures PathOf(CountedAnswer(s, m, c, ok)) == s.ctl[m].path
  {
    hide InFlight, CountInv, TokenInv, ModeInv, NetInv, CommitInv;
  }

  /**
   * Main result: while the token is held a message other than a token request is on its way, and the delivery of any
   * such message, with whatever the searches find, brings the token nearer to its return. So it returns after finitely
   * many deliveries in every run.
   */
  lemma TokenAdvances(run: seq<System>, i: nat) returns (msg: Message)
    requires IsRun(run) && i < |run| && run[i].hist.phase != NoToken
    ensures WellSized(run[i]) && CanDeliver(run[i], msg) && !msg.TokenRequest?
    ensures forall other, o :: CanDeliver(run[i], other) && !other.TokenRequest? ==>
      Advances(run[i], Deliver(run[i], other, o))
  {
    hide Init, Step, Deliver, Advances, TokenInv, CountInv, CommitInv, ModeInv, NetInv;
    RunKeeps(run, i);
    msg := Something(run[i]);
    forall other, o | CanDeliver(run[i], other) && !other.TokenRequest?
      ensures Advances(run[i], Deliver(run[i], other, o))
    {
      IsInFlight(run[i], other);
      DeliveryAdvances(run[i], other, o);
    }
  }

  /**
   * Main result: no step of any run takes the token further from its return, and those that are not deliveries leave it
   * where it is.
   */
  lemma TokenIsNeverSetBack(run: seq<System>, i: nat)
    requires IsRun(run) && i + 1 < |run| && run[i].hist.phase != NoToken
    ensures Advances(run[i], run[i + 1]) || AsNear(run[i], run[i + 1])
  {
    hide Init, Deliver, Advances, AsNear, Inv, NewGlobalPath, LocalWork, Fault;
    RunKeeps(run, i);
    var s, s' := run[i], run[i + 1];
    assert Step(s, s');
    if msg, o :| CanDeliver(s, msg) && s' == Deliver(s, msg, o) {
      IsInFlight(s, msg);
      if msg.TokenRequest? { RequestIsNear(s, msg.from, o); } else { DeliveryAdvances(s, msg, o); }
    } else if c :| CanStart(s, c) && s' == NewGlobalPath(s, c) {
      StartIsNear(s, c);
    } else if c, plist, used :| CanWorkLocally(s, c) && s' == LocalWork(s, c, plist, used) {
      PortsAreNear(s, c, plist, used, 0);
    } else {
      var c, port :| CanRun(s, c) && s' == Fault(s, c, port);
      PortsAreNear(s, c, {}, {}, port);
    }
  }

  /** What the distance depends on. */
  lemma SameIsNear(s: System, s': System)
    requires WellSized(s) && |s'.ctl| == |s.ctl| && (s'.hist.phase, s'.hist.progress) == (s.hist.phase, s.hist.progress)
    requires forall c :: 0 <= c < |s.ctl| ==>
      (s'.ctl[c].path, s'.ctl[c].enabled, s'.ctl[c].allOk) == (s.ctl[c].path, s.ctl[c].enabled, s.ctl[c].allOk)
    ensures AsNear(s, s')
  {
    assert PathOf(s') == PathOf(s);
    assert Awaited(s'.hist, PathOf(s)) == Awaited(s.hist, PathOf(s));
    assert Unreached(s'.hist, PathOf(s)) == Unreached(s.hist, PathOf(s));
  }

  lemma RequestIsNear(s: System, f: nat, o: Oracle)
    requires Inv(s) && CanDeliver(s, TokenRequest(f)) && s.hist.phase != NoToken
    ensures AsNear(s, Deliver(s, TokenRequest(f), o))
  {
    assert s.token != -1;
    hide Inv, AsNear, SendToken;
    SameIsNear(s, Deliver(s, TokenRequest(f), o));
  }

  lemma StartIsNear(s: System, c: nat)
    requires Inv(s) && CanStart(s, c) && s.hist.phase != NoToken
    ensures AsNear(s, NewGlobalPath(s, c))
  {
    assert s.token != -1;
    hide Inv, AsNear, SendToken;
    SameIsNear(s, NewGlobalPath(s, c));
  }

  lemma PortsAreNear(s: System, c: nat, plist: set<nat>, used: set<nat>, port: nat)
    requires WellSized(s) && c < |s.ctl|
    ensures AsNear(s, LocalWork(s, c, plist, used)) && AsNear(s, Fault(s, c, port))
  {
    hide AsNear;
    SameIsNear(s, LocalWork(s, c, plist, used));
    SameIsNear(s, Fault(s, c, port));
  }

  lemma DeliveryAdvances(s: System, msg: Message, o: Oracle)
    requires Inv(s) && CanDeliver(s, msg) && InFlight(s.hist, PathOf(s), msg) && !msg.TokenRequest?
    ensures WellSized(s) && Advances(s, Deliver(s, msg, o))
  {
    assert WellSized(s);
    match msg
    case TokenGrant(t) =>
      TokenGrantKeeps(s, t);
      hide Inv;
    case TokenRelease(f) =>
      TokenReleaseReturns(s.(net := s.net - multiset{msg}));
      hide Inv, HandleTokenRelease;
    case BorderAck(f, t) => BorderAckAdvances(s, t, f, o);
    case ModeReleaseAck(f, t) => ModeReleaseAckAdvances(s, t, f, o);
    case DetailResponse(f, t, ok) => DetailResponseAdvances(s, t, f, ok, o);
    case _ => RequestAdvances(s, msg, o);
  }

  /** A continuation of a run from s on. */
  ghost predicate Continues(s: System, rest: seq<System>) {
    var all := [s] + rest;
    forall i :: 0 <= i < |rest| ==> Step(all[i], all[i + 1])
  }

  ghost function Last(s: System, rest: seq<System>): System {
    if rest == [] then s else rest[|rest| - 1]
  }

  /** Main result: from every state of every run in which the token is held, it can come back. */
  lemma TokenComesBack(run: seq<System>, i: nat) returns (rest: seq<System>)
    requires IsRun(run) && i < |run| && run[i].hist.phase != NoToken
    ensures Continues(run[i], rest) && Returned(run[i], Last(run[i], rest))
  {
    hide Init, Step, Continues, Returned;
    RunKeeps(run, i);
    rest := ComesBack(run[i], |run[i].hist.grants|);
    ReturnedSince(run[i], Last(run[i], rest));
  }

  lemma ReturnedSince(s: System, s': System)
    requires s'.hist.phase == NoToken || |s'.hist.grants| > |s.hist.grants|
    ensures Returned(s, s')
  {
  }

  lemma {:induction false} ComesBack(s: System, grants: nat) returns (rest: seq<System>)
    requires Inv(s) && |s.hist.grants| >= grants
    ensures Continues(s, rest)
    ensures Last(s, rest).hist.phase == NoToken || |Last(s, rest).hist.grants| > grants
    decreases Rank(s.hist.phase), Left(s), Waiting(s)
  {
    if s.hist.phase == NoToken || |s.hist.grants| > grants {
      NoDeliveries(s);
      return [];
    }
    hide Inv, Deliver, Step, InFlight, CanDeliver, IsClusterPath, Nearer, Continues, Last, Rank, Left, Waiting;
    var s' := Closer(s);
    if Returned(s, s') {
      rest := [];
      NoDeliveries(s');
    } else {
      NearerIsLess(s, s');
      rest := ComesBack(s', grants);
    }
    OneMore(s, s', rest);
    rest := [s'] + rest;
  }

  lemma NoDeliveries(s: System)
    ensures Continues(s, []) && Last(s, []) == s
  {
  }

  lemma OneMore(s: System, s': System, rest: seq<System>)
    requires Step(s, s') && Continues(s', rest)
    ensures Continues(s, [s'] + rest) && Last(s, [s'] + rest) == Last(s', rest)
  {
    hide Step;
    var all := [s] + ([s'] + rest);
    var tail := [s'] + rest;
    forall i | 0 <= i < |tail| ensures Step(all[i], all[i + 1]) {
      if i > 0 {
        assert Step(tail[i - 1], tail[i - 1 + 1]);
        assert all[i] == tail[i - 1] && all[i + 1] == tail[i];
      }
    }
  }

  lemma NearerIsLess(s: System, s': System)
    requires Nearer(s, s')
    ensures Rank(s'.hist.phase) < Rank(s.hist.phase)
      || (Rank(s'.hist.phase) == Rank(s.hist.phase) && (Left(s') < Left(s) || (Left(s') == Left(s) && Waiting(s') < Waiting(s))))
  {
  }

  /** One step nearer, or the token back. */
  lemma Closer(s: System) returns (s': System)
    requires Inv(s) && s.hist.phase != NoToken
    ensures Inv(s') && Step(s, s') && (Returned(s, s') || Nearer(s, s')) && |s'.hist.grants| >= |s.hist.grants|
  {
    hide Inv, Deliver, Step, InFlight, CanDeliver, Nearer, Returned;
    var o := Oracle([], 0, false, {}, {});
    var msg := Something(s);
    DeliveryAdvances(s, msg, o);
    DeliverKeeps(s, msg, o);
    s' := Deliver(s, msg, o);
    OneStep(s, msg, o);
    GrantsGrow(s, msg, o);
  }

  lemma OneStep(s: System, msg: Message, o: Oracle)
    requires WellSized(s) && CanDeliver(s, msg)
    ensures Step(s, Deliver(s, msg, o))
  {
  }

  lemma GrantsGrow(s: System, msg: Message, o: Oracle)
    requires WellSized(s) && CanDeliver(s, msg)
    ensures |Deliver(s, msg, o).hist.grants| >= |s.hist.grants|
  {
  }
}
