/** Safety over whole runs of the controller protocol. */
module ProtocolSafety {
  import opened Basics
  import opened Protocol
  import opened ProtocolInvariant

  lemma StepKeeps(s: System, s': System)
    requires Inv(s) && Step(s, s')
    ensures Inv(s')
  {
    hide Inv, Deliver, NewGlobalPath, LocalWork, Fault;
    if msg, o :| CanDeliver(s, msg) && s' == Deliver(s, msg, o) {
      DeliverKeeps(s, msg, o);
    } else if c :| CanStart(s, c) && s' == NewGlobalPath(s, c) {
      StartKeeps(s, c);
    } else if c, plist, used :| CanWorkLocally(s, c) && s' == LocalWork(s, c, plist, used) {
      LocalWorkKeeps(s, c, plist, used);
    } else {
      var c, port :| CanRun(s, c) && s' == Fault(s, c, port);
      FaultKeeps(s, c, port);
    }
  }

  lemma {:induction false} RunKeeps(run: seq<System>, i: nat)
    requires IsRun(run) && i < |run|
    ensures Inv(run[i])
  {
    hide Inv, Init, Step;
    if i == 0 {
      InitHolds(run[0]);
    } else {
      RunKeeps(run, i - 1);
      assert Step(run[i - 1], run[i - 1 + 1]);
      StepKeeps(run[i - 1], run[i]);
    }
  }

  /** Main result: in every run at most one controller is the global master. */
  lemma AtMostOneMaster(run: seq<System>, i: nat, c: nat, d: nat)
    requires IsRun(run) && i < |run| && c < |run[i].ctl| && d < |run[i].ctl|
    ensures run[i].ctl[c].status == Master && run[i].ctl[d].status == Master ==> c == d
    ensures run[i].ctl[c].status == Master ==> run[i].token == c
  {
    RunKeeps(run, i);
    hide Init, Step, CountInv, CommitInv, NetInv;
  }

  /**
   * Main result: in every run no error loop is ever entered, since every message finds its receiver in the mode it
   * needs.
   */
  lemma NoErrorLoop(run: seq<System>, i: nat)
    requires IsRun(run) && i < |run|
    ensures forall c :: 0 <= c < |run[i].ctl| ==> !run[i].ctl[c].stuck
    ensures forall c: nat :: c < |run[i].ctl| && run[i].net[TokenGrant(c)] > 0 ==>
      run[i].ctl[c].status == Idle && run[i].ctl[c].requested
    ensures forall m: nat, c: nat :: c < |run[i].ctl| && run[i].net[BorderRequest(m, c)] > 0 ==>
      run[i].ctl[c].status == Idle
    ensures forall m: nat, c: nat :: c < |run[i].ctl| && run[i].net[DetailRequest(m, c)] > 0 ==>
      run[i].ctl[c].status == Slave && m != c
    ensures forall m: nat, c: nat, configure ::
      c < |run[i].ctl| && run[i].net[ModeRelease(m, c, configure)] > 0 ==> run[i].ctl[c].status == Slave
  {
    hide Init, Step, CommitInv, CountInv, IsClusterPath, Deliver, NewGlobalPath;
    RunKeeps(run, i);
    var s := run[i];
    forall c: nat | c < |s.ctl| && s.net[TokenGrant(c)] > 0 ensures s.ctl[c].status == Idle && s.ctl[c].requested {
      assert InFlight(s.hist, PathOf(s), TokenGrant(c));
    }
    forall m: nat, c: nat | c < |s.ctl| && s.net[BorderRequest(m, c)] > 0 ensures s.ctl[c].status == Idle {
      assert InFlight(s.hist, PathOf(s), BorderRequest(m, c));
    }
    forall m: nat, c: nat | c < |s.ctl| && s.net[DetailRequest(m, c)] > 0 ensures s.ctl[c].status == Slave && m != c {
      assert InFlight(s.hist, PathOf(s), DetailRequest(m, c));
    }
    forall m: nat, c: nat, configure | c < |s.ctl| && s.net[ModeRelease(m, c, configure)] > 0
      ensures s.ctl[c].status == Slave
    {
      assert InFlight(s.hist, PathOf(s), ModeRelease(m, c, configure));
    }
  }

  /**
   * Main result: tokens are granted in the order the requests arrived, and the queue has room for every request that
   * can come.
   */
  lemma GrantsFollowArrivals(run: seq<System>, i: nat)
    requires IsRun(run) && i < |run|
    ensures run[i].hist.arrivals == run[i].hist.grants + run[i].queue
    ensures run[i].hist.grants <= run[i].hist.arrivals
    ensures |run[i].queue| <= |run[i].ctl|
    ensures (exists r: nat :: run[i].net[TokenRequest(r)] > 0) ==> |run[i].queue| < |run[i].ctl|
  {
    RunKeeps(run, i);
    var s := run[i];
    hide Init, Step, CountInv, CommitInv, ModeInv;
    PathSetSize(s.queue);
    SubsetSize(PathSet(s.queue), Below(|s.ctl|));
    if r: nat :| s.net[TokenRequest(r)] > 0 {
      assert InFlight(s.hist, PathOf(s), TokenRequest(r));
      SubsetSize(PathSet(s.queue), Below(|s.ctl|) - {r});
    }
  }

  /**
   * Main result: a global path is written everywhere or nowhere. Only after every cluster of the attempt's path has
   * said yes is anything written, and when every controller has handled the release, exactly the clusters of the path
   * have written.
   */
  lemma AllOrNothing(run: seq<System>, i: nat)
    requires IsRun(run) && i < |run|
    ensures WellSized(run[i])
    ensures var s := run[i]; s.hist.phase.Collecting? || s.hist.phase.Routing? ==> s.hist.committed == {}
    ensures var s := run[i]; s.hist.phase.Releasing? ==>
      var m := s.hist.phase.owner;
      && m < |s.ctl|
      && (s.hist.committed != {} ==>
        s.hist.phase.commit && s.hist.committed <= PathSet(s.ctl[m].path)
        && forall d: nat :: d in s.ctl[m].path ==> d < |s.hist.answer| && s.hist.answer[d])
      && ((forall d: nat :: d < |s.ctl| ==> s.hist.progress[d] != Asked) ==>
        s.hist.committed == if s.hist.phase.commit then PathSet(s.ctl[m].path) else {})
  {
    RunKeeps(run, i);
    hide Init, Step, ModeInv, NetInv;
  }

  // ----- who writes ports

  /** Nobody writes ports or commits in the step from s to s'. */
  ghost predicate KeepsPorts(s: System, s': System) {
    && |s'.ctl| == |s.ctl| && s'.hist.committed <= s.hist.committed
    && forall c :: 0 <= c < |s.ctl| ==> s'.ctl[c].used == s.ctl[c].used
  }

  lemma GrantKeepsPorts(s: System, r: nat)
    requires WellSized(s) && r < |s.ctl|
    ensures KeepsPorts(s, SendToken(s, r))
  {
  }

  lemma ReleaseKeepsPorts(s: System)
    requires WellSized(s)
    ensures KeepsPorts(s, HandleTokenRelease(s))
  {
    if s.queue != [] && s.queue[0] < |s.ctl| {
      GrantKeepsPorts(s.(token := s.queue[0], queue := s.queue[1..]), s.queue[0]);
    }
  }

  /** In the step from s to s' controller c configures its part of the path. */
  ghost predicate Commits(s: System, s': System, c: nat) {
    c in s'.hist.committed && c !in s.hist.committed
  }

  /**
   * The ports of controller c after a step: a controller that commits still has the route it answered for, of which
   * exactly those ports are occupied that have been reported faulty since it described its borders; where there are
   * none it adds exactly the ports of that route. No other controller writes.
   */
  ghost predicate Writes(s: System, s': System, c: nat)
    requires WellSized(s) && c < |s.ctl|
  {
    && |s'.ctl| == |s.ctl|
    && if Commits(s, s', c) then
         && s.ctl[c].plist == s.hist.held[c] && s.hist.held[c] * s.ctl[c].used == s.hist.held[c] * s.hist.faults[c]
         && s.ctl[c].used <= s'.ctl[c].used
         && (s.hist.held[c] !! s.hist.faults[c] ==> s'.ctl[c].used == s.ctl[c].used + s.hist.held[c])
       else s'.ctl[c].used == s.ctl[c].used
  }

  lemma RoutingKeepsPorts(s: System, m: nat, o: Oracle)
    requires WellSized(s) && m < |s.ctl|
    ensures KeepsPorts(s, GlobalRouting(s, m, o))
  {
  }

  lemma TokenStepsKeepPorts(s: System, m: nat)
    requires WellSized(s) && m < |s.ctl|
    ensures KeepsPorts(s, SendTokenRelease(s, m)) && KeepsPorts(s, HandleTokenRequest(s, m))
  {
    if s.ctl[m].status == Master && m == 0 {
      ReleaseKeepsPorts(s.(ctl := s.ctl[m := s.ctl[m].(status := Idle)]));
    }
    GrantKeepsPorts(s.(hist := s.hist.(arrivals := s.hist.arrivals + [m])), m);
  }

  lemma SlaveWrites(s: System, m: nat, c: nat, configure: bool, written: set<nat>)
    requires Inv(s) && s.net[ModeRelease(m, c, configure)] > 0 && m < |s.ctl| && c < |s.ctl|
    ensures forall d: nat :: d < |s.ctl| ==>
      Writes(s, HandleModeRelease(s.(net := s.net - multiset{ModeRelease(m, c, configure)}), m, c, configure, written), d)
  {
    ModeReleaseFinds(s, m, c, configure);
    FreeIffNoFault(s.hist.held[c], s.ctl[c].used, s.hist.faults[c]);
    hide TokenInv, CountInv, ModeInv, NetInv;
  }

  lemma MasterCommits(s: System, m: nat, written: set<nat>)
    requires WellSized(s) && m < |s.ctl| && m in s.ctl[m].path && Holds(s, m) && s.hist.committed == {}
    ensures forall d: nat :: d < |s.ctl| ==> Writes(s, SendModeRelease(s, m, true, written), d)
  {
    FreeIffNoFault(s.hist.held[m], s.ctl[m].used, s.hist.faults[m]);
    var s' := SendModeRelease(s, m, true, written);
    assert s'.hist.committed == {m};
  }

  /** Counting an answer changes nothing that writing depends on. */
  lemma CountingWritesNothing(s: System, m: nat, c: nat, ok: bool, s': System, d: nat)
    requires WellSized(s) && m < |s.ctl| && c < |s.ctl| && d < |s.ctl|
    ensures Writes(CountedAnswer(s, m, c, ok), s', d) <==> Writes(s, s', d)
  {
  }

  lemma KeepingIsWriting(s: System, s': System, d: nat)
    requires WellSized(s) && d < |s.ctl| && KeepsPorts(s, s')
    ensures Writes(s, s', d)
  {
  }

  lemma TriesAgain(s: System, m: nat, o: Oracle)
    requires WellSized(s) && m < |s.ctl|
    ensures KeepsPorts(s, GlobalRouting(s.(ctl := s.ctl[m := s.ctl[m].(allOk := true)]), m, o))
  {
    hide GlobalRouting;
    RoutingKeepsPorts(s.(ctl := s.ctl[m := s.ctl[m].(allOk := true)]), m, o);
  }

  /** What the master does with a counted answer: nothing yet, the commit, or the next attempt. */
  lemma AnswerWrites(s: System, m: nat, c: nat, ok: bool, o: Oracle)
    requires WellSized(s) && m < |s.ctl| && c < |s.ctl|
    ensures HandleDetailResponse(s.(net := s.net - multiset{DetailResponse(c, m, ok)}), m, c, ok, o) ==
      var s' := CountedAnswer(s, m, c, ok);
      if s'.ctl[m].responses != |s'.ctl[m].path| then s'
      else if s'.ctl[m].allOk then SendModeRelease(s', m, true, o.written)
      else GlobalRouting(s'.(ctl := s'.ctl[m := s'.ctl[m].(allOk := true)]), m, o)
  {
    hide GlobalRouting, SendModeRelease;
  }

  lemma MasterWrites(s: System, m: nat, c: nat, ok: bool, o: Oracle, d: nat)
    requires Inv(s) && s.net[DetailResponse(c, m, ok)] > 0 && m < |s.ctl| && c < |s.ctl| && d < |s.ctl|
    ensures WellSized(s)
    ensures Writes(s, HandleDetailResponse(s.(net := s.net - multiset{DetailResponse(c, m, ok)}), m, c, ok, o), d)
  {
    hide Inv, Counting, Writes, KeepsPorts, GlobalRouting, SendModeRelease, HandleDetailResponse, IsClusterPath, Holds;
    DetailResponseCounts(s, m, c, ok);
    AnswerWrites(s, m, c, ok, o);
    var s' := CountedAnswer(s, m, c, ok);
    if s'.ctl[m].responses != |s'.ctl[m].path| {
      CountingKeepsPorts(s, m, c, ok);
      KeepingIsWriting(s, s', d);
    } else if s'.ctl[m].allOk {
      AllAnswered(s, m, c, ok);
      OwnIsOnPath(s.ctl[m].path, |s.ctl|, m);
      MasterCommits(s', m, o.written);
      CountingWritesNothing(s, m, c, ok, SendModeRelease(s', m, true, o.written), d);
    } else {
      TriesAgain(s', m, o);
      var s1 := GlobalRouting(s'.(ctl := s'.ctl[m := s'.ctl[m].(allOk := true)]), m, o);
      KeepingIsWriting(s', s1, d);
      CountingWritesNothing(s, m, c, ok, s1, d);
    }
  }

  lemma CountingKeepsPorts(s: System, m: nat, c: nat, ok: bool)
    requires WellSized(s) && m < |s.ctl| && c < |s.ctl|
    ensures KeepsPorts(s, CountedAnswer(s, m, c, ok))
  {
  }

  lemma RequestsKeepPorts(s: System, m: nat, c: nat, o: Oracle)
    requires WellSized(s) && m < |s.ctl| && c < |s.ctl|
    ensures KeepsPorts(s, HandleTokenGrant(s, c)) && KeepsPorts(s, HandleBorderRequest(s, m, c))
    ensures KeepsPorts(s, HandleDetailRequest(s, m, c, o))
  {
  }

  lemma BorderAckKeepsPorts(s: System, m: nat, c: nat, o: Oracle)
    requires WellSized(s) && m < |s.ctl| && c < |s.ctl|
    ensures KeepsPorts(s, HandleBorderAck(s, m, c, o))
  {
    hide GlobalRouting;
    RoutingKeepsPorts(AllEnabled(s.(ctl := s.ctl[m := s.ctl[m].(responses := s.ctl[m].responses + 1)],
                                    hist := s.hist.(progress := s.hist.progress[c := Done])), m), m, o);
  }

  lemma ModeReleaseAckKeepsPorts(s: System, m: nat, c: nat)
    requires WellSized(s) && m < |s.ctl| && c < |s.ctl|
    ensures KeepsPorts(s, HandleModeReleaseAck(s, m, c))
  {
    hide SendTokenRelease, HandleTokenRequest;
    TokenStepsKeepPorts(s.(ctl := s.ctl[m := s.ctl[m].(responses := s.ctl[m].responses + 1)],
                           hist := s.hist.(progress := s.hist.progress[c := Done])), m);
  }

  /** Every delivery but a detailed routing response or a mode release leaves all ports alone. */
  lemma DeliveryKeepsPorts(s: System, msg: Message, o: Oracle)
    requires WellSized(s) && ForController(msg, |s.ctl|) && !msg.DetailResponse? && !msg.ModeRelease?
    ensures KeepsPorts(s, Deliver(s, msg, o))
  {
    var s1 := s.(net := s.net - multiset{msg});
    hide HandleTokenRequest, HandleTokenGrant, HandleTokenRelease, HandleBorderRequest, HandleBorderAck,
      HandleDetailRequest,
      HandleModeReleaseAck;
    match msg
    case TokenRequest(f) => TokenStepsKeepPorts(s1, f);
    case TokenGrant(t) => RequestsKeepPorts(s1, t, t, o);
    case TokenRelease(f) => ReleaseKeepsPorts(s1);
    case BorderRequest(f, t) => RequestsKeepPorts(s1, f, t, o);
    case BorderAck(f, t) => BorderAckKeepsPorts(s1, t, f, o);
    case DetailRequest(f, t) => RequestsKeepPorts(s1, f, t, o);
    case ModeReleaseAck(f, t) => ModeReleaseAckKeepsPorts(s1, t, f);
  }

  lemma DeliveryWrites(s: System, msg: Message, o: Oracle, d: nat)
    requires Inv(s) && CanDeliver(s, msg) && d < |s.ctl|
    ensures WellSized(s) && Writes(s, Deliver(s, msg, o), d)
  {
    assert WellSized(s);
    hide Inv, HandleDetailResponse, HandleModeRelease, Writes, KeepsPorts;
    match msg
    case DetailResponse(f, t, ok) => MasterWrites(s, t, f, ok, o, d);
    case ModeRelease(f, t, configure) => SlaveWrites(s, f, t, configure, o.written);
    case _ =>
      hide Deliver;
      DeliveryKeepsPorts(s, msg, o);
      KeepingIsWriting(s, Deliver(s, msg, o), d);
  }

  /**
   * Main result: in every run, a message delivery writes ports only where it commits, with the route still in hand that
   * the controller answered for in the attempt. The ports of that route are all free exactly when none has been
   * reported faulty since the controller described its borders, and then the commit writes exactly that route.
   */
  lemma CommitsOnlyFreePorts(run: seq<System>, i: nat, msg: Message, o: Oracle, c: nat)
    requires IsRun(run) && i < |run| && CanDeliver(run[i], msg) && c < |run[i].ctl|
    ensures WellSized(run[i]) && Writes(run[i], Deliver(run[i], msg, o), c)
    ensures var s := run[i];
      Commits(s, Deliver(s, msg, o), c) ==> (s.hist.held[c] !! s.ctl[c].used <==> s.hist.held[c] !! s.hist.faults[c])
  {
    hide Init, Step, CanDeliver, Deliver, TokenInv, CountInv, CommitInv, ModeInv, NetInv;
    RunKeeps(run, i);
    DeliveryWrites(run[i], msg, o, c);
    var s := run[i];
    FreeIffNoFault(s.hist.held[c], s.ctl[c].used, s.hist.faults[c]);
  }

  /** A configuring release, when it is handled, commits its receiver. */
  lemma ReleaseCommits(run: seq<System>, i: nat, m: nat, c: nat, o: Oracle)
    requires IsRun(run) && i < |run| && CanDeliver(run[i], ModeRelease(m, c, true))
    ensures WellSized(run[i]) && Commits(run[i], Deliver(run[i], ModeRelease(m, c, true), o), c)
  {
    RunKeeps(run, i);
    var s := run[i];
    hide Init, Step, TokenInv, CountInv, ModeInv;
    assert InFlight(s.hist, PathOf(s), ModeRelease(m, c, true));
  }

  /**
   * Main result: from its yes until it commits, every cluster of the current attempt's path still holds the route it
   * answered for, whatever local requests, other messages and faults come between.
   */
  lemma RoutesAreHeld(run: seq<System>, i: nat, c: nat)
    requires IsRun(run) && i < |run| && c < |run[i].ctl|
    ensures WellSized(run[i])
    ensures var s := run[i]; s.hist.phase.Routing? ==>
      var m := s.hist.phase.owner;
      && m < |s.ctl|
      && (c in s.ctl[m].path && s.hist.progress[c] != Asked && s.hist.answer[c] ==> s.ctl[c].plist == s.hist.held[c])
      && (s.hist.progress[c] == Asked && c in s.ctl[m].path ==> !s.hist.answer[c])
    ensures var s := run[i]; s.hist.phase.Releasing? && s.hist.phase.commit ==>
      var m := s.hist.phase.owner;
      && m < |s.ctl|
      && (c in s.ctl[m].path && s.hist.progress[c] == Asked ==> s.hist.answer[c] && s.ctl[c].plist == s.hist.held[c])
  {
    RunKeeps(run, i);
    hide Init, Step, TokenInv, CountInv, ModeInv, NetInv;
  }

  lemma FreeIffNoFault(plist: set<nat>, used: set<nat>, faults: set<nat>)
    ensures plist * used == plist * faults ==> (plist !! used <==> plist !! faults)
  {
    assert forall x :: x in plist && x in used <==> x in plist * used;
    assert forall x :: x in plist && x in faults <==> x in plist * faults;
  }
}
