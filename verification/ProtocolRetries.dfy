/** What a no costs the master: the pairs of clusters that never say no stay enabled from attempt to attempt. */
module ProtocolRetries {
  import opened Basics
  import opened Protocol
  import opened ProtocolInvariant
  import opened ProtocolSafety

  /** A no costs the pair of its own cluster, and that of the target's cluster where the master itself says it. */
  lemma AnswerCosts(enabled: set<(nat, nat)>, path: seq<nat>, subnet: nat, m: nat, c: nat, ok: bool, d: nat, k: nat)
    requires path != []
    ensures (d, k) in StillEnabled(enabled, path, subnet, m, c, ok) <==>
      (d, k) in enabled && (ok || k != subnet || (d != c && !(d == path[0] && c == m)))
  {
  }

  /** Cluster c of the path has said no in the current attempt of master m. */
  ghost predicate SaidNo(s: System, m: nat, c: nat) {
    && m < |s.ctl| && c in s.ctl[m].path && c < |s.hist.progress| == |s.hist.answer|
    && s.hist.progress[c] != Asked && !s.hist.answer[c]
  }

  /** The current attempt costs the pair of cluster d and subnet k. */
  ghost predicate Costs(s: System, m: nat, d: nat, k: nat) {
    && m < |s.ctl| && s.ctl[m].path != [] && k == s.ctl[m].subnet
    && (SaidNo(s, m, d) || (d == s.ctl[m].path[0] && SaidNo(s, m, m)))
  }

  /** Master m has the pair of cluster d and subnet k enabled. */
  ghost predicate Has(s: System, m: nat, d: nat, k: nat) {
    m < |s.ctl| && (d, k) in s.ctl[m].enabled
  }

  ghost predicate StillHas(s: System, s': System, m: nat, d: nat, k: nat) {
    Has(s', m, d, k) || Costs(s, m, d, k) || Costs(s', m, d, k)
  }

  /** A new attempt costs what the master's own cluster says no to. */
  lemma AttemptCosts(s: System, m: nat, o: Oracle, d: nat, k: nat)
    requires WellSized(s) && m < |s.ctl| && Has(s, m, d, k) && CanRoute(s.ctl[m], |s.ctl|, m, o)
    ensures var s' := GlobalRouting(s, m, o); Has(s', m, d, k) || Costs(s', m, d, k)
  {
    hide FreshPorts, PathEnabled, StillEnabled;
    var s' := GlobalRouting(s, m, o);
    var ok := o.found && FreshPorts(s, m, o);
    AnswerCosts(s.ctl[m].enabled, o.path, o.subnet, m, m, ok, d, k);
    OwnIsOnPath(o.path, |s.ctl|, m);
  }

  lemma NoMoreRoutes(s: System, m: nat, o: Oracle)
    requires WellSized(s) && m < |s.ctl| && GlobalRouting(s, m, o).hist.phase.Routing?
    ensures CanRoute(s.ctl[m], |s.ctl|, m, o)
  {
  }

  /** An answer counted costs what its cluster says no to. */
  lemma CountingCosts(s: System, m: nat, c: nat, ok: bool, d: nat, k: nat)
    requires Inv(s) && s.net[DetailResponse(c, m, ok)] > 0 && m < |s.ctl| && c < |s.ctl| && Has(s, m, d, k)
    ensures s.hist.phase == Routing(m) && WellSized(s)
    ensures Has(CountedAnswer(s, m, c, ok), m, d, k) || Costs(s, m, d, k)
  {
    hide Inv, Counting, IsClusterPath, StillEnabled, InFlight;
    DetailResponseCounts(s, m, c, ok);
    AnswerIsGiven(s, m, c, ok);
    AnswerCosts(s.ctl[m].enabled, s.ctl[m].path, s.ctl[m].subnet, m, c, ok, d, k);
  }

  lemma AnswerIsGiven(s: System, m: nat, c: nat, ok: bool)
    requires WellSized(s) && Counting(s, m, c, DetailResponse(c, m, ok))
    ensures s.hist.progress[c] == Answered && |s.hist.progress| == |s.hist.answer|
  {
    hide Inv, InFlight;
  }

  lemma ResponseCosts(s: System, m: nat, c: nat, ok: bool, o: Oracle, d: nat, k: nat)
    requires Inv(s) && s.net[DetailResponse(c, m, ok)] > 0 && m < |s.ctl| && c < |s.ctl| && Has(s, m, d, k)
    requires WellSized(s) && Deliver(s, DetailResponse(c, m, ok), o).hist.phase == Routing(m)
    ensures StillHas(s, Deliver(s, DetailResponse(c, m, ok), o), m, d, k)
  {
    hide Inv, Costs, HandleDetailResponse, SendModeRelease, GlobalRouting;
    CountingCosts(s, m, c, ok, d, k);
    AnswerWrites(s, m, c, ok, o);
    var s1 := CountedAnswer(s, m, c, ok);
    if s1.ctl[m].responses == |s1.ctl[m].path| && !s1.ctl[m].allOk && Has(s1, m, d, k) {
      var s2 := s1.(ctl := s1.ctl[m := s1.ctl[m].(allOk := true)]);
      NoMoreRoutes(s2, m, o);
      AttemptCosts(s2, m, o, d, k);
    } else if s1.ctl[m].responses == |s1.ctl[m].path| && s1.ctl[m].allOk {
      CommitIsNoAttempt(s1, m, o.written);
    }
  }

  lemma CommitIsNoAttempt(s: System, m: nat, written: set<nat>)
    requires WellSized(s) && m < |s.ctl|
    ensures SendModeRelease(s, m, true, written).hist.phase != Routing(m)
  {
  }

  /** Whatever else is delivered while master m tries leaves its pairs alone. */
  lemma OtherDeliveriesKeep(s: System, msg: Message, o: Oracle, m: nat, d: nat, k: nat)
    requires Inv(s) && CanDeliver(s, msg) && InFlight(s.hist, PathOf(s), msg) && s.hist.phase == Routing(m)
    requires WellSized(s) && !msg.DetailResponse? && Has(s, m, d, k)
    ensures Has(Deliver(s, msg, o), m, d, k)
  {
    assert s.token != -1;
    hide Inv, SendToken;
  }

  /** Nobody is idle while a master tries. */
  lemma NoneIsIdle(s: System, m: nat)
    requires Inv(s) && s.hist.phase == Routing(m)
    ensures forall c :: !CanStart(s, c) && !CanWorkLocally(s, c)
  {
  }

  lemma FaultKeepsPairs(s: System, c: nat, port: nat, m: nat, d: nat, k: nat)
    requires WellSized(s) && c < |s.ctl| && Has(s, m, d, k)
    ensures Has(Fault(s, c, port), m, d, k)
  {
  }

  /** In one step of a run an enabled pair is lost only to a no that costs it. */
  lemma LostOnlyByNo(s: System, s': System, m: nat, d: nat, k: nat)
    requires Inv(s) && Step(s, s') && s.hist.phase == s'.hist.phase == Routing(m) && Has(s, m, d, k)
    ensures StillHas(s, s', m, d, k)
  {
    hide Inv, Deliver, NewGlobalPath, LocalWork, Fault, Costs, Has, InFlight;
    NoneIsIdle(s, m);
    if msg, o :| CanDeliver(s, msg) && s' == Deliver(s, msg, o) {
      IsInFlight(s, msg);
      if msg.DetailResponse? {
        IsToMaster(s, msg, m);
        ResponseCosts(s, m, msg.from, msg.ok, o, d, k);
      } else {
        OtherDeliveriesKeep(s, msg, o, m, d, k);
      }
    } else {
      var c, port :| CanRun(s, c) && s' == Fault(s, c, port);
      FaultKeepsPairs(s, c, port, m, d, k);
    }
  }

  lemma IsToMaster(s: System, msg: Message, m: nat)
    requires msg.DetailResponse? && InFlight(s.hist, PathOf(s), msg) && s.hist.phase == Routing(m)
    ensures msg.to == m
  {
  }

  lemma RunStep(run: seq<System>, i: nat)
    requires IsRun(run) && 0 < i < |run|
    ensures Step(run[i - 1], run[i])
  {
    hide Step;
    assert Step(run[i - 1], run[i - 1 + 1]);
  }

  /** The attempts of one master, from moment i to moment j of a run. */
  ghost predicate Tries(run: seq<System>, i: nat, j: nat, m: nat) {
    i <= j < |run| && forall l :: i <= l <= j ==> run[l].hist.phase == Routing(m)
  }

  /**
   * Main result: in every run a pair that is enabled stays so through all further attempts, as long as its own cluster
   * does not say no to the subnet and, where the target lies in it, the master's cluster does not either.
   */
  lemma {:induction false} PairStaysEnabled(run: seq<System>, i: nat, j: nat, m: nat, d: nat, k: nat)
    requires IsRun(run) && Tries(run, i, j, m) && Has(run[i], m, d, k)
    requires forall l :: i <= l <= j ==> !Costs(run[l], m, d, k)
    ensures Has(run[j], m, d, k)
  {
    hide Inv, IsRun, Step, Has, Costs;
    if i < j {
      PairStaysEnabled(run, i, j - 1, m, d, k);
      RunKeeps(run, j - 1);
      RunStep(run, j);
      LostOnlyByNo(run[j - 1], run[j], m, d, k);
    }
  }

  /**
   * Main result: a path that a search could have taken is there to be taken in every later attempt of the master, as
   * long as none of its clusters says no to its subnet.
   */
  lemma SteadyPathStays(run: seq<System>, i: nat, j: nat, m: nat, o: Oracle)
    requires IsRun(run) && Tries(run, i, j, m) && m < |run[i].ctl|
    requires CanRoute(run[i].ctl[m], |run[i].ctl|, m, o)
    requires forall l, c :: i <= l <= j && c in o.path ==> !(SaidNo(run[l], m, c) && run[l].ctl[m].subnet == o.subnet)
    ensures m < |run[j].ctl| && PathEnabled(run[j].ctl[m].enabled, o.path, o.subnet)
  {
    hide SaidNo;
    var path := o.path;
    OwnIsOnPath(path, |run[i].ctl|, m);
    forall x | 0 <= x < |path| - 1 ensures Has(run[j], m, path[x], o.subnet) {
      forall l | i <= l <= j ensures !Costs(run[l], m, path[x], o.subnet) {
        assert path[x] in o.path && m in o.path;
      }
      PairStaysEnabled(run, i, j, m, path[x], o.subnet);
    }
    assert path[0] in o.path && Has(run[j], m, path[0], o.subnet);
  }

  /** The first attempt starts with all pairs, but for what the master's own cluster says no to. */
  lemma AllAreTried(run: seq<System>, i: nat, m: nat, d: nat, k: nat)
    requires IsRun(run) && 0 < i < |run| && run[i - 1].hist.phase == Collecting(m) && run[i].hist.phase == Routing(m)
    requires d < |run[i - 1].ctl| && k < run[i - 1].nets
    ensures Has(run[i], m, d, k) || Costs(run[i], m, d, k)
  {
    hide Inv, Init, Deliver, NewGlobalPath, Costs, Has, InFlight, CanRoute;
    RunKeeps(run, i - 1);
    var s, s' := run[i - 1], run[i];
    assert Step(s, run[i - 1 + 1]);
    if msg, o :| CanDeliver(s, msg) && s' == Deliver(s, msg, o) {
      IsInFlight(s, msg);
      FirstAttempt(s, msg, o, m, d, k);
    } else if c :| CanStart(s, c) && s' == NewGlobalPath(s, c) {
      StartIsNoAttempt(s, c);
    }
  }

  lemma FirstAttempt(s: System, msg: Message, o: Oracle, m: nat, d: nat, k: nat)
    requires Inv(s) && CanDeliver(s, msg) && InFlight(s.hist, PathOf(s), msg) && s.hist.phase == Collecting(m)
    requires WellSized(s) && Deliver(s, msg, o).hist.phase == Routing(m) && d < |s.ctl| && k < s.nets
    ensures var s' := Deliver(s, msg, o); Has(s', m, d, k) || Costs(s', m, d, k)
  {
    if !msg.BorderAck? {
      StillCollects(s, msg, o);
      return;
    }
    hide Inv, InFlight, GlobalRouting, Costs, CanRoute;
    LastAckStarts(s, msg, m, o);
    var s1 := AllEnabled(Counted(s, m, msg.from, msg), m);
    NoMoreRoutes(s1, m, o);
    AttemptCosts(s1, m, o, d, k);
  }

  lemma LastAckStarts(s: System, msg: Message, m: nat, o: Oracle)
    requires WellSized(s) && CanDeliver(s, msg) && InFlight(s.hist, PathOf(s), msg) && s.hist.phase == Collecting(m)
    requires msg.BorderAck? && Deliver(s, msg, o).hist.phase == Routing(m)
    ensures m < |s.ctl| && msg.from < |s.ctl|
    ensures Deliver(s, msg, o) == GlobalRouting(AllEnabled(Counted(s, m, msg.from, msg), m), m, o)
  {
    hide GlobalRouting;
  }

  lemma StillCollects(s: System, msg: Message, o: Oracle)
    requires Inv(s) && CanDeliver(s, msg) && InFlight(s.hist, PathOf(s), msg) && s.hist.phase.Collecting?
    requires WellSized(s) && !msg.BorderAck?
    ensures Deliver(s, msg, o).hist.phase == s.hist.phase
  {
    assert s.token != -1;
    hide Inv, SendToken;
  }

  lemma StartIsNoAttempt(s: System, c: nat)
    requires Inv(s) && CanStart(s, c) && s.hist.phase.Collecting?
    ensures WellSized(s) && NewGlobalPath(s, c).hist.phase == s.hist.phase
  {
    assert s.token != -1;
    hide Inv, SendToken;
  }

  // ----- what the answers of an attempt decide

  /** All clusters of the path but c have been counted. */
  ghost predicate OthersCounted(s: System, m: nat, c: nat)
    requires WellSized(s) && m < |s.ctl|
  {
    forall d: nat :: d < |s.ctl| && d in s.ctl[m].path && d != c ==> s.hist.progress[d] == Done
  }

  ghost predicate AllSaidYes(s: System, m: nat)
    requires WellSized(s) && m < |s.ctl|
  {
    forall d: nat :: d < |s.ctl| && d in s.ctl[m].path ==> s.hist.answer[d]
  }

  lemma LastIsCounted(s: System, m: nat, c: nat, ok: bool)
    requires WellSized(s) && m < |s.ctl| && c < |s.ctl| && Counting(s, m, c, DetailResponse(c, m, ok))
    requires s.hist.phase == Routing(m) && IsClusterPath(s.ctl[m].path, |s.ctl|, m)
    ensures var s1 := CountedAnswer(s, m, c, ok); var n := |s.ctl[m].path|;
      && (s1.ctl[m].responses == n <==> OthersCounted(s, m, c))
      && (s1.ctl[m].responses == n ==> (s1.ctl[m].allOk <==> AllSaidYes(s, m)))
  {
    hide Inv, Counting, TokenInv, CommitInv, NetInv, Counts;
    AnswerCounted(s, m, c, ok);
    var s1, path := CountedAnswer(s, m, c, ok), s.ctl[m].path;
    if OthersCounted(s, m, c) {
      forall d | d in PathSet(path) ensures d in Finished(s1.hist) { }
      SubsetSize(PathSet(path), Finished(s1.hist));
    }
    if s1.ctl[m].responses == |path| {
      SubsetSize(Finished(s1.hist), PathSet(path));
      assert Finished(s1.hist) == PathSet(path);
      forall d: nat | d < |s.ctl| && d in path && d != c ensures s.hist.progress[d] == Done {
        assert d in Finished(s1.hist);
      }
    }
  }

  /**
   * Main result: the answers of an attempt decide it. Until the last one is in the master goes on waiting; if all
   * clusters of the path said yes the path is configured; and otherwise the master tries again, unless its search finds
   * no path over the pairs still enabled.
   */
  lemma AnswersDecide(run: seq<System>, i: nat, m: nat, c: nat, ok: bool, o: Oracle)
    requires IsRun(run) && i < |run| && CanDeliver(run[i], DetailResponse(c, m, ok))
    ensures WellSized(run[i]) && run[i].hist.phase == Routing(m)
    ensures var (s, s') := (run[i], Deliver(run[i], DetailResponse(c, m, ok), o));
      s'.hist.phase ==
      if !OthersCounted(s, m, c) then Routing(m)
      else if AllSaidYes(s, m) then Releasing(m, true)
      else if CanRoute(CountedAnswer(s, m, c, ok).ctl[m], |s.ctl|, m, o) then Routing(m)
      else Releasing(m, false)
  {
    hide Inv, IsRun, Counting, GlobalRouting, SendModeRelease, HandleDetailResponse, OthersCounted, AllSaidYes,
      CanRoute;
    RunKeeps(run, i);
    var s := run[i];
    DetailResponseCounts(s, m, c, ok);
    LastIsCounted(s, m, c, ok);
    AnswerWrites(s, m, c, ok, o);
    var s1 := CountedAnswer(s, m, c, ok);
    CommitStarts(s1, m, o.written);
    NextAttemptStarts(s1.(ctl := s1.ctl[m := s1.ctl[m].(allOk := true)]), m, o);
    SameRoutes(s1.ctl[m], s1.ctl[m].(allOk := true), |s.ctl|, m, o);
  }

  lemma CommitStarts(s: System, m: nat, written: set<nat>)
    requires WellSized(s) && m < |s.ctl|
    ensures SendModeRelease(s, m, true, written).hist.phase == Releasing(m, true)
  {
  }

  lemma NextAttemptStarts(s: System, m: nat, o: Oracle)
    requires WellSized(s) && m < |s.ctl|
    ensures GlobalRouting(s, m, o).hist.phase ==
      if CanRoute(s.ctl[m], |s.ctl|, m, o) then Routing(m) else Releasing(m, false)
  {
    hide CanRoute;
  }

  lemma SameRoutes(ctl: Controller, ctl': Controller, n: nat, m: nat, o: Oracle)
    requires ctl'.enabled == ctl.enabled
    ensures CanRoute(ctl', n, m, o) == CanRoute(ctl, n, m, o)
  {
  }

  /** The clusters of a path that all said yes are told to configure it, and all others to configure nothing. */
  lemma ReleasesFollow(s: System, m: nat, success: bool, written: set<nat>)
    requires WellSized(s) && m < |s.ctl| && (forall msg: Message :: msg.ModeRelease? ==> s.net[msg] == 0)
    ensures var net := SendModeRelease(s, m, success, written).net;
      forall d: nat, configure :: net[ModeRelease(m, d, configure)] ==
        if d < |s.ctl| && d != m && configure == (success && d in s.ctl[m].path) then 1 else 0
  {
    hide Retrace;
    var on := if success then PathSet(s.ctl[m].path) else {};
    var sent := set d | d in Others(|s.ctl|, m) :: ModeRelease(m, d, d in on);
    forall d: nat, configure
      ensures ModeRelease(m, d, configure) in sent <==>
        d < |s.ctl| && d != m && configure == (success && d in s.ctl[m].path)
    {
      assert d in on <==> success && d in s.ctl[m].path;
      assert d in Others(|s.ctl|, m) <==> d < |s.ctl| && d != m;
    }
  }
}
