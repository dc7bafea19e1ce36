/**
 * A run of two controllers in which a port turns faulty between the answer that holds it and the commit that writes it.
 */
module ProtocolExample {
  import opened Basics
  import opened Protocol

  ghost function Resting(status: Status): Controller {
    Controller(status, false, 0, true, [], 0, {}, {}, {}, false, false)
  }

  /** The master on a path through both clusters. */
  ghost function OnPath(): Controller {
    Resting(Master).(responses := 1, path := [1, 0], enabled := Pairs(2, 1))
  }

  ghost function Opening(phase: Phase, progress: seq<Progress>): History {
    History(phase, [NotRequested, NotRequested], progress, [false, false], [{}, {}], {}, [{}, {}], [0], [0])
  }

  ghost function AtStart(): System {
    System(1, [Resting(Idle), Resting(Idle)], -1, [], multiset{},
           History(NoToken, [NotRequested, NotRequested], [Asked, Asked], [false, false], [{}, {}], {}, [{}, {}], [], []))
  }

  /** Controller 0 holds the token and collects borders. */
  ghost function AtCollecting(): System {
    System(1, [Resting(Master).(responses := 1), Resting(Idle)], 0, [], multiset{BorderRequest(0, 1)},
           Opening(Collecting(0), [Done, Asked]))
  }

  ghost function AtAcknowledged(): System {
    System(1, [Resting(Master).(responses := 1), Resting(Slave)], 0, [], multiset{BorderAck(1, 0)},
           Opening(Collecting(0), [Done, Answered]))
  }

  /** Controller 0 has routed its own cluster of the path, and asks controller 1. */
  ghost function AtRouting(): System {
    System(1, [OnPath(), Resting(Slave)], 0, [],
           multiset{DetailRequest(0, 1)},
           Opening(Routing(0), [Done, Asked]).(answer := [true, false]))
  }

  /** Controller 1 has said yes and holds port 7. */
  ghost function AtAnswered(): System {
    System(1, [OnPath(), Resting(Slave).(plist := {7})],
           0, [], multiset{DetailResponse(1, 0, true)},
           Opening(Routing(0), [Done, Answered]).(answer := [true, true], held := [{}, {7}]))
  }

  ghost function AtFault(): System {
    System(1, [OnPath(), Resting(Slave).(plist := {7}, used := {7})], 0, [],
           multiset{DetailResponse(1, 0, true)},
           Opening(Routing(0), [Done, Answered]).(answer := [true, true], held := [{}, {7}], faults := [{}, {7}]))
  }

  ghost function AtCommit(): System {
    System(1, [OnPath(), Resting(Slave).(plist := {7}, used := {7})], 0, [],
           multiset{ModeRelease(0, 1, true)},
           Opening(Releasing(0, true), [Done, Asked]).(answer := [true, true], held := [{}, {7}], faults := [{}, {7}],
                                                       committed := {0}))
  }

  lemma OneOther()
    ensures Others(2, 0) == {1}
  {
    assert Below(1) == {0} && Below(2) == {0, 1};
  }

  lemma FirstSteps()
    ensures NewGlobalPath(AtStart(), 0) == AtCollecting()
    ensures Deliver(AtCollecting(), BorderRequest(0, 1), Oracle([], 0, false, {}, {})) == AtAcknowledged()
  {
    OneOther();
    var s, s' := NewGlobalPath(AtStart(), 0), AtCollecting();
    assert (set d | d in Others(2, 0) :: BorderRequest(0, d)) == {BorderRequest(0, 1)};
    assert s.net == s'.net && s.ctl == s'.ctl && s.hist.progress == s'.hist.progress;
    assert s.hist.answer == s'.hist.answer && s.hist.held == s'.hist.held && s.hist.faults == s'.hist.faults;
  }

  lemma RoutingStarts()
    ensures Deliver(AtAcknowledged(), BorderAck(1, 0), Oracle([1, 0], 0, true, {}, {})) == AtRouting()
  {
    hide SendModeRelease, Below, GlobalRouting;
    var o, s := Oracle([1, 0], 0, true, {}, {}), AtAcknowledged();
    var s1 := s.(net := multiset{}, ctl := s.ctl[0 := Resting(Master).(responses := 2)],
                 hist := Opening(Collecting(0), [Done, Done]));
    assert s.net - multiset{BorderAck(1, 0)} == multiset{} && s.hist.progress[1 := Done] == [Done, Done];
    assert Deliver(s, BorderAck(1, 0), o) == GlobalRouting(AllEnabled(s1, 0), 0, o);
    FirstAttempt(s1, o);
  }

  lemma FirstAttempt(s: System, o: Oracle)
    requires o == Oracle([1, 0], 0, true, {}, {})
    requires s == AtAcknowledged().(net := multiset{}, ctl := [Resting(Master).(responses := 2), Resting(Slave)],
                                    hist := Opening(Collecting(0), [Done, Done]))
    ensures GlobalRouting(AllEnabled(s, 0), 0, o) == AtRouting()
  {
    hide SendModeRelease, Below;
    var s1, s2 := GlobalRouting(AllEnabled(s, 0), 0, o), AtRouting();
    assert CanRoute(AllEnabled(s, 0).ctl[0], 2, 0, o);
    assert PathSet([1, 0]) - {0} == {1};
    assert (set d | d in PathSet([1, 0]) - {0} :: DetailRequest(0, d)) == {DetailRequest(0, 1)};
    assert s1.net == s2.net && s1.ctl == s2.ctl && s1.hist.progress == s2.hist.progress;
    assert s1.hist.faults[0] == {};
    assert s1.hist.answer == s2.hist.answer && s1.hist.held == s2.hist.held && s1.hist.faults == s2.hist.faults;
  }

  lemma AnswerAndFault()
    ensures Deliver(AtRouting(), DetailRequest(0, 1), Oracle([], 0, true, {7}, {})) == AtAnswered()
    ensures Fault(AtAnswered(), 1, 7) == AtFault()
  {
    var a := Deliver(AtRouting(), DetailRequest(0, 1), Oracle([], 0, true, {7}, {}));
    assert a.hist.faults[1] == {} && a.hist.faults == AtAnswered().hist.faults;
    var s, s' := Fault(AtAnswered(), 1, 7), AtFault();
    assert s.ctl[1].used == s'.ctl[1].used && s.hist.faults[1] == s'.hist.faults[1];
    assert s.ctl == s'.ctl && s.hist.faults == s'.hist.faults;
  }

  lemma CommitStarts()
    ensures Deliver(AtFault(), DetailResponse(1, 0, true), Oracle([], 0, false, {}, {})) == AtCommit()
  {
    hide GlobalRouting, Below, Others;
    OneOther();
    var s, s' := Deliver(AtFault(), DetailResponse(1, 0, true), Oracle([], 0, false, {}, {})), AtCommit();
    assert PathSet([1, 0]) == {0, 1};
    assert (set d | d in Others(2, 0) :: ModeRelease(0, d, d in PathSet([1, 0]))) == {ModeRelease(0, 1, true)};
    assert s.net == s'.net && s.ctl == s'.ctl && s.hist.progress == s'.hist.progress;
    assert s.hist.answer == s'.hist.answer && s.hist.held == s'.hist.held && s.hist.faults == s'.hist.faults;
  }

  /**
   * Not every commit finds its ports free: a run in which a held port turns faulty after the answer, and is written
   * over.
   */
  lemma FaultMeetsCommit() returns (run: seq<System>)
    ensures IsRun(run) && |run| == 7 && run[6] == AtCommit() && CanDeliver(run[6], ModeRelease(0, 1, true))
    ensures !(run[6].ctl[1].plist !! run[6].ctl[1].used)
  {
    hide Deliver, NewGlobalPath, Fault;
    FirstSteps();
    RoutingStarts();
    AnswerAndFault();
    CommitStarts();
    run := [AtStart(), AtCollecting(), AtAcknowledged(), AtRouting(), AtAnswered(), AtFault(), AtCommit()];
    assert CanStart(run[0], 0) && CanDeliver(run[1], BorderRequest(0, 1)) && CanDeliver(run[2], BorderAck(1, 0));
    assert CanDeliver(run[3], DetailRequest(0, 1)) && CanRun(run[4], 1);
    assert CanDeliver(run[5], DetailResponse(1, 0, true));
    assert 7 in run[6].ctl[1].plist && 7 in run[6].ctl[1].used;
  }
}
