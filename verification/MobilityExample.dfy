/**
 * A run in which a processor's location table, with a slot for every local task and task of its application, has no
 * room left.
 */
module MobilityExample {
  import opened Basics
  import opened RequestTable
  import opened Processor
  import opened Whereabouts
  import opened Messages
  import opened Mobility
  import M = Migration

  /** Two applications of one task each on three processors, each of which has room for one task. */
  function At(host: seq<nat>, past: seq<seq<nat>>, entry: seq<map<nat, nat>>, leaving: map<nat, nat>,
              arriving: set<nat>): Moment
  {
    Moment(Config([0, 1], 3, 0, 1, 1, 1, host, past, entry, leaving, arriving), Quiet(), {})
  }

  function Quiet(): System {
    var idle := Kernel(multiset{}, map[], false);
    System([idle, idle, idle], multiset{}, multiset{}, [multiset{}, multiset{}], map[], map[], [Nowhere, Nowhere])
  }

  function Released(): Moment {
    At([0, 1], [[], []], [map[0 := 0], map[1 := 0]], map[], {})
  }

  function FirstOrdered(): Moment {
    At([0, 1], [[], []], [map[0 := 0], map[1 := 0]], map[0 := 2], {})
  }

  function FirstLeft(): Moment {
    At([2, 1], [[0], []], [map[0 := 1], map[1 := 0]], map[], {0})
  }

  function FirstLearned(): Moment {
    At([2, 1], [[0], []], [map[0 := 1, 2 := 1], map[1 := 0]], map[], {0})
  }

  function FirstArrived(): Moment {
    At([2, 1], [[0], []], [map[0 := 1, 2 := 1], map[1 := 0]], map[], {})
  }

  function SecondOrdered(): Moment {
    At([2, 1], [[0], []], [map[0 := 1, 2 := 1], map[1 := 0]], map[1 := 0], {})
  }

  function SecondLeft(): Moment {
    At([2, 0], [[0], [1]], [map[0 := 1, 2 := 1], map[1 := 1]], map[], {1})
  }

  lemma AtMostOne(s: set<nat>, x: nat)
    requires forall t :: t in s ==> t == x
    ensures |s| <= 1
  {
    SubsetSize(s, {x});
  }

  lemma SameConfig(a: Config, b: Config)
    requires a == b.(host := a.host, past := a.past, entry := a.entry, leaving := a.leaving, arriving := a.arriving)
    requires a.host == b.host && a.past == b.past && a.entry == b.entry && a.leaving == b.leaving
    requires a.arriving == b.arriving
    ensures a == b
  {
  }

  lemma ReleasedIsInit()
    ensures Init(Released())
  {
    var cfg := Released().cfg;
    forall i: nat ensures |TasksAt(cfg, i)| <= 1 && |TasksOf(cfg, i)| <= 1 && |LocationsAt(cfg, i)| <= 1 {
      AtMostOne(TasksAt(cfg, i), i);
      AtMostOne(TasksOf(cfg, i), i);
      AtMostOne(LocationsAt(cfg, i), i);
    }
  }

  lemma FirstMoves()
    ensures OrderStep(Released(), FirstOrdered(), 0, 2)
    ensures LeaveStep(FirstOrdered(), FirstLeft(), 0, [], multiset{})
  {
    AtMostOne(TasksAt(FirstOrdered().cfg, 2), 0);
    var m, m' := FirstOrdered(), FirstLeft();
    assert m'.s.place == Relocated(m.cfg, m.s, 0, InTable(0), Carried);
    assert m'.cfg.entry[0] == Moved(WorldOf(m.cfg, 0), 2).entry;
    assert WorldOf(m.cfg, 0).hosts == [0] && m'.cfg.past == Departed(m.cfg, 0).past;
    SameConfig(m'.cfg, Departed(m.cfg, 0));
  }

  lemma FirstSettles()
    ensures LearnStep(FirstLeft(), FirstLearned(), 0, 2, 1)
    ensures ArriveStep(FirstLearned(), FirstArrived(), 0, [], multiset{})
  {
    assert LocationsAt(FirstLeft().cfg, 2) == {};
    var m, m' := FirstLearned(), FirstArrived();
    assert m'.s.place == Relocated(m.cfg, m.s, 0, Carried, InTable(2));
  }

  lemma SecondMoves()
    ensures OrderStep(FirstArrived(), SecondOrdered(), 1, 0)
    ensures LeaveStep(SecondOrdered(), SecondLeft(), 1, [], multiset{})
  {
    AtMostOne(TasksAt(SecondOrdered().cfg, 0), 1);
    var m, m' := SecondOrdered(), SecondLeft();
    assert m'.s.place == Relocated(m.cfg, m.s, 1, InTable(1), Carried);
    assert m'.cfg.entry[1] == Moved(WorldOf(m.cfg, 1), 0).entry;
    assert WorldOf(m.cfg, 1).hosts == [1] && m'.cfg.past == Departed(m.cfg, 1).past;
    SameConfig(m'.cfg, Departed(m.cfg, 1));
  }

  /**
   * A departed task's entry stays behind, so the table may have no room for a task of another application that moves
   * in.
   */
  lemma NoRoomForSecond() returns (run: seq<Moment>)
    ensures IsRun(run) && |run| == 8 && run[7] == SecondLeft().(spinning := {0})
    ensures LearnSpins(run[6], run[7], 1, 0)
  {
    hide Init, Step;
    ReleasedIsInit();
    FirstSteps();
    SecondSteps();
    run := [Released(), FirstOrdered(), FirstLeft(), FirstLearned(), FirstArrived(), SecondOrdered(), SecondLeft(),
            SecondLeft().(spinning := {0})];
  }

  lemma FirstSteps()
    ensures Step(Released(), FirstOrdered()) && Step(FirstOrdered(), FirstLeft())
    ensures Step(FirstLeft(), FirstLearned()) && Step(FirstLearned(), FirstArrived())
  {
    hide OrderStep, LeaveStep, ArriveStep, LearnStep, LearnSpins, LeaveSpins, Works;
    FirstMoves();
    FirstSettles();
  }

  lemma SecondSteps()
    ensures Step(FirstArrived(), SecondOrdered()) && Step(SecondOrdered(), SecondLeft())
    ensures Step(SecondLeft(), SecondLeft().(spinning := {0}))
    ensures LearnSpins(SecondLeft(), SecondLeft().(spinning := {0}), 1, 0)
  {
    hide OrderStep, LeaveStep, ArriveStep, LearnStep, LearnSpins, LeaveSpins, Works;
    SecondMoves();
    SecondFindsNoRoom();
  }

  lemma SecondFindsNoRoom()
    ensures LearnSpins(SecondLeft(), SecondLeft().(spinning := {0}), 1, 0)
  {
    assert LocationsAt(SecondLeft().cfg, 0) == {0};
  }
}
