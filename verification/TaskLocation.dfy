/** Where a processor believes the tasks of its applications to run. */
module TaskLocation {

  datatype Location = Location(id: int, proc: int)

  /** A task has at most one entry. */
  predicate Unique(s: seq<Location>) {
    forall i, j :: 0 <= i < j < |s| && s[i].id != -1 ==> s[i].id != s[j].id
  }

  /** The processor recorded for a task, or -1. */
  function Lookup(s: seq<Location>, task: int): int {
    if s == [] then -1 else if s[0].id == task then s[0].proc else Lookup(s[1..], task)
  }

  lemma {:induction false} LookupFirst(s: seq<Location>, task: int, i: nat)
    requires i < |s| && s[i].id == task && forall k :: 0 <= k < i ==> s[k].id != task
    ensures Lookup(s, task) == s[i].proc
  {
    if i > 0 { LookupFirst(s[1..], task, i - 1); }
  }

  lemma {:induction false} LookupNone(s: seq<Location>, task: int)
    requires forall k :: 0 <= k < |s| ==> s[k].id != task
    ensures Lookup(s, task) == -1
  {
    if s != [] { LookupNone(s[1..], task); }
  }

  /** Two tables with the same entries for a task say the same about it. */
  lemma {:induction false} LookupSame(s: seq<Location>, s': seq<Location>, task: int)
    requires |s| == |s'| && forall k :: 0 <= k < |s| ==> (s[k].id == task || s'[k].id == task ==> s[k] == s'[k])
    ensures Lookup(s, task) == Lookup(s', task)
  {
    if s != [] && s[0].id != task { LookupSame(s[1..], s'[1..], task); }
  }

  predicate HasRoom(s: seq<Location>, task: int) {
    exists i :: 0 <= i < |s| && (s[i].id == task || s[i].id == -1)
  }

  /** The tasks that have an entry. */
  ghost function Known(s: seq<Location>): set<int> {
    set i | 0 <= i < |s| && s[i].id != -1 :: s[i].id
  }

  /** No entry is without a processor. */
  ghost predicate AreReal(s: seq<Location>) {
    forall i :: 0 <= i < |s| && s[i].id != -1 ==> s[i].proc != -1
  }

  lemma KnownIsFound(s: seq<Location>, task: int)
    requires AreReal(s) && task != -1
    ensures task in Known(s) <==> Lookup(s, task) != -1
  {
    if i :| 0 <= i < |s| && s[i].id == task {
      KnownAt(s, task, i);
    } else {
      LookupNone(s, task);
    }
  }

  lemma {:induction false} KnownAt(s: seq<Location>, task: int, i: nat)
    requires AreReal(s) && task != -1 && i < |s| && s[i].id == task
    ensures Lookup(s, task) != -1 && task in Known(s)
  {
    if s[0].id != task {
      assert s[1..][i - 1] == s[i];
      KnownAt(s[1..], task, i - 1);
    }
  }

  lemma KnownOfLast(s: seq<Location>)
    requires s != [] && Unique(s)
    ensures var n := |s| - 1;
      && Known(s) == Known(s[..n]) + (if s[n].id == -1 then {} else {s[n].id})
      && s[n].id !in Known(s[..n]) && Unique(s[..n])
  {
    var n := |s| - 1;
    forall id | id in Known(s) && id != s[n].id ensures id in Known(s[..n]) {
      var i :| 0 <= i < |s| && s[i].id == id && s[i].id != -1;
      assert s[..n][i] == s[i];
    }
    forall id | id in Known(s[..n]) ensures id in Known(s) && id != s[n].id {
      var i :| 0 <= i < n && s[..n][i].id == id;
      assert s[i].id == id;
    }
  }

  ghost predicate NoneFree(s: seq<Location>) {
    forall i :: 0 <= i < |s| ==> s[i].id != -1
  }

  /** The tasks known are as many as the entries used. */
  lemma {:induction false} KnownFits(s: seq<Location>)
    requires Unique(s)
    ensures |Known(s)| <= |s|
    ensures |Known(s)| == |s| <==> NoneFree(s)
  {
    if s == [] {
      assert Known(s) == {};
    } else {
      hide Known, Unique;
      KnownOfLast(s);
      KnownFits(s[..|s| - 1]);
      assert NoneFree(s) <==> NoneFree(s[..|s| - 1]) && s[|s| - 1].id != -1;
    }
  }

  /** There is room for a task exactly when the table could know it together with all it knows. */
  lemma RoomIsCounted(s: seq<Location>, task: int)
    requires Unique(s) && task != -1
    ensures HasRoom(s, task) <==> |Known(s) + {task}| <= |s|
  {
    KnownFits(s);
    if task in Known(s) {
      assert Known(s) + {task} == Known(s);
    }
  }

  /** Two tables agree on all tasks but one. */
  ghost predicate AgreeBut(s: seq<Location>, s': seq<Location>, task: int) {
    forall other :: other != task && other != -1 ==> Lookup(s, other) == Lookup(s', other)
  }

  lemma AgreeWhereSame(s: seq<Location>, s': seq<Location>, task: int)
    requires |s| == |s'|
    requires forall k :: 0 <= k < |s| ==>
      s[k] == s'[k] || ((s[k].id == task || s[k].id == -1) && (s'[k].id == task || s'[k].id == -1))
    ensures AgreeBut(s, s', task)
  {
    forall other | other != task && other != -1 ensures Lookup(s, other) == Lookup(s', other) {
      LookupSame(s, s', other);
    }
  }

  lemma KnownWithout(s: seq<Location>, s': seq<Location>, task: int)
    requires |s'| == |s| && forall k :: 0 <= k < |s| ==> s'[k] == if s[k].id == task then Location(-1, -1) else s[k]
    ensures Known(s') == Known(s) - {task}
  {
    forall id | id in Known(s) && id != task ensures id in Known(s') {
      var k :| 0 <= k < |s| && s[k].id == id;
      assert s'[k].id == id;
    }
  }

  lemma KnownWith(s: seq<Location>, i: nat, task: int, proc: int)
    requires i < |s| && s[i].id == -1 && task != -1
    ensures Known(s[i := Location(task, proc)]) == Known(s) + {task}
  {
    var s' := s[i := Location(task, proc)];
    forall id | id in Known(s) ensures id in Known(s') {
      var k :| 0 <= k < |s| && s[k].id == id;
      assert s'[k].id == id;
    }
    assert s'[i].id == task;
  }

  class Locations {
    const entries: array<Location>

    constructor (maxTaskLocation: nat)
      ensures fresh(entries) && entries.Length == maxTaskLocation && Unique(entries[..])
      ensures forall task: nat :: Lookup(entries[..], task) == -1
    {
      entries := new Location[maxTaskLocation](_ => Location(-1, -1));
      new;
      forall task: nat ensures Lookup(entries[..], task) == -1 { LookupNone(entries[..], task); }
    }

    method GetTaskLocation(task: nat) returns (proc: int)
      ensures proc == Lookup(entries[..], task)
    {
      for i := 0 to entries.Length
        invariant forall k :: 0 <= k < i ==> entries[k].id != task
      {
        if entries[i].id == task {
          LookupFirst(entries[..], task, i);
          return entries[i].proc;
        }
      }
      LookupNone(entries[..], task);
      return -1;
    }

    /**
     * Records a new processor for a task in place of any earlier one; not ok stands for the error loop, entered when
     * there is no room.
     */
    method AddTaskLocation(task: nat, proc: int) returns (ok: bool)
      requires Unique(entries[..])
      modifies entries
      ensures Unique(entries[..]) && (ok <==> old(HasRoom(entries[..], task)))
      ensures AgreeBut(old(entries[..]), entries[..], task)
      ensures ok ==> Lookup(entries[..], task) == proc
      ensures ok ==> Known(entries[..]) == old(Known(entries[..])) + {task}
      ensures ok && proc != -1 && old(AreReal(entries[..])) ==> AreReal(entries[..])
    {
      ghost var was := entries[..];
      ClearTaskLocation(task);
      ghost var cleared := entries[..];
      KnownWithout(was, cleared, task);
      for i := 0 to entries.Length
        invariant entries[..] == cleared && forall k :: 0 <= k < i ==> entries[k].id != -1
      {
        if entries[i].id == -1 {
          entries[i] := Location(task, proc);
          assert entries[..] == cleared[i := Location(task, proc)];
          LookupFirst(entries[..], task, i);
          AgreeWhereSame(was, entries[..], task);
          assert was[i].id == task || was[i].id == -1;
          KnownWith(cleared, i, task, proc);
          return true;
        }
      }
      AgreeWhereSame(was, entries[..], task);
      return false;
    }

    /** Drops every entry of a task. */
    method ClearTaskLocation(task: nat)
      modifies entries
      ensures forall k :: 0 <= k < entries.Length ==>
        entries[k] == if old(entries[k]).id == task then Location(-1, -1) else old(entries[k])
    {
      for i := 0 to entries.Length
        invariant forall k :: 0 <= k < entries.Length ==>
          entries[k] == if k < i && old(entries[k]).id == task then Location(-1, -1) else old(entries[k])
      {
        if entries[i].id == task { entries[i] := Location(-1, -1); }
      }
    }

    /** Drops the entry of a task; not found stands for the error loop. */
    method RemoveTaskLocation(task: nat) returns (found: bool, proc: int)
      requires Unique(entries[..])
      modifies entries
      ensures Unique(entries[..]) && AgreeBut(old(entries[..]), entries[..], task) && Lookup(entries[..], task) == -1
      ensures found <==> exists i :: 0 <= i < entries.Length && old(entries[i]).id == task
      ensures found ==> proc == old(Lookup(entries[..], task)) && HasRoom(entries[..], task)
      ensures Known(entries[..]) == old(Known(entries[..])) - {task} && (found <==> task in old(Known(entries[..])))
      ensures old(AreReal(entries[..])) ==> AreReal(entries[..])
    {
      ghost var was := entries[..];
      for i := 0 to entries.Length
        invariant entries[..] == was && forall k :: 0 <= k < i ==> entries[k].id != task
      {
        if entries[i].id == task {
          LookupFirst(was, task, i);
          proc := entries[i].proc;
          entries[i] := Location(-1, -1);
          assert entries[..] == was[i := Location(-1, -1)];
          assert entries[..][i].id == -1;
          LookupNone(entries[..], task);
          AgreeWhereSame(was, entries[..], task);
          KnownWithout(was, entries[..], task);
          assert was[i].id in Known(was);
          return true, proc;
        }
      }
      LookupNone(was, task);
      return false, -1;
    }
  }
}
