/** Moving a task to another processor: its pending requests, and the location entries it leaves behind. */
module Migration {
  import opened Basics
  import opened RequestTable
  import opened TaskLocation

  // ----- the pending requests

  /** The requests as they travel: three words each. */
  function Words(requests: seq<Request>): seq<int> {
    if requests == [] then []
    else
      var r := requests[|requests| - 1];
      Words(requests[..|requests| - 1]) + [r.requester, r.requested, r.proc]
  }

  lemma {:induction false} WordsAt(requests: seq<Request>, i: nat)
    requires i < |requests|
    ensures |Words(requests)| == 3 * |requests|
    ensures Words(requests)[3 * i] == requests[i].requester && Words(requests)[3 * i + 1] == requests[i].requested
    ensures Words(requests)[3 * i + 2] == requests[i].proc
  {
    var init := requests[..|requests| - 1];
    if i < |init| { WordsAt(init, i); } else { WordsSize(init); }
  }

  lemma {:induction false} WordsSize(requests: seq<Request>)
    ensures |Words(requests)| == 3 * |requests|
  {
    if requests != [] { WordsSize(requests[..|requests| - 1]); }
  }

  function Min(a: int, b: int): int {
    if a < b then a else b
  }

  ghost predicate AreFor(requests: seq<Request>, task: nat) {
    forall i :: 0 <= i < |requests| ==> requests[i].requested == task && requests[i].requester >= 0
  }

  /** The requests of a message that name the task. */
  function For(requests: seq<Request>, task: nat): seq<Request> {
    if requests == [] then []
    else
      var r := requests[|requests| - 1];
      For(requests[..|requests| - 1], task) + if r.requested == task then [r] else []
  }

  lemma {:induction false} ForAll(requests: seq<Request>, task: nat)
    requires AreFor(requests, task)
    ensures For(requests, task) == requests
  {
    if requests != [] {
      ForAll(requests[..|requests| - 1], task);
      assert requests == requests[..|requests| - 1] + [requests[|requests| - 1]];
    }
  }

  lemma ForNext(requests: seq<Request>, task: nat, i: nat)
    requires i < |requests|
    ensures For(requests[..i + 1], task) ==
      if requests[i].requested == task then For(requests[..i], task) + [requests[i]] else For(requests[..i], task)
  {
    assert requests[..i + 1][..i] == requests[..i];
  }

  /** What a table holds after the requests have been offered to it: as many of the first ones as fit. */
  ghost predicate Took(held: multiset<Request>, size: nat, requests: seq<Request>, now: multiset<Request>) {
    |held| <= size && now == held + multiset(requests[..Min(|requests|, size - |held|)])
  }

  lemma TakesOne(held: multiset<Request>, size: nat, requests: seq<Request>, r: Request, now: multiset<Request>,
                 ok: bool)
    requires Took(held, size, requests, now) && (ok <==> |now| < size)
    ensures Took(held, size, requests + [r], if ok then now + multiset{r} else now)
  {
    var k := Min(|requests|, size - |held|);
    assert |multiset(requests[..k])| == k;
    var k' := Min(|requests| + 1, size - |held|);
    if ok {
      assert requests[..k] == requests && (requests + [r])[..k'] == requests + [r];
    } else {
      assert (requests + [r])[..k'] == requests[..k];
    }
  }

  lemma TookNone(held: multiset<Request>, size: nat)
    requires |held| <= size
    ensures Took(held, size, [], held)
  {
  }

  /**
   * The new host takes over the requests that name the task, as many as its table has room for, and skips all others.
   */
  method HandleMigrationRequestMsg(table: Table, task: nat, msg: seq<int>, ghost requests: seq<Request>)
    requires table.Valid() && msg == Words(requests)
    requires forall i :: 0 <= i < |requests| && requests[i].requested == task ==> requests[i].requester >= 0
    modifies table.slots
    ensures table.Valid() && Took(old(table.Contents()), table.slots.Length, For(requests, task), table.Contents())
  {
    hide Held, Words, Took, For;
    WordsSize(requests);
    HeldSize(table.slots[..]);
    ghost var held := table.Contents();
    TookNone(held, table.slots.Length);
    ForNone(task);
    var iterations := |msg| / 3;
    for i := 0 to iterations
      invariant table.Valid() && Took(held, table.slots.Length, For(requests[..i], task), table.Contents())
    {
      WordsAt(requests, i);
      ForNext(requests, task, i);
      var requester, requested, requesterProc := msg[3 * i], msg[3 * i + 1], msg[3 * i + 2];
      if requested == task {
        ghost var now := table.Contents();
        var ok := table.InsertMessageRequest(requested, requester, requesterProc);
        TakesOne(held, table.slots.Length, For(requests[..i], task), requests[i], now, ok);
      }
    }
    WholeMessage(requests);
  }

  lemma ForNone(task: nat)
    ensures For([], task) == []
  {
  }

  lemma WholeMessage(requests: seq<Request>)
    ensures requests[..|requests|] == requests
  {
  }

  /**
   * Where the requests of the two tables end up: those for the task at the new host, and all of them unless its table
   * is too small.
   */
  ghost predicate Moved(source0: multiset<Request>, target0: multiset<Request>, source: multiset<Request>,
                        target: multiset<Request>,
                        size: nat, task: nat)
  {
    && (forall r: Request :: r.requested == task ==> source[r] == 0)
    && (forall r: Request :: r.requested != task ==> source[r] == source0[r] && target[r] == target0[r])
    && (source + target == source0 + target0 <==> |target0| + |source0| - |source| <= size)
  }

  lemma SplitsInTwo(requests: seq<Request>, n: nat)
    requires n <= |requests|
    ensures multiset(requests) == multiset(requests[..n]) + multiset(requests[n..])
  {
    assert requests == requests[..n] + requests[n..];
  }

  lemma RequestsMove(source0: multiset<Request>, target0: multiset<Request>, source: multiset<Request>,
                     target: multiset<Request>,
                     size: nat, task: nat, requests: seq<Request>)
    requires Shared(source0, multiset(requests), source, task) && AreFor(requests, task)
    requires Took(target0, size, requests, target)
    ensures Moved(source0, target0, source, target, size, task)
  {
    var n := Min(|requests|, size - |target0|);
    SharedAddsUp(source0, multiset(requests), source, task);
    TakenAreFor(requests, n, task);
    var taken, lost := multiset(requests[..n]), multiset(requests[n..]);
    SplitsInTwo(requests, n);
    assert |source0| == |source| + |requests|;
    hide AreFor, Shared, Took;
    assert source + target + lost == source0 + target0;
    assert |source + target| + |lost| == |source0 + target0|;
    assert |lost| == 0 <==> lost == multiset{};
  }

  /** The pending requests of a migrating task move from the table of the old host to that of the new one. */
  method MigrateRequests(source: Table, target: Table, task: nat)
    requires source.Valid() && target.Valid() && source.slots != target.slots
    modifies source.slots, target.slots
    ensures source.Valid() && target.Valid()
    ensures Moved(old(source.Contents()), old(target.Contents()), source.Contents(), target.Contents(),
                  target.slots.Length, task)
  {
    hide Held, Moved, Took, Shared, Words, For;
    ghost var source0, target0 := source.Contents(), target.Contents();
    var removed := source.RemoveAllRequestedMsgs(task);
    HandleMigrationRequestMsg(target, task, Words(removed), removed);
    ForAll(removed, task);
    RequestsMove(source0, target0, source.Contents(), target.Contents(), target.slots.Length, task, removed);
  }

  lemma SharedAddsUp(was: multiset<Request>, taken: multiset<Request>, kept: multiset<Request>, task: nat)
    requires Shared(was, taken, kept, task)
    ensures was == taken + kept
  {
  }

  lemma TakenAreFor(requests: seq<Request>, n: nat, task: nat)
    requires n <= |requests| && AreFor(requests, task)
    ensures forall r: Request :: r.requested != task ==> multiset(requests[..n])[r] == 0
    ensures |multiset(requests[n..])| == |requests| - n
  {
    forall r: Request | r.requested != task ensures multiset(requests[..n])[r] == 0 {
      assert r !in requests[..n];
    }
  }

  // ----- the location entries

  /** What the old host knows of every task of the application, once it has recorded where the task went. */
  method LeaveLocations(source: Locations, base: nat, n: nat, task: nat, processor: nat) returns (found: bool,
      known: seq<int>)
    requires Unique(source.entries[..])
    modifies source.entries
    ensures Unique(source.entries[..])
    ensures found <==> task in old(Known(source.entries[..]))
    ensures found ==> Known(source.entries[..]) == old(Known(source.entries[..]))
    ensures found && processor != -1 && old(AreReal(source.entries[..])) ==> AreReal(source.entries[..])
    ensures AgreeBut(old(source.entries[..]), source.entries[..], task)
    ensures found ==> Lookup(source.entries[..], task) == processor
    ensures found ==> |known| == n && forall i :: 0 <= i < n ==> known[i] == Lookup(source.entries[..], base + i)
  {
    known := [];
    var proc;
    found, proc := source.RemoveTaskLocation(task);
    if !found { return; }
    var ok := source.AddTaskLocation(task, processor);
    ghost var now := source.entries[..];
    for i := 0 to n
      invariant source.entries[..] == now
      invariant |known| == i && forall k :: 0 <= k < i ==> known[k] == Lookup(source.entries[..], base + k)
    {
      var location := source.GetTaskLocation(base + i);
      known := known + [location];
    }
  }

  /** What the new host knows of a task: what it knew before, or else what the old host told it. */
  function Merged(before: int, told: int): int {
    if before != -1 then before else told
  }

  /** The tasks that the old host has told of. */
  ghost function Wanted(base: nat, told: seq<int>): set<int> {
    set i | 0 <= i < |told| && told[i] != -1 :: base + i
  }

  lemma WantedMore(base: nat, told: seq<int>, i: nat)
    requires i < |told|
    ensures Wanted(base, told[..i + 1]) == Wanted(base, told[..i]) + if told[i] == -1 then {} else {base + i}
    ensures Wanted(base, told[..i + 1]) <= Wanted(base, told)
  {
    assert told[..i + 1] == told[..i] + [told[i]];
    forall t | t in Wanted(base, told[..i]) ensures t in Wanted(base, told[..i + 1]) {
      assert told[..i + 1][t - base] == told[t - base];
    }
    if told[i] != -1 { assert told[..i + 1][i] == told[i]; }
    forall t | t in Wanted(base, told[..i + 1]) ensures t in Wanted(base, told) {
      assert told[..i + 1][t - base] == told[t - base];
    }
  }

  /** A table that can know no more of what it is told cannot know all of it. */
  lemma OneTooMany(was: seq<Location>, now: seq<Location>, base: nat, told: seq<int>, i: nat)
    requires Unique(was) && Unique(now) && |now| == |was| && i < |told| && told[i] != -1
    requires Known(now) == Known(was) + Wanted(base, told[..i])
    ensures !HasRoom(now, base + i) ==> |Known(was) + Wanted(base, told)| > |was|
  {
    hide Known, Unique, HasRoom, Wanted;
    RoomIsCounted(now, base + i);
    WantedMore(base, told, i);
    SubsetSize(Known(now) + {base + i}, Known(was) + Wanted(base, told));
  }

  function Expected(was: seq<Location>, base: nat, told: seq<int>, i: nat, task: nat): int
    requires i <= |told|
  {
    if base <= task < base + i then Merged(Lookup(was, task), told[task - base]) else Lookup(was, task)
  }

  /** How far the new host has come: it has taken over the first i of the locations it is told. */
  ghost predicate FilledIn(was: seq<Location>, now: seq<Location>, base: nat, told: seq<int>, i: nat)
    requires i <= |told|
  {
    && Unique(now) && |now| == |was|
    && (forall task: nat :: Lookup(now, task) == Expected(was, base, told, i, task))
    && (AreReal(was) ==> AreReal(now) && Known(now) == Known(was) + Wanted(base, told[..i]))
  }

  /** Fills in one location. */
  method FillIn(target: Locations, task: nat, told: int) returns (ok: bool)
    requires Unique(target.entries[..])
    modifies target.entries
    ensures Unique(target.entries[..]) && AgreeBut(old(target.entries[..]), target.entries[..], task)
    ensures !ok ==> told != -1 && !old(HasRoom(target.entries[..], task))
    ensures ok ==> Lookup(target.entries[..], task) == Merged(old(Lookup(target.entries[..], task)), told)
    ensures ok && old(AreReal(target.entries[..])) ==>
      && AreReal(target.entries[..])
      && Known(target.entries[..]) == old(Known(target.entries[..])) + if told == -1 then {} else {task as int}
  {
    hide Known, AreReal, HasRoom, Unique;
    ok := true;
    var location := target.GetTaskLocation(task);
    if told != -1 && location == -1 {
      ok := target.AddTaskLocation(task, told);
    } else if AreReal(target.entries[..]) {
      KnownIsFound(target.entries[..], task);
    }
  }

  lemma OneMoreFilledIn(was: seq<Location>, before: seq<Location>, now: seq<Location>, base: nat, told: seq<int>,
                        i: nat)
    requires i < |told| && FilledIn(was, before, base, told, i) && Unique(now) && |now| == |before|
    requires AgreeBut(before, now, base + i) && Lookup(now, base + i) == Merged(Lookup(before, base + i), told[i])
    requires AreReal(before) ==> AreReal(now) && Known(now) == Known(before) + if told[i] == -1 then {} else {(base + i) as int}
    ensures FilledIn(was, now, base, told, i + 1)
  {
    hide Known, AreReal, Unique, Lookup, Wanted;
    WantedMore(base, told, i);
  }

  lemma AllFilledIn(was: seq<Location>, now: seq<Location>, base: nat, told: seq<int>)
    requires FilledIn(was, now, base, told, |told|)
    ensures forall i :: 0 <= i < |told| ==> Lookup(now, base + i) == Merged(Lookup(was, base + i), told[i])
    ensures forall task: nat :: task < base || task >= base + |told| ==> Lookup(now, task) == Lookup(was, task)
    ensures AreReal(was) ==>
      AreReal(now) && Known(now) == Known(was) + Wanted(base, told) && |Known(was) + Wanted(base, told)| <= |was|
  {
    hide Known, AreReal, Unique, Lookup, Wanted;
    AllWanted(base, told);
    KnownFits(now);
  }

  lemma AllWanted(base: nat, told: seq<int>)
    ensures Wanted(base, told[..0]) == {} && told[..|told|] == told
  {
  }

  /**
   * The new host fills in what it did not know; not ok stands for the error loop of a full table, entered exactly when
   * the table could not know both what it knew and what it is told.
   */
  method HandleMigrationTaskLocation(target: Locations, base: nat, told: seq<int>) returns (ok: bool)
    requires Unique(target.entries[..])
    modifies target.entries
    ensures Unique(target.entries[..])
    ensures ok ==> forall i :: 0 <= i < |told| ==>
      Lookup(target.entries[..], base + i) == Merged(old(Lookup(target.entries[..], base + i)), told[i])
    ensures ok ==> forall task: nat :: task < base || task >= base + |told| ==>
      Lookup(target.entries[..], task) == old(Lookup(target.entries[..], task))
    ensures old(AreReal(target.entries[..])) ==>
      (ok <==> |old(Known(target.entries[..])) + Wanted(base, told)| <= target.entries.Length)
    ensures ok && old(AreReal(target.entries[..])) ==>
      AreReal(target.entries[..]) && Known(target.entries[..]) == old(Known(target.entries[..])) + Wanted(base, told)
  {
    hide *;
    ghost var was := target.entries[..];
    NothingFilledIn(was, base, told);
    for i := 0 to |told|
      invariant FilledIn(was, target.entries[..], base, told, i)
    {
      ghost var before := target.entries[..];
      FilledInIsUnique(was, before, base, told, i);
      ok := FillIn(target, base + i, told[i]);
      if !ok {
        TooManyInAll(was, before, base, told, i);
        return;
      }
      OneMoreFilledIn(was, before, target.entries[..], base, told, i);
    }
    FilledInIsUnique(was, target.entries[..], base, told, |told|);
    AllFilledIn(was, target.entries[..], base, told);
    ok := true;
  }

  lemma NothingFilledIn(was: seq<Location>, base: nat, told: seq<int>)
    requires Unique(was)
    ensures FilledIn(was, was, base, told, 0)
  {
    hide Known, AreReal, Unique, Lookup;
    AllWanted(base, told);
  }

  lemma FilledInIsUnique(was: seq<Location>, now: seq<Location>, base: nat, told: seq<int>, i: nat)
    requires i <= |told| && FilledIn(was, now, base, told, i)
    ensures Unique(now) && |now| == |was|
  {
  }

  lemma TooManyInAll(was: seq<Location>, before: seq<Location>, base: nat, told: seq<int>, i: nat)
    requires i < |told| && told[i] != -1 && Unique(was) && FilledIn(was, before, base, told, i)
    requires !HasRoom(before, base + i)
    ensures AreReal(was) ==> |Known(was) + Wanted(base, told)| > |was|
  {
    hide Known, AreReal, Unique, Lookup, HasRoom;
    if AreReal(was) { OneTooMany(was, before, base, told, i); }
  }
}
