/** What the write queue promises: sequential results, reads that see earlier writes, no
    lost updates, bounded work, and exactly where the code falls short of it. */
module QueueTheorems {
  import opened Text
  import Patch
  import opened Tickets
  import opened QueueSpec
  import opened QueueOrder
  import opened QueueWaiters
  import opened QueueFiles

  // ------------------------------------------------------------- projection

  /** No ticket of another key touches the path. */
  ghost predicate ClearOfOthers(env: Env, log: seq<Entry>, key: string, q: Path) {
    forall i :: 0 <= i < |log| && log[i].ticket.key != key ==> q !in Footprint(env, log[i].ticket)
  }

  /** On its own paths a key's tickets act as if no other tickets existed. */
  lemma {:induction false} ReplayProjects(env: Env, files: Files, arrived: seq<Ticket>, log: seq<Entry>,
      key: string, q: Path)
    requires Independent(env, arrived) && FromArrived(arrived, log) && ClearOfOthers(env, log, key, q)
    ensures Lookup(Replay(env, files, log), q) == Lookup(Replay(env, files, Of(log, key)), q)
    decreases |log|, 0
  {
    if log != [] {
      var init, e := log[..|log| - 1], log[|log| - 1];
      ReplayProjects(env, files, arrived, init, key, q);
      assert log == init + [e];
      OfSnoc(init, e, key);
      if e.ticket.key != key {
        TouchesFootprintOnly(env, Replay(env, files, init), e.ticket, e.fault, q);
        assert Of(log, key) == Of(init, key);
      } else {
        EntryProjects(env, files, arrived, init, e);
        var x, y := Replay(env, files, init), Replay(env, files, Of(init, key));
        ReplaySnoc(env, files, Of(init, key), e);
        DependsOnFootprintOnly(env, x, y, e.ticket, e.fault);
        if q !in Footprint(env, e.ticket) {
          TouchesFootprintOnly(env, x, e.ticket, e.fault, q);
          TouchesFootprintOnly(env, y, e.ticket, e.fault, q);
        }
      }
    }
  }

  /** The next ticket finds on its footprint what its key's earlier tickets left. */
  lemma {:induction false} EntryProjects(env: Env, files: Files, arrived: seq<Ticket>, log: seq<Entry>, e: Entry)
    requires Independent(env, arrived) && FromArrived(arrived, log + [e])
    ensures Agree(Replay(env, files, log), Replay(env, files, Of(log, e.ticket.key)), Footprint(env, e.ticket))
    decreases |log|, 1
  {
    var key := e.ticket.key;
    assert (log + [e])[|log|] == e;
    forall q | q in Footprint(env, e.ticket)
      ensures Lookup(Replay(env, files, log), q) == Lookup(Replay(env, files, Of(log, key)), q)
    {
      forall i | 0 <= i < |log| ensures log[i] == (log + [e])[i] { }
      assert ClearOfOthers(env, log, key, q);
      ReplayProjects(env, files, arrived, log, key, q);
    }
  }

  // ------------------------------------------------------------- reordering

  ghost predicate SamePerKey(log: seq<Entry>, other: seq<Entry>) {
    forall k :: Of(log, k) == Of(other, k)
  }

  lemma SamePerKeyFrom(arrived: seq<Ticket>, log: seq<Entry>, other: seq<Entry>)
    requires SamePerKey(log, other) && FromArrived(arrived, log)
    ensures FromArrived(arrived, other)
  {
    forall i | 0 <= i < |other| ensures other[i].id < |arrived| && arrived[other[i].id] == other[i].ticket {
      OfContains(other, i);
      assert other[i] in Of(log, other[i].ticket.key);
    }
  }

  /** Logs that agree key by key leave the same workspace. */
  lemma ReorderingSameFiles(env: Env, files: Files, arrived: seq<Ticket>, log: seq<Entry>, other: seq<Entry>, q: Path)
    requires Independent(env, arrived) && FromArrived(arrived, log) && SamePerKey(log, other)
    ensures Lookup(Replay(env, files, log), q) == Lookup(Replay(env, files, other), q)
  {
    SamePerKeyFrom(arrived, log, other);
    var key := ToucherKey(env, log + other, q);
    forall i | 0 <= i < |log| && log[i].ticket.key != key ensures q !in Footprint(env, log[i].ticket) {
      assert (log + other)[i] == log[i];
      OnlyToucher(env, arrived, log + other, q, i);
    }
    forall i | 0 <= i < |other| && other[i].ticket.key != key ensures q !in Footprint(env, other[i].ticket) {
      assert (log + other)[|log| + i] == other[i];
      OnlyToucher(env, arrived, log + other, q, |log| + i);
    }
    ReplayProjects(env, files, arrived, log, key, q);
    ReplayProjects(env, files, arrived, other, key, q);
    assert Of(log, key) == Of(other, key);
  }

  /** The key whose tickets touch a path, if any do. */
  ghost function ToucherKey(env: Env, log: seq<Entry>, q: Path): string {
    if exists i :: 0 <= i < |log| && q in Footprint(env, log[i].ticket) then
      var i :| 0 <= i < |log| && q in Footprint(env, log[i].ticket);
      log[i].ticket.key
    else ""
  }

  lemma OnlyToucher(env: Env, arrived: seq<Ticket>, log: seq<Entry>, q: Path, i: nat)
    requires Independent(env, arrived) && FromArrived(arrived, log)
    requires i < |log| && log[i].ticket.key != ToucherKey(env, log, q)
    ensures q !in Footprint(env, log[i].ticket)
  {
  }

  lemma {:induction false} OfPrefix(log: seq<Entry>, i: nat, key: string)
    requires i <= |log|
    ensures Of(log[..i], key) <= Of(log, key)
    decreases |log|
  {
    var n := |log| - 1;
    if i < |log| {
      OfPrefix(log[..n], i, key);
      assert log[..n][..i] == log[..i];
    } else {
      assert log[..i] == log;
    }
  }

  lemma OfStep(log: seq<Entry>, e: Entry)
    ensures Of(log + [e], e.ticket.key) == Of(log, e.ticket.key) + [e]
  {
    OfSnoc(log, e, e.ticket.key);
  }

  lemma TakeOne(log: seq<Entry>, i: nat)
    requires i < |log|
    ensures log[..i + 1] == log[..i] + [log[i]]
  {
  }

  /** Where an entry sits among its key's entries. */
  lemma PlaceInKey(log: seq<Entry>, i: nat, key: string)
    requires i < |log| && log[i].ticket.key == key
    ensures Of(log[..i], key) + [log[i]] <= Of(log, key)
  {
    var init, e := log[..i], log[i];
    var upTo := init + [e];
    OfStep(init, e);
    TakeOne(log, i);
    assert log[..i + 1] == upTo;
    OfPrefix(log, i + 1, key);
  }

  lemma SamePlace(xs: seq<Entry>, ys: seq<Entry>, all: seq<Entry>, e: Entry)
    requires xs + [e] <= all && ys + [e] <= all && NoDuplicates(Ids(all))
    ensures xs == ys
  {
    assert all[|xs|] == (xs + [e])[|xs|] && all[|ys|] == (ys + [e])[|ys|];
    assert Ids(all)[|xs|] == Ids(all)[|ys|];
    assert xs == all[..|xs|] && ys == all[..|ys|];
  }

  /** ... and give every ticket the same verdict. */
  lemma ReorderingSameVerdicts(env: Env, files: Files, arrived: seq<Ticket>, log: seq<Entry>, other: seq<Entry>)
    requires Independent(env, arrived) && FromArrived(arrived, log) && SamePerKey(log, other)
    requires forall k :: NoDuplicates(Ids(Of(log, k)))
    requires VerdictsReplay(env, files, log)
    ensures VerdictsReplay(env, files, other)
  {
    SamePerKeyFrom(arrived, log, other);
    forall i | 0 <= i < |other|
      ensures other[i].verdict
           == ApplyTicket(env, Replay(env, files, other[..i]), other[i].ticket, other[i].fault).1
    {
      var e := other[i];
      var key := e.ticket.key;
      OfContains(other, i);
      assert e in Of(log, key);
      var j := PositionOf(log, e);
      PlaceInKey(log, j, key);
      PlaceInKey(other, i, key);
      assert Of(log, key) == Of(other, key);
      SamePlace(Of(log[..j], key), Of(other[..i], key), Of(log, key), e);
      SameEntryVerdict(env, files, arrived, log, j, other, i);
    }
  }

  lemma PositionOf(log: seq<Entry>, e: Entry) returns (j: nat)
    requires e in Of(log, e.ticket.key)
    ensures j < |log| && log[j] == e
  {
    assert e in log;
    j :| 0 <= j < |log| && log[j] == e;
  }

  lemma SameEntryVerdict(env: Env, files: Files, arrived: seq<Ticket>, log: seq<Entry>, j: nat,
      other: seq<Entry>, i: nat)
    requires Independent(env, arrived) && FromArrived(arrived, log) && FromArrived(arrived, other)
    requires j < |log| && i < |other| && log[j] == other[i]
    requires Of(log[..j], log[j].ticket.key) == Of(other[..i], log[j].ticket.key)
    ensures ApplyTicket(env, Replay(env, files, log[..j]), log[j].ticket, log[j].fault).1
         == ApplyTicket(env, Replay(env, files, other[..i]), log[j].ticket, log[j].fault).1
  {
    var e := log[j];
    FromPrefix(arrived, log, j);
    FromPrefix(arrived, other, i);
    EntryProjects(env, files, arrived, log[..j], e);
    EntryProjects(env, files, arrived, other[..i], e);
    DependsOnFootprintOnly(env, Replay(env, files, log[..j]), Replay(env, files, other[..i]), e.ticket, e.fault);
  }

  lemma FromPrefix(arrived: seq<Ticket>, log: seq<Entry>, j: nat)
    requires FromArrived(arrived, log) && j < |log|
    ensures FromArrived(arrived, log[..j] + [log[j]])
  {
    assert log[..j] + [log[j]] == log[..j + 1];
  }

  // ------------------------------------------------------------- arrival order

  lemma {:induction false} ArrivedIdsComplete(arrived: seq<Ticket>, id: nat)
    requires id < |arrived|
    ensures id in ArrivedIds(arrived, arrived[id].key)
  {
    var n := |arrived| - 1;
    if id < n {
      ArrivedIdsComplete(arrived[..n], id);
      assert arrived[..n][id] == arrived[id];
    }
  }

  /** The log sorted back into arrival order. */
  ghost function ArrivalOrder(log: seq<Entry>, n: nat): seq<Entry> {
    if n == 0 then []
    else ArrivalOrder(log, n - 1) + (if exists i :: 0 <= i < |log| && log[i].id == n - 1
                                     then var i :| 0 <= i < |log| && log[i].id == n - 1; [log[i]] else [])
  }

  ghost predicate Ascending(entries: seq<Entry>) {
    forall i, j :: 0 <= i < j < |entries| ==> entries[i].id < entries[j].id
  }

  lemma {:induction false} ArrivalOrderIs(arrived: seq<Ticket>, log: seq<Entry>, n: nat)
    requires InArrivalOrder(arrived, log)
    ensures Ascending(ArrivalOrder(log, n))
    ensures forall e :: e in ArrivalOrder(log, n) <==> e in log && e.id < n
  {
    if n > 0 {
      ArrivalOrderIs(arrived, log, n - 1);
      forall e | e in log && e.id == n - 1 ensures e in ArrivalOrder(log, n) {
        var j :| 0 <= j < |log| && log[j] == e;
        forall i | 0 <= i < |log| && log[i].id == n - 1 ensures log[i] == e { LoggedOnce(arrived, log, i, j); }
        assert ArrivalOrder(log, n) == ArrivalOrder(log, n - 1) + [e];
      }
    }
  }

  ghost predicate Logged(log: seq<Entry>, id: nat) {
    exists i :: 0 <= i < |log| && log[i].id == id
  }

  /** If no ticket is missing, each stands at its own number. */
  lemma {:induction false} ArrivalOrderFull(log: seq<Entry>, n: nat)
    requires forall id :: 0 <= id < n ==> Logged(log, id)
    ensures |ArrivalOrder(log, n)| == n && forall i :: 0 <= i < n ==> ArrivalOrder(log, n)[i].id == i
  {
    if n > 0 {
      ArrivalOrderFull(log, n - 1);
      assert Logged(log, n - 1);
    }
  }

  lemma {:induction false} EveryTicketLogged(arrived: seq<Ticket>, log: seq<Entry>, id: nat)
    requires id < |arrived| && Ids(Of(log, arrived[id].key)) == ArrivedIds(arrived, arrived[id].key)
    ensures Logged(log, id)
  {
    var k := arrived[id].key;
    ArrivedIdsComplete(arrived, id);
    var x :| 0 <= x < |ArrivedIds(arrived, k)| && ArrivedIds(arrived, k)[x] == id;
    assert Ids(Of(log, k))[x] == Of(log, k)[x].id == id;
    var i :| 0 <= i < |log| && log[i] == Of(log, k)[x];
  }

  // ------------------------------------------------------------- sorting keeps each key's order

  lemma {:induction false} OfAscends(entries: seq<Entry>, key: string)
    requires Ascending(entries)
    ensures Ascending(Of(entries, key))
  {
    if entries != [] {
      var init, e := entries[..|entries| - 1], entries[|entries| - 1];
      OfAscends(init, key);
      forall x | x in Of(init, key) ensures x.id < e.id { assert x in init; }
    }
  }

  lemma LogOfAscends(arrived: seq<Ticket>, log: seq<Entry>, key: string)
    requires InArrivalOrder(arrived, log)
    ensures Ascending(Of(log, key))
  {
    ArrivedIdsAscend(arrived, key);
    var mine := Of(log, key);
    assert Ids(mine) <= ArrivedIds(arrived, key);
    assert forall i :: 0 <= i < |mine| ==> mine[i].id == Ids(mine)[i] == ArrivedIds(arrived, key)[i];
  }

  lemma OfMembers(log: seq<Entry>, key: string, e: Entry)
    ensures e in Of(log, key) <==> e in log && e.ticket.key == key
  {
    if e in log && e.ticket.key == key {
      var i :| 0 <= i < |log| && log[i] == e;
      OfContains(log, i);
    }
  }

  lemma {:induction false} AscendingUnique(xs: seq<Entry>, ys: seq<Entry>)
    requires Ascending(xs) && Ascending(ys) && forall e :: e in xs <==> e in ys
    ensures xs == ys
  {
    assert ys == [] || ys[0] in xs;
    if xs != [] {
      LastIsGreatest(xs, ys);
      var n := |xs| - 1;
      assert forall e :: e in xs[..n] <==> e in xs && e != xs[n];
      assert forall e :: e in ys[..|ys| - 1] <==> e in ys && e != ys[|ys| - 1];
      AscendingUnique(xs[..n], ys[..|ys| - 1]);
      assert xs == xs[..n] + [xs[n]] && ys == ys[..|ys| - 1] + [xs[n]];
    }
  }

  lemma LastIsGreatest(xs: seq<Entry>, ys: seq<Entry>)
    requires Ascending(xs) && Ascending(ys) && xs != [] && forall e :: e in xs <==> e in ys
    ensures ys != [] && xs[|xs| - 1] == ys[|ys| - 1]
  {
    assert xs[|xs| - 1] in xs;
    assert ys[|ys| - 1] in ys;
    var i :| 0 <= i < |xs| && xs[i] == ys[|ys| - 1];
    var j :| 0 <= j < |ys| && ys[j] == xs[|xs| - 1];
  }

  /** A log sorts into arrival order without touching any key's order. */
  lemma ArrivalOrderSamePerKey(arrived: seq<Ticket>, log: seq<Entry>)
    requires InArrivalOrder(arrived, log)
    ensures SamePerKey(log, ArrivalOrder(log, |arrived|))
  {
    var ordered := ArrivalOrder(log, |arrived|);
    ArrivalOrderIs(arrived, log, |arrived|);
    forall k ensures Of(log, k) == Of(ordered, k) {
      OfAscends(ordered, k);
      LogOfAscends(arrived, log, k);
      forall e ensures e in Of(log, k) <==> e in Of(ordered, k) {
        OfMembers(log, k, e);
        OfMembers(ordered, k, e);
        if e in log { assert e.id < |arrived|; }
      }
      AscendingUnique(Of(log, k), Of(ordered, k));
    }
  }

  // ------------------------------------------------------------- one by one

  /** The sequential reading: the run's entries applied one by one in the order their tickets
      arrived, each meeting the I/O failure it met in the run. */
  ghost predicate Sequential(env: Env, files: Files, s: State, ordered: seq<Entry>) {
    && Ascending(ordered) && (forall e :: e in ordered <==> e in s.log)
    && (forall i :: 0 <= i < |ordered| ==> ordered[i].id < |s.arrived| && ordered[i].ticket == s.arrived[ordered[i].id])
    && VerdictsReplay(env, files, ordered)
  }

  /** What the waiter of an entry hears. */
  function Heard(s: State, e: Entry): Verdict {
    if !s.running && e.id !in s.completed then Rejected else e.verdict
  }

  /** What the waiters of the entries heard is their verdict, but for those whose `Done` a
      stopped dispatcher never took in; any other waiter that heard something heard the
      rejection of a stopped dispatcher. */
  ghost predicate Told(s: State, ordered: seq<Entry>) {
    && (forall i :: 0 <= i < |ordered| && ordered[i].id in s.verdicts ==>
          s.verdicts[ordered[i].id] == Heard(s, ordered[i]))
    && (forall id :: id in s.verdicts && (forall i :: 0 <= i < |ordered| ==> ordered[i].id != id) ==>
          s.verdicts[id] == Rejected && !s.running)
  }

  /** The sequential reading accounts for the run: the same outcomes, the same workspace,
      and what was told of them. */
  ghost predicate Explains(env: Env, files: Files, s: State, ordered: seq<Entry>) {
    && Sequential(env, files, s, ordered) && Told(s, ordered)
    && (forall q :: Lookup(s.files, q) == Lookup(Replay(env, files, ordered), q))
  }

  /** No applier is at work; tickets may wait, and after a shutdown wait for ever. */
  ghost predicate Quiet(s: State) {
    forall k :: InProgress(s, k) == []
  }

  lemma QuietFiles(env: Env, files: Files, s: State, ordered: seq<Entry>, q: Path)
    requires Quiet(s) && Replays(env, files, s) && Independent(env, s.arrived)
    requires FromArrived(s.arrived, s.log) && SamePerKey(s.log, ordered)
    ensures Lookup(s.files, q) == Lookup(Replay(env, files, ordered), q)
  {
    assert FileKept(env, files, s, q);
    forall k ensures !HoldsTemp(env, s, k, q) { assert InProgress(s, k) == []; }
    ReorderingSameFiles(env, files, s.arrived, s.log, ordered, q);
  }

  lemma OrderedTold(s: State, ordered: seq<Entry>)
    requires Invariant(s) && WaitersKept(s) && forall e :: e in ordered <==> e in s.log
    ensures Told(s, ordered)
  {
    forall i | 0 <= i < |ordered| && ordered[i].id in s.verdicts
      ensures s.verdicts[ordered[i].id] == Heard(s, ordered[i])
    {
      assert ordered[i] in s.log;
      var j :| 0 <= j < |s.log| && s.log[j] == ordered[i];
      ToldOrDropped(s, j);
    }
    forall id | id in s.verdicts && (forall i :: 0 <= i < |ordered| ==> ordered[i].id != id)
      ensures s.verdicts[id] == Rejected && !s.running
    {
      assert ToldKept(s, id);
      assert (id, s.verdicts[id]) !in Outcomes(s.log) by { NoOutcome(s.log, ordered, id, s.verdicts[id]); }
    }
  }

  lemma {:induction false} NoOutcome(log: seq<Entry>, ordered: seq<Entry>, id: nat, verdict: Verdict)
    requires (forall e :: e in log ==> e in ordered) && (forall i :: 0 <= i < |ordered| ==> ordered[i].id != id)
    ensures (id, verdict) !in Outcomes(log)
  {
    if log != [] {
      assert log[|log| - 1] in ordered;
      NoOutcome(log[..|log| - 1], ordered, id, verdict);
    }
  }

  lemma QuietIsExplained(env: Env, files: Files, s: State)
    requires Invariant(s) && WaitersKept(s) && Replays(env, files, s) && Quiet(s) && Independent(env, s.arrived)
    ensures Explains(env, files, s, ArrivalOrder(s.log, |s.arrived|))
  {
    var ordered := ArrivalOrder(s.log, |s.arrived|);
    LogInArrivalOrder(s);
    ArrivalOrderIs(s.arrived, s.log, |s.arrived|);
    ArrivalOrderSamePerKey(s.arrived, s.log);
    SamePerKeyFrom(s.arrived, s.log, ordered);
    forall k ensures NoDuplicates(Ids(Of(s.log, k))) { ArrivedIdsAscend(s.arrived, k); }
    ReorderingSameVerdicts(env, files, s.arrived, s.log, ordered);
    forall q ensures Lookup(s.files, q) == Lookup(Replay(env, files, ordered), q) {
      QuietFiles(env, files, s, ordered, q);
    }
    forall e ensures e in ordered <==> e in s.log {
      if e in s.log { assert e.id < |s.arrived|; }
    }
    OrderedTold(s, ordered);
  }

  /** Whenever no applier is at work, also after a shutdown, concurrency has left no trace:
      workspace and outcomes are those of applying the dispatched tickets one by one in the
      order they arrived. */
  lemma QuietIsSequential(env: Env, files: Files, events: seq<Event>)
    requires Legal(env, files, events)
    requires Quiet(After(env, files, events)) && Independent(env, After(env, files, events).arrived)
    ensures exists ordered :: Explains(env, files, After(env, files, events), ordered)
  {
    var s := After(env, files, events);
    EveryRunKeepsOrder(env, files, events);
    EveryRunKeepsWaiters(env, files, events);
    EveryRunReplays(env, files, events);
    QuietIsExplained(env, files, s);
  }

  /** Once every ticket is settled none is missing from that reading, and as long as the
      dispatcher runs every waiter has been told its ticket's verdict in it. */
  lemma SettledIsSequential(env: Env, files: Files, events: seq<Event>)
    requires Legal(env, files, events)
    requires Settled(After(env, files, events)) && Independent(env, After(env, files, events).arrived)
    ensures exists ordered :: FullyExplains(env, files, After(env, files, events), ordered)
  {
    var s := After(env, files, events);
    EveryRunKeepsOrder(env, files, events);
    EveryRunKeepsWaiters(env, files, events);
    EveryRunReplays(env, files, events);
    forall id | 0 <= id < |s.arrived| ensures Logged(s.log, id) {
      SettledIsLogged(env, files, events, s.arrived[id].key);
      EveryTicketLogged(s.arrived, s.log, id);
    }
    SettledIsExplained(env, files, s);
  }

  /** The reading has every ticket at its own number. */
  ghost predicate FullyExplains(env: Env, files: Files, s: State, ordered: seq<Entry>) {
    && Explains(env, files, s, ordered) && |ordered| == |s.arrived|
    && (forall i :: 0 <= i < |ordered| ==> ordered[i].id == i)
    && (s.running ==> forall id :: id in s.verdicts ==> id < |ordered| && s.verdicts[id] == ordered[id].verdict)
  }

  lemma SettledIsExplained(env: Env, files: Files, s: State)
    requires Invariant(s) && WaitersKept(s) && Replays(env, files, s) && Settled(s) && Independent(env, s.arrived)
    requires forall id :: 0 <= id < |s.arrived| ==> Logged(s.log, id)
    ensures exists ordered :: FullyExplains(env, files, s, ordered)
  {
    var ordered := ArrivalOrder(s.log, |s.arrived|);
    QuietIsExplained(env, files, s);
    ArrivalOrderFull(s.log, |s.arrived|);
    if s.running { RunningTold(s, ordered); }
    assert FullyExplains(env, files, s, ordered);
  }

  lemma RunningTold(s: State, ordered: seq<Entry>)
    requires s.running && Told(s, ordered) && forall i :: 0 <= i < |ordered| ==> ordered[i].id == i
    ensures forall id :: id in s.verdicts ==> id < |ordered| && s.verdicts[id] == ordered[id].verdict
  {
    forall id | id in s.verdicts ensures id < |ordered| && s.verdicts[id] == ordered[id].verdict {
      if id < |ordered| { assert ordered[id].id == id; }
    }
  }
}
