/** Two full writes under different keys, both accepted on the workspace they find: every
    interleaving is explained by applying them one by one exactly when their footprints are
    disjoint. Aliased keys, a shared temp file and a write to another ticket's temp file each
    have a run that goes wrong. */
module QueuePairs {
  import opened Text
  import opened Tickets
  import opened QueueSpec
  import opened QueueOrder
  import opened QueueFiles
  import opened QueueTheorems

  ghost predicate Reachable(env: Env, files: Files, s: State) {
    exists events :: Legal(env, files, events) && After(env, files, events) == s
  }

  lemma ReachNext(env: Env, files: Files, s: State, e: Event)
    requires Reachable(env, files, s) && Enabled(s, e)
    ensures Reachable(env, files, Next(env, s, e))
  {
    var events :| Legal(env, files, events) && After(env, files, events) == s;
    var longer := events + [e];
    assert longer[..|longer| - 1] == events;
    assert Legal(env, files, longer) && After(env, files, longer) == Next(env, s, e);
  }

  /** A create or replace whose version check passes on the workspace, whatever its base. */
  predicate Accepted(env: Env, files: Files, t: Ticket) {
    && (t.op == Create || t.op == Replace) && env.resolve(t.key).Some?
    && !Stale(env, t, Lookup(files, env.resolve(t.key).value))
  }

  function PathOf(env: Env, t: Ticket): Path
    requires env.resolve(t.key).Some?
  {
    env.resolve(t.key).value
  }

  function TempOf(env: Env, t: Ticket): Path
    requires env.resolve(t.key).Some?
  {
    env.temp(PathOf(env, t))
  }

  predicate AcceptedPair(env: Env, files: Files, t1: Ticket, t2: Ticket) {
    Accepted(env, files, t1) && Accepted(env, files, t2) && t1.key != t2.key
  }

  /** Both tickets have arrived on an idle queue; their appliers are where the phases say. */
  function Pair(files: Files, t1: Ticket, phase1: Phase, t2: Ticket, phase2: Phase, log: seq<Entry>): State {
    State(files, map[], map[t1.key := Job(0, t1, phase1), t2.key := Job(1, t2, phase2)],
          map[], true, map[], {}, [t1, t2], log, [], map[])
  }

  function Todo(env: Env, t: Ticket): Phase
    requires env.resolve(t.key).Some?
  {
    Planned(PathOf(env, t), Put(t.payload), false)
  }

  function Held(env: Env, t: Ticket): Phase
    requires env.resolve(t.key).Some?
  {
    Written(PathOf(env, t), t.payload, false)
  }

  // ------------------------------------------------------------- steps

  lemma SwapJob(files: Files, t1: Ticket, t2: Ticket, phase1: Phase, phase2: Phase, other: Phase, log: seq<Entry>)
    requires t1.key != t2.key
    ensures var jobs := Pair(files, t1, phase1, t2, phase2, log).jobs;
            && jobs[t1.key := Job(0, t1, other)] == Pair(files, t1, other, t2, phase2, log).jobs
            && jobs[t2.key := Job(1, t2, other)] == Pair(files, t1, phase1, t2, other, log).jobs
  {
  }

  lemma BothArrive(env: Env, files: Files, t1: Ticket, t2: Ticket)
    requires t1.key != t2.key
    ensures Reachable(env, files, Pair(files, t1, Begun, t2, Begun, []))
  {
    var s0 := Start(files);
    assert Legal(env, files, []) && After(env, files, []) == s0;
    ReachNext(env, files, s0, Submit(t1));
    var s1 := OnSubmit(s0, t1);
    ReachNext(env, files, s1, Submit(t2));
    assert OnSubmit(s1, t2) == Pair(files, t1, Begun, t2, Begun, []);
  }

  /** Both have passed their version checks; nothing is written yet. */
  lemma BothPlanned(env: Env, files: Files, t1: Ticket, t2: Ticket)
    requires AcceptedPair(env, files, t1, t2)
    ensures Reachable(env, files, Pair(files, t1, Todo(env, t1), t2, Todo(env, t2), []))
  {
    BothArrive(env, files, t1, t2);
    SwapJob(files, t1, t2, Begun, Begun, Todo(env, t1), []);
    ReachNext(env, files, Pair(files, t1, Begun, t2, Begun, []), Work(t1.key, NoFault));
    SwapJob(files, t1, t2, Todo(env, t1), Begun, Todo(env, t2), []);
    ReachNext(env, files, Pair(files, t1, Todo(env, t1), t2, Begun, []), Work(t2.key, NoFault));
  }

  /** The first ticket's applier writes its temp file, or finishes its rename. */
  lemma FirstWrites(env: Env, files: Files, now: Files, t1: Ticket, t2: Ticket, phase2: Phase, log: seq<Entry>)
    requires AcceptedPair(env, files, t1, t2)
    requires Reachable(env, files, Pair(now, t1, Todo(env, t1), t2, phase2, log))
    ensures Reachable(env, files, Pair(now[TempOf(env, t1) := t1.payload], t1, Held(env, t1), t2, phase2, log))
  {
    SwapJob(now, t1, t2, Todo(env, t1), phase2, Held(env, t1), log);
    ReachNext(env, files, Pair(now, t1, Todo(env, t1), t2, phase2, log), Work(t1.key, NoFault));
  }

  lemma SecondWrites(env: Env, files: Files, now: Files, t1: Ticket, t2: Ticket, phase1: Phase, log: seq<Entry>)
    requires AcceptedPair(env, files, t1, t2)
    requires Reachable(env, files, Pair(now, t1, phase1, t2, Todo(env, t2), log))
    ensures Reachable(env, files, Pair(now[TempOf(env, t2) := t2.payload], t1, phase1, t2, Held(env, t2), log))
  {
    SwapJob(now, t1, t2, phase1, Todo(env, t2), Held(env, t2), log);
    ReachNext(env, files, Pair(now, t1, phase1, t2, Todo(env, t2), log), Work(t2.key, NoFault));
  }

  /** The outcome of the final rename, in whatever workspace it happens. */
  function Last(env: Env, files: Files, id: nat, t: Ticket): (Files, Entry)
    requires env.resolve(t.key).Some?
  {
    if TempOf(env, t) in files then
      (Move(files, TempOf(env, t), PathOf(env, t)), Entry(id, t, NoFault, Applied))
    else (files, Entry(id, t, RenameFails, Rejected))
  }

  lemma FirstRenames(env: Env, files: Files, now: Files, t1: Ticket, t2: Ticket, phase2: Phase, log: seq<Entry>)
    requires AcceptedPair(env, files, t1, t2)
    requires Reachable(env, files, Pair(now, t1, Held(env, t1), t2, phase2, log))
    ensures var (after, e) := Last(env, now, 0, t1);
            Reachable(env, files, Pair(after, t1, Finished(e.verdict), t2, phase2, log + [e]))
  {
    var (after, e) := Last(env, now, 0, t1);
    SwapJob(now, t1, t2, Held(env, t1), phase2, Finished(e.verdict), log);
    ReachNext(env, files, Pair(now, t1, Held(env, t1), t2, phase2, log), Work(t1.key, NoFault));
  }

  lemma SecondRenames(env: Env, files: Files, now: Files, t1: Ticket, t2: Ticket, phase1: Phase, log: seq<Entry>)
    requires AcceptedPair(env, files, t1, t2)
    requires Reachable(env, files, Pair(now, t1, phase1, t2, Held(env, t2), log))
    ensures var (after, e) := Last(env, now, 1, t2);
            Reachable(env, files, Pair(after, t1, phase1, t2, Finished(e.verdict), log + [e]))
  {
    var (after, e) := Last(env, now, 1, t2);
    SwapJob(now, t1, t2, phase1, Held(env, t2), Finished(e.verdict), log);
    ReachNext(env, files, Pair(now, t1, phase1, t2, Held(env, t2), log), Work(t2.key, NoFault));
  }

  // ------------------------------------------------------------- the runs

  function Installed(env: Env, files: Files, t: Ticket): Files
    requires env.resolve(t.key).Some?
  {
    Move(files[TempOf(env, t) := t.payload], TempOf(env, t), PathOf(env, t))
  }

  /** Both check, then the second ticket writes and renames, then the first. */
  lemma SecondOvertakes(env: Env, files: Files, t1: Ticket, t2: Ticket) returns (s: State)
    requires AcceptedPair(env, files, t1, t2)
    ensures Reachable(env, files, s)
    ensures s == Pair(Installed(env, Installed(env, files, t2), t1), t1, Finished(Applied), t2, Finished(Applied),
                      [Entry(1, t2, NoFault, Applied), Entry(0, t1, NoFault, Applied)])
  {
    var e2, e1 := Entry(1, t2, NoFault, Applied), Entry(0, t1, NoFault, Applied);
    BothPlanned(env, files, t1, t2);
    SecondWrites(env, files, files, t1, t2, Todo(env, t1), []);
    SecondRenames(env, files, files[TempOf(env, t2) := t2.payload], t1, t2, Todo(env, t1), []);
    var now := Installed(env, files, t2);
    assert [] + [e2] == [e2];
    FirstWrites(env, files, now, t1, t2, Finished(Applied), [e2]);
    FirstRenames(env, files, now[TempOf(env, t1) := t1.payload], t1, t2, Finished(Applied), [e2]);
    assert [e2] + [e1] == [e2, e1];
    s := Pair(Installed(env, now, t1), t1, Finished(Applied), t2, Finished(Applied), [e2, e1]);
  }

  /** Both check and write their temp file, a shared one, then the first renames it away. */
  lemma BothHold(env: Env, files: Files, t1: Ticket, t2: Ticket) returns (s: State)
    requires AcceptedPair(env, files, t1, t2) && TempOf(env, t1) == TempOf(env, t2) != PathOf(env, t1)
    ensures Reachable(env, files, s)
    ensures var held := files[TempOf(env, t1) := t1.payload][TempOf(env, t2) := t2.payload];
            s == Pair(Move(held, TempOf(env, t1), PathOf(env, t1)), t1, Finished(Applied), t2, Finished(Rejected),
                      [Entry(0, t1, NoFault, Applied), Entry(1, t2, RenameFails, Rejected)])
  {
    var e1, e2 := Entry(0, t1, NoFault, Applied), Entry(1, t2, RenameFails, Rejected);
    var held := files[TempOf(env, t1) := t1.payload][TempOf(env, t2) := t2.payload];
    var after := Move(held, TempOf(env, t1), PathOf(env, t1));
    BothPlanned(env, files, t1, t2);
    FirstWrites(env, files, files, t1, t2, Todo(env, t2), []);
    SecondWrites(env, files, files[TempOf(env, t1) := t1.payload], t1, t2, Held(env, t1), []);
    FirstRenames(env, files, held, t1, t2, Held(env, t2), []);
    assert [] + [e1] == [e1];
    SecondRenames(env, files, after, t1, t2, Finished(Applied), [e1]);
    assert [e1] + [e2] == [e1, e2];
    s := Pair(after, t1, Finished(Applied), t2, Finished(Rejected), [e1, e2]);
  }

  /** Both check, the second ticket's write fails and leaves `residue`, then the first goes through. */
  lemma SecondFails(env: Env, files: Files, t1: Ticket, t2: Ticket, residue: Content) returns (s: State)
    requires AcceptedPair(env, files, t1, t2)
    ensures Reachable(env, files, s)
    ensures s == Pair(Installed(env, files[TempOf(env, t2) := residue], t1), t1, Finished(Applied), t2, Finished(Rejected),
                      [Entry(1, t2, WriteFails(Some(residue)), Rejected), Entry(0, t1, NoFault, Applied)])
  {
    var fault := WriteFails(Some(residue));
    var e2, e1 := Entry(1, t2, fault, Rejected), Entry(0, t1, NoFault, Applied);
    var now := files[TempOf(env, t2) := residue];
    BothPlanned(env, files, t1, t2);
    SwapJob(files, t1, t2, Todo(env, t1), Todo(env, t2), Finished(Rejected), []);
    ReachNext(env, files, Pair(files, t1, Todo(env, t1), t2, Todo(env, t2), []), Work(t2.key, fault));
    assert [] + [e2] == [e2];
    FirstWrites(env, files, now, t1, t2, Finished(Rejected), [e2]);
    FirstRenames(env, files, now[TempOf(env, t1) := t1.payload], t1, t2, Finished(Rejected), [e2]);
    assert [e2] + [e1] == [e2, e1];
    s := Pair(Installed(env, now, t1), t1, Finished(Applied), t2, Finished(Rejected), [e2, e1]);
  }

  // ------------------------------------------------------------- runs that go wrong

  /** The two outcomes on record, in one order or the other. */
  predicate BothLogged(log: seq<Entry>, e1: Entry, e2: Entry) {
    e1.id == 0 && e2.id == 1 && (log == [e1, e2] || log == [e2, e1])
  }

  ghost predicate Unexplained(env: Env, files: Files, s: State) {
    Reachable(env, files, s) && Settled(s) && !exists ordered :: Explains(env, files, s, ordered)
  }

  lemma OnlyOrder(s: State, e1: Entry, e2: Entry, ordered: seq<Entry>)
    requires BothLogged(s.log, e1, e2) && Ascending(ordered) && forall e :: e in ordered <==> e in s.log
    ensures ordered == [e1, e2]
  {
    forall e ensures e in ordered <==> e in [e1, e2] { assert e in s.log <==> e in [e1, e2]; }
    AscendingUnique(ordered, [e1, e2]);
  }

  /** What applying the two one by one makes of them. */
  ghost function OneByOne(env: Env, files: Files, e1: Entry, e2: Entry): (Files, Verdict) {
    ApplyTicket(env, ApplyTicket(env, files, e1.ticket, e1.fault).0, e2.ticket, e2.fault)
  }

  lemma ExplainedOneByOne(env: Env, files: Files, s: State, e1: Entry, e2: Entry, ordered: seq<Entry>, q: Path)
    requires BothLogged(s.log, e1, e2) && Explains(env, files, s, ordered)
    ensures OneByOne(env, files, e1, e2).1 == e2.verdict
    ensures Lookup(s.files, q) == Lookup(OneByOne(env, files, e1, e2).0, q)
  {
    OnlyOrder(s, e1, e2, ordered);
    assert [e1, e2][..1] == [e1] && [e1][..0] == [];
    assert Replay(env, files, [e1]) == ApplyTicket(env, files, e1.ticket, e1.fault).0;
    assert [e1, e2][1] == e2;
  }

  /** A settled run whose second verdict, or whose content somewhere, is not that of applying
      the tickets one by one. */
  lemma GoesWrong(env: Env, files: Files, s: State, e1: Entry, e2: Entry, q: Path)
    requires Reachable(env, files, s) && BothLogged(s.log, e1, e2) && s.inbox == map[]
    requires forall k :: k in s.jobs ==> s.jobs[k].phase.Finished?
    requires OneByOne(env, files, e1, e2).1 != e2.verdict
          || Lookup(s.files, q) != Lookup(OneByOne(env, files, e1, e2).0, q)
    ensures Unexplained(env, files, s)
  {
    forall ordered ensures !Explains(env, files, s, ordered) {
      if Explains(env, files, s, ordered) { ExplainedOneByOne(env, files, s, e1, e2, ordered, q); }
    }
  }

  /** The first ticket one by one: installed. The second then: refused, or executed. */
  lemma FirstInstalls(env: Env, files: Files, t: Ticket)
    requires Accepted(env, files, t)
    ensures ApplyTicket(env, files, t, NoFault) == (Installed(env, files, t), Applied)
    ensures Lookup(Installed(env, files, t), PathOf(env, t)) == Some(t.payload)
    ensures forall q :: q !in {PathOf(env, t), TempOf(env, t)} ==> Lookup(Installed(env, files, t), q) == Lookup(files, q)
    ensures TempOf(env, t) != PathOf(env, t) ==> Lookup(Installed(env, files, t), TempOf(env, t)) == None
  {
  }

  lemma SecondIs(env: Env, mid: Files, t: Ticket, fault: Fault)
    requires (t.op == Create || t.op == Replace) && env.resolve(t.key).Some? && !fault.ReadFails?
    ensures ApplyTicket(env, mid, t, fault) ==
              if Stale(env, t, Lookup(mid, PathOf(env, t))) then (mid, Rejected)
              else Execute(env, mid, PathOf(env, t), Put(t.payload), fault)
  {
  }

  /** Aliased keys: the ticket that arrived first is applied last, or the second is turned down
      for a temp file that the first has taken away. */
  lemma AliasGoesWrong(env: Env, files: Files, t1: Ticket, t2: Ticket) returns (s: State)
    requires AcceptedPair(env, files, t1, t2) && PathOf(env, t1) == PathOf(env, t2)
    ensures Unexplained(env, files, s) && s.arrived == [t1, t2]
  {
    var p, tmp := PathOf(env, t1), TempOf(env, t1);
    var e1, mid := Entry(0, t1, NoFault, Applied), Installed(env, files, t1);
    FirstInstalls(env, files, t1);
    if Stale(env, t2, Some(t1.payload)) || t1.payload != t2.payload {
      s := SecondOvertakes(env, files, t1, t2);
      SecondIs(env, mid, t2, NoFault);
      GoesWrong(env, files, s, e1, Entry(1, t2, NoFault, Applied), p);
    } else if tmp != p {
      s := BothHold(env, files, t1, t2);
      SecondIs(env, mid, t2, RenameFails);
      GoesWrong(env, files, s, e1, Entry(1, t2, RenameFails, Rejected), tmp);
    } else {
      var residue := t1.payload + "x";
      s := SecondFails(env, files, t1, t2, residue);
      SecondIs(env, mid, t2, WriteFails(Some(residue)));
      GoesWrong(env, files, s, e1, Entry(1, t2, WriteFails(Some(residue)), Rejected), p);
    }
  }

  /** One temp file for two paths: the first applier installs the second one's text under
      its own path and reports success; the second finds nothing to rename. */
  lemma SharedTempGoesWrong(env: Env, files: Files, t1: Ticket, t2: Ticket) returns (s: State)
    requires AcceptedPair(env, files, t1, t2) && PathOf(env, t1) != PathOf(env, t2)
    requires TempOf(env, t1) == TempOf(env, t2) && TempOf(env, t1) !in {PathOf(env, t1), PathOf(env, t2)}
    ensures Unexplained(env, files, s) && s.arrived == [t1, t2]
    ensures Lookup(s.files, PathOf(env, t1)) == Some(t2.payload) && Entry(0, t1, NoFault, Applied) in s.log
  {
    var e1, mid := Entry(0, t1, NoFault, Applied), Installed(env, files, t1);
    FirstInstalls(env, files, t1);
    s := BothHold(env, files, t1, t2);
    SecondIs(env, mid, t2, RenameFails);
    GoesWrong(env, files, s, e1, Entry(1, t2, RenameFails, Rejected), TempOf(env, t1));
  }

  /** The first ticket writes where the second keeps its temp file: one by one the second moves
      the first one's file away, overtaking it does not. */
  lemma PathIsTempGoesWrong(env: Env, files: Files, t1: Ticket, t2: Ticket) returns (s: State)
    requires AcceptedPair(env, files, t1, t2) && PathOf(env, t1) != PathOf(env, t2)
    requires PathOf(env, t1) == TempOf(env, t2)
    ensures Unexplained(env, files, s) && s.arrived == [t1, t2]
  {
    var e1, mid := Entry(0, t1, NoFault, Applied), Installed(env, files, t1);
    FirstInstalls(env, files, t1);
    s := SecondOvertakes(env, files, t1, t2);
    SecondIs(env, mid, t2, NoFault);
    GoesWrong(env, files, s, e1, Entry(1, t2, NoFault, Applied), PathOf(env, t1));
  }

  /** ... and the other way round: the overtaken first ticket moves the second one's file away. */
  lemma TempIsPathGoesWrong(env: Env, files: Files, t1: Ticket, t2: Ticket) returns (s: State)
    requires AcceptedPair(env, files, t1, t2) && PathOf(env, t1) !in {PathOf(env, t2), TempOf(env, t2)}
    requires PathOf(env, t2) == TempOf(env, t1)
    ensures Unexplained(env, files, s) && s.arrived == [t1, t2]
  {
    var e1, mid := Entry(0, t1, NoFault, Applied), Installed(env, files, t1);
    FirstInstalls(env, files, t1);
    s := SecondOvertakes(env, files, t1, t2);
    SecondIs(env, mid, t2, NoFault);
    GoesWrong(env, files, s, e1, Entry(1, t2, NoFault, Applied), PathOf(env, t2));
  }

  // ------------------------------------------------------------- exactly

  ghost predicate AlwaysExplained(env: Env, files: Files, arrived: seq<Ticket>) {
    forall s :: Reachable(env, files, s) && Settled(s) && s.arrived == arrived
      ==> exists ordered :: Explains(env, files, s, ordered)
  }

  lemma DisjointIsExplained(env: Env, files: Files, t1: Ticket, t2: Ticket, s: State)
    requires Footprint(env, t1) !! Footprint(env, t2)
    requires Reachable(env, files, s) && Settled(s) && s.arrived == [t1, t2]
    ensures exists ordered :: Explains(env, files, s, ordered)
  {
    var events :| Legal(env, files, events) && After(env, files, events) == s;
    assert Independent(env, s.arrived);
    SettledIsSequential(env, files, events);
    var ordered :| FullyExplains(env, files, s, ordered);
    assert Explains(env, files, s, ordered);
  }

  /** Two accepted full writes are safe to run concurrently exactly when their footprints are
      disjoint, whatever their bases and contents. */
  lemma ConcurrencySafeExactly(env: Env, files: Files, t1: Ticket, t2: Ticket)
    requires AcceptedPair(env, files, t1, t2)
    ensures AlwaysExplained(env, files, [t1, t2]) <==> Footprint(env, t1) !! Footprint(env, t2)
  {
    if Footprint(env, t1) !! Footprint(env, t2) {
      forall s | Reachable(env, files, s) && Settled(s) && s.arrived == [t1, t2]
        ensures exists ordered :: Explains(env, files, s, ordered)
      {
        DisjointIsExplained(env, files, t1, t2, s);
      }
    } else {
      var s: State;
      if PathOf(env, t1) == PathOf(env, t2) {
        s := AliasGoesWrong(env, files, t1, t2);
      } else if PathOf(env, t1) == TempOf(env, t2) {
        s := PathIsTempGoesWrong(env, files, t1, t2);
      } else if PathOf(env, t2) == TempOf(env, t1) {
        s := TempIsPathGoesWrong(env, files, t1, t2);
      } else {
        assert TempOf(env, t1) == TempOf(env, t2);
        s := SharedTempGoesWrong(env, files, t1, t2);
      }
    }
  }
}
