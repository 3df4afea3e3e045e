/** What one tick does to one task, and to whom a free slot goes
    (rolen-orchestrator/src/scheduler.rs:254-521). */
module SchedulerTicks {
  import opened Text
  import opened Dag
  import opened SchedulerSpec
  import opened SchedulerSafety
  import opened SchedulerRuns

  // ------------------------------------------------------------- why a task moves

  /** Only pending tasks change their status. */
  ghost predicate OthersStay(g: World, g': World) {
    |g'.parts| == |g.parts| && forall i: nat, id, s :: s != Pending && Is(g, i, id, s) ==> Is(g', i, id, s)
  }

  /** A task that was pending still is, or failed behind a failed dependency, or runs with all
      its dependencies done, no question among them and none of its files claimed before. */
  ghost predicate Justified(ps: seq<Project>, g: World, g': World, i: nat, t: Task)
    requires |ps| == |g.parts|
  {
    TaskIs(ps, g, i, t, Pending) ==>
      || Is(g', i, t.id, Pending)
      || (Is(g', i, t.id, Failed) && exists d :: d in t.deps && Is(g', i, d, Failed))
      || (&& Is(g', i, t.id, Running) && (forall d :: d in t.deps ==> Is(g', i, d, Done))
          && !Blocked(ps[i].spec, t.id, g.parts[i].questions)
          && forall rel :: rel in t.claims ==> ClaimKey(ps[i].workdir, rel) !in g.claimed)
  }

  lemma ScanTaskJustifies(ps: seq<Project>, g: World, i: nat, t: Task, slots: nat, j: nat, u: Task)
    requires i < |ps| == |g.parts| && UniqueIds(ps[i].spec) && t in ps[i].spec
    ensures OthersStay(g, ScanTask(ps, g, i, t, slots).0) && Justified(ps, g, ScanTask(ps, g, i, t, slots).0, j, u)
  {
    var g' := ScanTask(ps, g, i, t, slots).0;
    if j == i && u in ps[i].spec { TaskClaims(ps[i], u); TaskClaims(ps[i], t); }
    if g' == Fail(g, i, t.id) && g' != g {
      assert Moves(g, g', i, t.id, Pending, Failed);
    } else if g' != g {
      assert Moves(g, g', i, t.id, Pending, Running);
    }
  }

  lemma JustifiedOn(ps: seq<Project>, g: World, g1: World, g': World, i: nat, t: Task)
    requires |ps| == |g.parts| == |g1.parts| && Quiet(g, g1) && OthersStay(g1, g')
    requires Justified(ps, g, g1, i, t) && Justified(ps, g1, g', i, t)
    ensures Justified(ps, g, g', i, t)
  {
    if TaskIs(ps, g, i, t, Pending) && Is(g1, i, t.id, Failed) {
      var d :| d in t.deps && Is(g1, i, d, Failed);
      assert Is(g', i, d, Failed);
    }
  }

  lemma {:induction false} ScanTasksJustify(ps: seq<Project>, g: World, i: nat, tasks: seq<Task>, slots: nat, j: nat, u: Task)
    requires i < |ps| == |g.parts| && UniqueIds(ps[i].spec) && forall t :: t in tasks ==> t in ps[i].spec
    ensures OthersStay(g, ScanTasks(ps, g, i, tasks, slots).0) && Justified(ps, g, ScanTasks(ps, g, i, tasks, slots).0, j, u)
    decreases tasks
  {
    if tasks != [] {
      assert tasks[0] in ps[i].spec;
      ScanTaskJustifies(ps, g, i, tasks[0], slots, j, u);
      ScanTaskIsQuiet(ps, g, i, tasks[0], slots);
      var (g1, slots1) := ScanTask(ps, g, i, tasks[0], slots);
      ScanTasksJustify(ps, g1, i, tasks[1..], slots1, j, u);
      JustifiedOn(ps, g, g1, ScanTasks(ps, g1, i, tasks[1..], slots1).0, j, u);
    }
  }

  lemma {:induction false} ScanJustifies(ps: seq<Project>, g: World, visit: seq<nat>, slots: nat, j: nat, u: Task)
    requires Validated(ps) && |ps| == |g.parts| && forall k :: 0 <= k < |visit| ==> visit[k] < |ps|
    ensures OthersStay(g, ScanProjects(ps, g, visit, slots).0) && Justified(ps, g, ScanProjects(ps, g, visit, slots).0, j, u)
    decreases visit
  {
    if visit != [] {
      var i := visit[0];
      ScanTasksJustify(ps, g, i, ps[i].spec, slots, j, u);
      TasksLeaveNoneReady(ps, g, i, ps[i].spec, slots);
      var (g1, slots1) := ScanTasks(ps, g, i, ps[i].spec, slots);
      ScanJustifies(ps, g1, visit[1..], slots1, j, u);
      JustifiedOn(ps, g, g1, ScanProjects(ps, g1, visit[1..], slots1).0, j, u);
    }
  }

  lemma {:induction false} HarvestIdsSpares(ps: seq<Project>, g: World, i: nat, ids: seq<string>,
      present: set<(string, string)>, j: nat, id: string)
    requires i < |ps| == |g.parts| && (j == i ==> id !in ids)
    ensures forall s :: Is(HarvestIds(ps, g, i, ids, present), j, id, s) <==> Is(g, j, id, s)
    decreases ids
  {
    if ids != [] { HarvestIdsSpares(ps, HarvestOne(ps, g, i, ids[0], present), i, ids[1..], present, j, id); }
  }

  /** The harvest touches only the tasks it takes in. */
  lemma {:induction false} HarvestSpares(ps: seq<Project>, g: World, i: nat, orders: seq<seq<string>>,
      present: set<(string, string)>, j: nat, id: string)
    requires |ps| == |g.parts| == |orders| && i <= |ps| && (j < |ps| ==> id !in orders[j])
    ensures forall s :: Is(HarvestAll(ps, g, i, orders, present), j, id, s) <==> Is(g, j, id, s)
    decreases |ps| - i
  {
    if i < |ps| {
      HarvestIdsSpares(ps, g, i, orders[i], present, j, id);
      HarvestSpares(ps, HarvestIds(ps, g, i, orders[i], present), i + 1, orders, present, j, id);
    }
  }

  /** What a tick can do to a task that it does not take in: a running one runs on; a pending one
      stays, fails behind a failed dependency, or starts with all dependencies done and no
      question among those it reaches. */
  ghost predicate MovedWithReason(ps: seq<Project>, g: World, g': World, questions: set<string>, i: nat, t: Task)
    requires i < |ps|
  {
    && (Is(g, i, t.id, Running) ==> Is(g', i, t.id, Running))
    && (Is(g, i, t.id, Pending) ==>
          || Is(g', i, t.id, Pending)
          || (Is(g', i, t.id, Failed) && exists d :: d in t.deps && Is(g', i, d, Failed))
          || (&& Is(g', i, t.id, Running) && (forall d :: d in t.deps ==> Is(g', i, d, Done))
              && !Blocked(ps[i].spec, t.id, questions)))
  }

  lemma AskedStatus(g: World, questions: seq<set<string>>)
    requires |questions| == |g.parts|
    ensures forall i: nat, id, s :: Is(Ask(g, questions), i, id, s) <==> Is(g, i, id, s)
  {
  }

  lemma ScanMovesWithReason(ps: seq<Project>, max: nat, h: World, questions: seq<set<string>>, first: nat, i: nat, t: Task)
    requires Validated(ps) && |ps| == |h.parts| == |questions| && i < |ps| && t in ps[i].spec
    ensures MovedWithReason(ps, h, Scan(ps, max, h, questions, first), questions[i], i, t)
  {
    var a := Ask(h, questions);
    AskedStatus(h, questions);
    var running := RunningTotal(a);
    ScanJustifies(ps, a, Rotation(|ps|, first), if running <= max then max - running else 0, i, t);
  }

  lemma EachMoveHasItsReason(ps: seq<Project>, max: nat, g: World, e: Event, i: nat, t: Task)
    requires Validated(ps) && |ps| == |g.parts| && e.Tick? && Enabled(g, e)
    requires i < |ps| && t in ps[i].spec && t.id !in e.orders[i]
    ensures MovedWithReason(ps, g, Next(ps, max, g, e), e.questions[i], i, t)
  {
    HarvestSpares(ps, g, 0, e.orders, e.present, i, t.id);
    ScanMovesWithReason(ps, max, HarvestAll(ps, g, 0, e.orders, e.present), e.questions, e.first, i, t);
  }

  // ------------------------------------------------------------- where the slots go

  /** After a tick all is settled, or every slot is taken, or every task that is ready waits for
      a file. */
  lemma TickFillsSlots(ps: seq<Project>, max: nat, g: World, e: Event)
    requires Validated(ps) && Invariant(ps, max, g) && e.Tick? && Enabled(g, e)
    ensures var g' := Next(ps, max, g, e);
      || Settled(g') || RunningTotal(g') == max
      || forall i: nat, t :: i < |ps| && t in ps[i].spec && Ready(ps, g', i, t) ==> ClaimTaken(ps[i], g', t)
  {
    var h := HarvestAll(ps, g, 0, e.orders, e.present);
    DrainsAreLists(g, e.orders);
    HarvestAllKeeps(ps, max, g, 0, e.orders, e.present);
    if !Settled(h) { ScanFillsSlots(ps, max, h, e.questions, e.first); }
  }

  lemma ScanFillsSlots(ps: seq<Project>, max: nat, h: World, questions: seq<set<string>>, first: nat)
    requires Validated(ps) && Invariant(ps, max, h) && |questions| == |h.parts| && !Settled(h)
    ensures var g' := Scan(ps, max, h, questions, first);
      || RunningTotal(g') == max
      || forall i: nat, t :: i < |ps| && t in ps[i].spec && Ready(ps, g', i, t) ==> ClaimTaken(ps[i], g', t)
  {
    var a, visit := Ask(h, questions), Rotation(|ps|, first);
    AskKeeps(ps, max, h, questions);
    var slots := max - RunningTotal(a);
    ScanProjectsKeeps(ps, max, a, visit, slots);
    NoIdleSlot(ps, a, visit, slots);
    forall i: nat | i < |ps| ensures i in visit { RotationVisitsAll(|ps|, first, i); }
  }

  /** A ready task whose files are free. */
  ghost predicate Startable(ps: seq<Project>, g: World, i: nat, t: Task)
    requires i < |ps| == |g.parts|
  {
    t in ps[i].spec && Ready(ps, g, i, t) && !ClaimTaken(ps[i], g, t)
  }

  /** A scan of one task starts it, or leaves every other startable task startable. */
  lemma ScanTaskLeavesStartable(ps: seq<Project>, g: World, i: nat, t: Task, slots: nat, u: Task)
    requires i < |ps| == |g.parts| && UniqueIds(ps[i].spec) && t in ps[i].spec && slots > 0 && Startable(ps, g, i, u)
    ensures var (g', slots') := ScanTask(ps, g, i, t, slots);
      if slots' < slots then Is(g, i, t.id, Pending) && Is(g', i, t.id, Running) else slots' == slots && t != u && Startable(ps, g', i, u)
  {
    TaskClaims(ps[i], u);
    TaskClaims(ps[i], t);
    assert forall d :: d in u.deps ==> Is(g, i, d, Done);
    var (g', slots') := ScanTask(ps, g, i, t, slots);
    if g' != g && slots' == slots {
      assert g' == Fail(g, i, t.id);
      assert forall d :: d in u.deps ==> Is(g', i, d, Done);
    }
  }

  lemma {:induction false} SomeTaskStarts(ps: seq<Project>, g: World, i: nat, tasks: seq<Task>, slots: nat, u: Task)
      returns (id: string)
    requires i < |ps| == |g.parts| && UniqueIds(ps[i].spec) && forall t :: t in tasks ==> t in ps[i].spec
    requires slots > 0 && u in tasks && Startable(ps, g, i, u)
    ensures Is(g, i, id, Pending) && Is(ScanTasks(ps, g, i, tasks, slots).0, i, id, Running)
    decreases tasks
  {
    var t := tasks[0];
    ScanTaskLeavesStartable(ps, g, i, t, slots, u);
    ScanTaskIsQuiet(ps, g, i, t, slots);
    var (g1, slots1) := ScanTask(ps, g, i, t, slots);
    if slots1 < slots {
      id := t.id;
      ScanTasksJustify(ps, g1, i, tasks[1..], slots1, i, u);
    } else {
      id := SomeTaskStarts(ps, g1, i, tasks[1..], slots1, u);
    }
  }

  /** The project that a tick visits first gets a task started if it has one that could be. */
  lemma FirstIsServed(ps: seq<Project>, max: nat, h: World, questions: seq<set<string>>, first: nat, u: Task)
      returns (id: string)
    requires Validated(ps) && |ps| == |h.parts| == |questions| && |ps| > 0 && !Settled(h) && RunningTotal(h) < max
    requires Startable(ps, Ask(h, questions), Rotation(|ps|, first)[0], u)
    ensures var i := Rotation(|ps|, first)[0];
      Is(h, i, id, Pending) && Is(Scan(ps, max, h, questions, first), i, id, Running)
  {
    var a, visit := Ask(h, questions), Rotation(|ps|, first);
    AskRunsNothing(h, questions);
    AskedStatus(h, questions);
    var i, slots := visit[0], max - RunningTotal(a);
    id := SomeTaskStarts(ps, a, i, ps[i].spec, slots, u);
    var (g1, slots1) := ScanTasks(ps, a, i, ps[i].spec, slots);
    ScanJustifies(ps, g1, visit[1..], slots1, i, u);
  }

  /** Every project is visited first once in every round of ticks that scan. */
  lemma TurnComes(n: nat, first: nat, i: nat) returns (k: nat)
    requires i < n
    ensures k < n && Rotation(n, first + k)[0] == i
  {
    k := (i - first) % n;
    RotationArithmetic(n, first, i);
  }

  // ------------------------------------------------------------- the batch can always end

  ghost function Listing(ids: set<string>): (s: seq<string>)
    ensures Lists(s, ids)
    decreases ids
  {
    if ids == {} then []
    else
      var id :| id in ids;
      var rest := Listing(ids - {id});
      assert forall x :: x in [id] + rest <==> x == id || x in rest;
      [id] + rest
  }

  /** A tick that takes in whoever has finished and finds no question. */
  ghost function PlainTick(g: World): (e: Event)
    ensures e.Tick? && Enabled(g, e)
    ensures |e.questions| == |g.parts| && forall i :: 0 <= i < |g.parts| ==> e.questions[i] == {}
  {
    Tick(seq(|g.parts|, i requires 0 <= i < |g.parts| => Listing(g.parts[i].finished)), {}, seq(|g.parts|, i => {}), 0)
  }

  lemma {:induction false} CountAtLeast(orders: seq<seq<string>>, i: nat, j: nat)
    requires i <= j < |orders|
    ensures Count(orders, i) >= |orders[j]|
    decreases j - i
  {
    if i < j { CountAtLeast(orders, i + 1, j); }
  }

  lemma TakesIn(ps: seq<Project>, max: nat, g: World, i: nat, id: string)
    requires Validated(ps) && Invariant(ps, max, g) && max > 0 && i < |ps| && id in g.parts[i].finished
    ensures Remaining(Next(ps, max, g, PlainTick(g))) < Remaining(g)
  {
    var e := PlainTick(g);
    assert id in e.orders[i];
    CountAtLeast(e.orders, 0, i);
    TickKeeps(ps, max, g, e);
  }

  lemma One(ps: seq<Project>, max: nat, g: World, e: Event)
    requires |ps| == |g.parts| && Enabled(g, e)
    ensures Legal(ps, max, g, [e]) && After(ps, max, g, [e]) == Next(ps, max, g, e)
  {
    var g' := Next(ps, max, g, e);
    assert [e][1..] == [];
    assert Legal(ps, max, g', []) && After(ps, max, g', []) == g';
  }

  lemma First(ps: seq<Project>, max: nat, g: World, e: Event, run: seq<Event>)
    requires |ps| == |g.parts| && Enabled(g, e) && Legal(ps, max, Next(ps, max, g, e), run)
    ensures Legal(ps, max, g, [e] + run) && After(ps, max, g, [e] + run) == After(ps, max, Next(ps, max, g, e), run)
  {
    assert ([e] + run)[1..] == run;
  }

  lemma {:induction false} Both(ps: seq<Project>, max: nat, g: World, a: seq<Event>, b: seq<Event>)
    requires |ps| == |g.parts| && Legal(ps, max, g, a) && Legal(ps, max, After(ps, max, g, a), b)
    ensures Legal(ps, max, g, a + b) && After(ps, max, g, a + b) == After(ps, max, After(ps, max, g, a), b)
    decreases a
  {
    if a == [] {
      assert a + b == b;
    } else {
      Both(ps, max, Next(ps, max, g, a[0]), a[1..], b);
      First(ps, max, g, a[0], a[1..] + b);
      assert a + b == [a[0]] + (a[1..] + b);
    }
  }

  /** A running task can hand in, mark itself finished and be taken in. */
  lemma {:induction false} CanFinish(ps: seq<Project>, max: nat, g: World, i: nat, id: string) returns (run: seq<Event>)
    requires Validated(ps) && Invariant(ps, max, g) && max > 0 && Is(g, i, id, Running)
    ensures Legal(ps, max, g, run) && Remaining(After(ps, max, g, run)) < Remaining(g)
    decreases if id in g.parts[i].finished then 0 else if id in g.parts[i].pushed then 1 else 2
  {
    if id in g.parts[i].finished {
      TakesIn(ps, max, g, i, id);
      One(ps, max, g, PlainTick(g));
      run := [PlainTick(g)];
    } else {
      var e := if id in g.parts[i].pushed then Mark(i, id) else Push(i, id, AgentOk);
      HandInKeeps(ps, max, g, e);
      run := CanFinish(ps, max, Next(ps, max, g, e), i, id);
      First(ps, max, g, e, run);
      run := [e] + run;
    }
  }

  lemma CanMove(ps: seq<Project>, max: nat, g: World) returns (run: seq<Event>)
    requires Validated(ps) && Invariant(ps, max, g) && max > 0 && !Settled(g)
    ensures Legal(ps, max, g, run) && Remaining(After(ps, max, g, run)) < Remaining(g)
  {
    NothingRuns(g);
    if RunningTotal(g) == 0 {
      UsefulTickMoves(ps, max, g, PlainTick(g));
      One(ps, max, g, PlainTick(g));
      run := [PlainTick(g)];
    } else {
      var i: nat, id :| Is(g, i, id, Running);
      run := CanFinish(ps, max, g, i, id);
    }
  }

  lemma {:induction false} CanEnd(ps: seq<Project>, max: nat, g: World) returns (run: seq<Event>)
    requires Validated(ps) && Invariant(ps, max, g) && max > 0
    ensures Legal(ps, max, g, run) && Settled(After(ps, max, g, run))
    decreases Remaining(g)
  {
    run := [];
    if !Settled(g) {
      var moves := CanMove(ps, max, g);
      RunKeeps(ps, max, g, moves);
      var rest := CanEnd(ps, max, After(ps, max, g, moves));
      Both(ps, max, g, moves, rest);
      run := moves + rest;
    }
  }

  /** No run leads into a dead end: from every reachable state some further run settles the
      whole batch. */
  lemma EveryRunCanEnd(ps: seq<Project>, max: nat, run: seq<Event>) returns (more: seq<Event>)
    requires Validated(ps) && max > 0 && Legal(ps, max, Begin(ps), run)
    ensures Legal(ps, max, After(ps, max, Begin(ps), run), more)
    ensures Settled(After(ps, max, After(ps, max, Begin(ps), run), more))
  {
    BeginIsSound(ps, max);
    RunKeeps(ps, max, Begin(ps), run);
    more := CanEnd(ps, max, After(ps, max, Begin(ps), run));
  }
}
