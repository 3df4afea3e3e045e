/** Runs of the tick loop: safety in every reachable state, no idle slot, progress, and
    the fate of a result (rolen-orchestrator/src/scheduler.rs:254-521). */
module SchedulerRuns {
  import opened Text
  import opened Dag
  import opened SchedulerSpec
  import opened SchedulerSafety

  // ------------------------------------------------------------- a whole tick

  /** `g'` has the statuses, reports and claims of `g`; the rest of its parts is sound. */
  ghost predicate SameTasks(g: World, g': World) {
    && |g'.parts| == |g.parts| && g'.claimed == g.claimed
    && forall i :: 0 <= i < |g.parts| ==>
         g'.parts[i].status == g.parts[i].status && g'.parts[i].done == g.parts[i].done && g'.parts[i].failed == g.parts[i].failed
  }

  lemma SamePartKeeps(spec: Spec, part: Part, part': Part)
    requires PartOk(spec, part) && part'.finished <= part'.pushed <= With(part, Running)
    requires part'.status == part.status && part'.done == part.done && part'.failed == part.failed
    ensures PartOk(spec, part')
  {
    assert forall s :: With(part', s) == With(part, s);
    forall id | id in part'.status && (part'.status[id] == Running || part'.status[id] == Done)
      ensures AllDone(part', Deps(spec, id))
    {
      assert AllDone(part, Deps(spec, id));
    }
  }

  lemma SameClaimsKeep(ps: seq<Project>, g: World, g': World, key: Naming)
    requires |ps| == |g.parts| && ClaimsNamed(ps, g, key) && SameTasks(g, g')
    ensures ClaimsNamed(ps, g', key)
  {
    assert forall i: nat, id, s :: Is(g', i, id, s) <==> Is(g, i, id, s);
    forall k | k in g'.claimed ensures Claimant(ps, g', key, k) {
      assert Claimant(ps, g, key, k);
    }
  }

  lemma SameTasksKeep(ps: seq<Project>, max: nat, g: World, g': World)
    requires Invariant(ps, max, g) && SameTasks(g, g')
    requires forall i :: 0 <= i < |g.parts| ==> g'.parts[i].finished <= g'.parts[i].pushed <= With(g.parts[i], Running)
    ensures Invariant(ps, max, g') && Final(g, g') && Remaining(g') == Remaining(g)
    ensures RunningTotal(g') == RunningTotal(g)
  {
    TotalSame(RunningIn, g.parts, g'.parts);
    TotalSame(WorkIn, g.parts, g'.parts);
    forall i | 0 <= i < |ps| ensures PartOk(ps[i].spec, g'.parts[i]) {
      SamePartKeeps(ps[i].spec, g.parts[i], g'.parts[i]);
    }
    SameClaimsKeep(ps, g, g', TaskKey);
  }

  lemma AskKeeps(ps: seq<Project>, max: nat, g: World, questions: seq<set<string>>)
    requires Invariant(ps, max, g) && |questions| == |g.parts|
    ensures Invariant(ps, max, Ask(g, questions)) && Final(g, Ask(g, questions)) && SameTasks(g, Ask(g, questions))
    ensures Remaining(Ask(g, questions)) == Remaining(g) && RunningTotal(Ask(g, questions)) == RunningTotal(g)
  {
    var g' := Ask(g, questions);
    forall i | 0 <= i < |g.parts| ensures g'.parts[i].finished <= g'.parts[i].pushed <= With(g.parts[i], Running) {
      assert PartOk(ps[i].spec, g.parts[i]);
    }
    SameTasksKeep(ps, max, g, g');
  }

  lemma DrainsAreLists(g: World, orders: seq<seq<string>>)
    requires Drains(g, orders)
    ensures forall j :: 0 <= j < |orders| ==> Lists(orders[j], g.parts[j].finished)
  {
  }

  lemma ScanKeeps(ps: seq<Project>, max: nat, g: World, questions: seq<set<string>>, first: nat)
    requires Validated(ps) && Invariant(ps, max, g) && |questions| == |g.parts|
    ensures Invariant(ps, max, Scan(ps, max, g, questions, first)) && Final(g, Scan(ps, max, g, questions, first))
    ensures Remaining(Scan(ps, max, g, questions, first)) <= Remaining(g)
  {
    AskKeeps(ps, max, g, questions);
    var a := Ask(g, questions);
    ScanProjectsKeeps(ps, max, a, Rotation(|ps|, first), max - RunningTotal(a));
  }

  lemma TickKeeps(ps: seq<Project>, max: nat, g: World, e: Event)
    requires Validated(ps) && Invariant(ps, max, g) && e.Tick? && Enabled(g, e)
    ensures Invariant(ps, max, OnTick(ps, max, g, e)) && Final(g, OnTick(ps, max, g, e))
    ensures Remaining(OnTick(ps, max, g, e)) + Count(e.orders, 0) <= Remaining(g)
  {
    DrainsAreLists(g, e.orders);
    HarvestAllKeeps(ps, max, g, 0, e.orders, e.present);
    ScanKeeps(ps, max, HarvestAll(ps, g, 0, e.orders, e.present), e.questions, e.first);
  }

  lemma HandInKeeps(ps: seq<Project>, max: nat, g: World, e: Event)
    requires Invariant(ps, max, g) && !e.Tick? && Enabled(g, e)
    ensures Invariant(ps, max, Next(ps, max, g, e)) && Final(g, Next(ps, max, g, e))
    ensures Remaining(Next(ps, max, g, e)) == Remaining(g)
  {
    var g' := Next(ps, max, g, e);
    forall i | 0 <= i < |g.parts| ensures g'.parts[i].finished <= g'.parts[i].pushed <= With(g.parts[i], Running) {
      assert PartOk(ps[i].spec, g.parts[i]);
    }
    SameTasksKeep(ps, max, g, g');
  }

  lemma NextKeeps(ps: seq<Project>, max: nat, g: World, e: Event)
    requires Validated(ps) && Invariant(ps, max, g) && Enabled(g, e)
    ensures Invariant(ps, max, Next(ps, max, g, e)) && Final(g, Next(ps, max, g, e))
    ensures Remaining(Next(ps, max, g, e)) <= Remaining(g)
  {
    if e.Tick? { TickKeeps(ps, max, g, e); } else { HandInKeeps(ps, max, g, e); }
  }

  // ------------------------------------------------------------- runs

  function Begin(ps: seq<Project>): World {
    World(seq(|ps|, i requires 0 <= i < |ps| => Initial(ps[i])), map[])
  }

  lemma BeginIsSound(ps: seq<Project>, max: nat)
    ensures Invariant(ps, max, Begin(ps))
  {
    var g := Begin(ps);
    forall i | 0 <= i < |ps| ensures PartOk(ps[i].spec, g.parts[i]) && With(g.parts[i], Running) == {} {
      assert With(g.parts[i], Running) == {} && With(g.parts[i], Done) == {} && With(g.parts[i], Failed) == {};
    }
    NothingRuns(g);
  }

  ghost predicate Legal(ps: seq<Project>, max: nat, g: World, run: seq<Event>)
    requires |ps| == |g.parts|
    decreases run
  {
    run == [] || (Enabled(g, run[0]) && Legal(ps, max, Next(ps, max, g, run[0]), run[1..]))
  }

  ghost function After(ps: seq<Project>, max: nat, g: World, run: seq<Event>): (r: World)
    requires |ps| == |g.parts| && Legal(ps, max, g, run)
    ensures |r.parts| == |ps|
    decreases run
  {
    if run == [] then g else After(ps, max, Next(ps, max, g, run[0]), run[1..])
  }

  lemma {:induction false} RunKeeps(ps: seq<Project>, max: nat, g: World, run: seq<Event>)
    requires Validated(ps) && Invariant(ps, max, g) && Legal(ps, max, g, run)
    ensures Invariant(ps, max, After(ps, max, g, run)) && Final(g, After(ps, max, g, run))
    decreases run
  {
    if run != [] {
      NextKeeps(ps, max, g, run[0]);
      RunKeeps(ps, max, Next(ps, max, g, run[0]), run[1..]);
    }
  }

  // ------------------------------------------------------------- safety

  lemma {:induction false} PathIsDone(spec: Spec, part: Part, p: seq<string>, u: string, v: string)
    requires PartOk(spec, part) && Leads(spec, p, u, v)
    requires u in part.status && (part.status[u] == Running || part.status[u] == Done)
    ensures v in part.status && part.status[v] == Done
    decreases |p|
  {
    assert AllDone(part, Deps(spec, u));
    assert Edge(spec, p[0], p[1]);
    if |p| > 2 {
      WalkableTail(spec, p);
      PathIsDone(spec, part, p[1..], p[1], v);
    }
  }

  lemma TransitivelyDone(ps: seq<Project>, g: World, i: nat, id: string, d: string)
    requires i < |ps| == |g.parts| && PartOk(ps[i].spec, g.parts[i])
    requires (Is(g, i, id, Running) || Is(g, i, id, Done)) && Reaches(ps[i].spec, id, d)
    ensures Is(g, i, d, Done)
  {
    var p :| Leads(ps[i].spec, p, id, d);
    PathIsDone(ps[i].spec, g.parts[i], p, id, d);
  }

  /** Task `t` of project `i` is in status `s`. */
  ghost predicate TaskIs(ps: seq<Project>, g: World, i: nat, t: Task, s: Status) {
    i < |ps| && t in ps[i].spec && Is(g, i, t.id, s)
  }

  /** A started task has its dependencies done, and theirs, and so on. */
  ghost predicate StartedInOrder(ps: seq<Project>, g: World)
    requires |ps| == |g.parts|
  {
    forall i: nat, t | TaskIs(ps, g, i, t, Running) || TaskIs(ps, g, i, t, Done) ::
      && (forall d :: d in t.deps ==> Is(g, i, d, Done))
      && (forall d :: Reaches(ps[i].spec, t.id, d) ==> Is(g, i, d, Done))
  }

  /** No two running tasks work on the same file. */
  ghost predicate FilesApart(ps: seq<Project>, g: World)
    requires |ps| == |g.parts|
  {
    forall i: nat, t, j: nat, u, rel ::
      && TaskIs(ps, g, i, t, Running) && TaskIs(ps, g, j, u, Running)
      && ps[i].workdir == ps[j].workdir && rel in t.claims && rel in u.claims
      ==> i == j && t == u
  }

  ghost predicate Holds(ps: seq<Project>, g: World, i: nat, t: Task, rel: string, key: string) {
    TaskIs(ps, g, i, t, Running) && rel in t.claims && key == ClaimKey(ps[i].workdir, rel)
  }

  /** A key is claimed exactly when it is that of a file some running task claims. */
  ghost predicate ClaimedExactly(ps: seq<Project>, g: World) {
    forall key :: key in g.claimed <==> exists i: nat, t, rel :: Holds(ps, g, i, t, rel, key)
  }

  /** The claim keys of a task, in the task's own terms. */
  lemma TaskClaims(p: Project, t: Task)
    requires UniqueIds(p.spec) && t in p.spec
    ensures Find(p.spec, t.id) == Some(t) && Deps(p.spec, t.id) == t.deps
    ensures forall key :: key in ClaimKeys(p, t.id) <==> exists rel :: rel in t.claims && key == ClaimKey(p.workdir, rel)
  {
    SpecFound(p.spec);
  }

  lemma OneHolder(ps: seq<Project>, g: World, i: nat, t: Task, j: nat, u: Task, rel: string)
    requires Validated(ps) && |ps| == |g.parts| && ClaimsExact(ps, g)
    requires TaskIs(ps, g, i, t, Running) && TaskIs(ps, g, j, u, Running)
    requires ps[i].workdir == ps[j].workdir && rel in t.claims && rel in u.claims
    ensures i == j && t == u
  {
    TaskClaims(ps[i], t);
    TaskClaims(ps[j], u);
    var key := ClaimKey(ps[i].workdir, rel);
    assert key in ClaimKeys(ps[i], t.id) && key in ClaimKeys(ps[j], u.id);
    assert g.claimed[key] == TaskKey(i, t.id) == TaskKey(j, u.id);
    TaskKeyInjective(i, t.id, j, u.id);
  }

  lemma SafeFiles(ps: seq<Project>, max: nat, g: World)
    requires Validated(ps) && Invariant(ps, max, g)
    ensures FilesApart(ps, g)
  {
    forall i: nat, t, j: nat, u, rel |
      && TaskIs(ps, g, i, t, Running) && TaskIs(ps, g, j, u, Running)
      && ps[i].workdir == ps[j].workdir && rel in t.claims && rel in u.claims
      ensures i == j && t == u
    {
      OneHolder(ps, g, i, t, j, u, rel);
    }
  }

  lemma HolderOf(ps: seq<Project>, max: nat, g: World, key: string) returns (i: nat, t: Task, rel: string)
    requires Validated(ps) && Invariant(ps, max, g) && key in g.claimed
    ensures Holds(ps, g, i, t, rel, key)
  {
    assert Claimant(ps, g, TaskKey, key);
    var id;
    i, id :| Is(g, i, id, Running) && key in ClaimKeys(ps[i], id) && g.claimed[key] == TaskKey(i, id);
    assert PartOk(ps[i].spec, g.parts[i]);
    t := Find(ps[i].spec, id).value;
    TaskClaims(ps[i], t);
    rel :| rel in t.claims && key == ClaimKey(ps[i].workdir, rel);
  }

  lemma HeldIsClaimed(ps: seq<Project>, g: World, i: nat, t: Task, rel: string, key: string)
    requires Validated(ps) && |ps| == |g.parts| && ClaimsExact(ps, g) && Holds(ps, g, i, t, rel, key)
    ensures key in g.claimed
  {
    TaskClaims(ps[i], t);
  }

  lemma ClaimsAreHeld(ps: seq<Project>, max: nat, g: World)
    requires Validated(ps) && Invariant(ps, max, g)
    ensures ClaimedExactly(ps, g)
  {
    forall key ensures key in g.claimed <==> exists i: nat, t, rel :: Holds(ps, g, i, t, rel, key) {
      if key in g.claimed { var i, t, rel := HolderOf(ps, max, g, key); }
      forall i: nat, t, rel | Holds(ps, g, i, t, rel, key) ensures key in g.claimed { HeldIsClaimed(ps, g, i, t, rel, key); }
    }
  }

  lemma DepsAreDone(ps: seq<Project>, max: nat, g: World)
    requires Validated(ps) && Invariant(ps, max, g)
    ensures StartedInOrder(ps, g)
  {
    forall i: nat, t | TaskIs(ps, g, i, t, Running) || TaskIs(ps, g, i, t, Done)
      ensures (forall d :: d in t.deps ==> Is(g, i, d, Done)) && (forall d :: Reaches(ps[i].spec, t.id, d) ==> Is(g, i, d, Done))
    {
      assert PartOk(ps[i].spec, g.parts[i]);
      TaskClaims(ps[i], t);
      forall d | Reaches(ps[i].spec, t.id, d) ensures Is(g, i, d, Done) { TransitivelyDone(ps, g, i, t.id, d); }
      forall d | d in t.deps ensures Is(g, i, d, Done) { assert AllDone(g.parts[i], t.deps); }
    }
  }

  /** In every reachable state: the slot budget holds; a key is claimed exactly when it is that
      of a file some running task claims; no two running tasks of any two projects in one
      directory claim the same file; and a task that has started has every transitive dependency
      done, so one with a failed transitive dependency never starts. */
  lemma EveryRunIsSafe(ps: seq<Project>, max: nat, run: seq<Event>)
    requires Validated(ps) && Legal(ps, max, Begin(ps), run)
    ensures var g := After(ps, max, Begin(ps), run);
      RunningTotal(g) <= max && ClaimedExactly(ps, g) && FilesApart(ps, g) && StartedInOrder(ps, g)
  {
    BeginIsSound(ps, max);
    RunKeeps(ps, max, Begin(ps), run);
    var g := After(ps, max, Begin(ps), run);
    ClaimsAreHeld(ps, max, g);
    SafeFiles(ps, max, g);
    DepsAreDone(ps, max, g);
  }

  // ------------------------------------------------------------- when a scan can stall

  lemma {:induction false} TotalZero(f: Part -> nat, parts: seq<Part>)
    ensures Total(f, parts) == 0 <==> forall i :: 0 <= i < |parts| ==> f(parts[i]) == 0
  {
    if parts != [] {
      TotalZero(f, parts[1..]);
      assert forall i :: 1 <= i < |parts| ==> parts[i] == parts[1..][i - 1];
    }
  }

  lemma NothingRuns(g: World)
    ensures RunningTotal(g) == 0 <==> forall i: nat, id :: !Is(g, i, id, Running)
  {
    TotalZero(RunningIn, g.parts);
    forall i | 0 <= i < |g.parts| ensures RunningIn(g.parts[i]) == 0 <==> forall id :: !Is(g, i, id, Running) {
      if RunningIn(g.parts[i]) == 0 {
        assert With(g.parts[i], Running) == {};
        assert forall id :: Is(g, i, id, Running) ==> id in With(g.parts[i], Running);
      } else {
        var id :| id in With(g.parts[i], Running);
        assert Is(g, i, id, Running);
      }
    }
  }

  lemma NothingRemains(g: World)
    ensures Remaining(g) == 0 <==> Settled(g)
  {
    TotalZero(WorkIn, g.parts);
    forall i | 0 <= i < |g.parts|
      ensures WorkIn(g.parts[i]) == 0 <==> forall id :: id in g.parts[i].status ==> g.parts[i].status[id] != Pending && g.parts[i].status[id] != Running
    {
      var part := g.parts[i];
      if WorkIn(part) == 0 {
        assert With(part, Pending) == {} && With(part, Running) == {};
        assert forall id :: id in part.status ==> id !in With(part, part.status[id]) ==> false;
      } else if id :| id in With(part, Pending) || id in With(part, Running) {
      }
    }
  }

  /** A pending task that the scan would leave alone although nothing runs: it has no failed
      dependency, and if all its dependencies are done, one of them has a question. */
  ghost predicate Waits(ps: seq<Project>, g: World, i: nat, t: Task)
    requires i < |ps| == |g.parts|
  {
    !AnyFailed(g.parts[i], t.deps) && (AllDone(g.parts[i], t.deps) ==> Blocked(ps[i].spec, t.id, g.parts[i].questions))
  }

  ghost predicate AllWait(ps: seq<Project>, g: World)
    requires |ps| == |g.parts|
  {
    forall i: nat, t :: i < |ps| && t in ps[i].spec && Is(g, i, t.id, Pending) ==> Waits(ps, g, i, t)
  }

  lemma RotationVisitsAll(n: nat, first: nat, i: nat)
    requires i < n
    ensures i in Rotation(n, first)
  {
    var d := (i - first) % n;
    assert (first + d) % n == i by { RotationArithmetic(n, first, i); }
    assert Rotation(n, first)[d] == i;
  }

  lemma RotationArithmetic(n: int, first: int, i: int)
    requires 0 <= i < n
    ensures (first + (i - first) % n) % n == i
  {
    var q, d := (i - first) / n, (i - first) % n;
    assert first + d == i - q * n;
    ShiftMod(i, n, -q);
  }

  lemma {:induction false} ShiftMod(i: int, n: int, q: int)
    requires 0 <= i < n
    ensures (i + q * n) % n == i
  {
    var x := i + q * n;
    var k := x / n;
    assert (q - k) * n == x % n - i;
    Multiples(q - k, n);
  }

  lemma Multiples(k: int, n: int)
    requires n >= 0
    ensures (k >= 1 ==> k * n >= n) && (k <= -1 ==> k * n <= -n)
  {
  }

  /** With nothing running, a scan leaves everything as it is exactly when every pending task waits. */
  lemma StallsExactly(ps: seq<Project>, max: nat, g: World, first: nat)
    requires Validated(ps) && Invariant(ps, max, g) && RunningTotal(g) == 0 && max > 0
    ensures ScanProjects(ps, g, Rotation(|ps|, first), max).0 == g <==> AllWait(ps, g)
  {
    var visit := Rotation(|ps|, first);
    NothingRuns(g);
    ClaimedMeansRunning(ps, g, TaskKey);
    ScanProjectsKeeps(ps, max, g, visit, max);
    if ScanProjects(ps, g, visit, max).0 == g {
      forall i: nat, t | i < |ps| && t in ps[i].spec && Is(g, i, t.id, Pending) ensures Waits(ps, g, i, t) {
        RotationVisitsAll(|ps|, first, i);
        assert ScanTask(ps, g, i, t, max) == (g, max);
        ScanTaskActs(ps, max, g, i, t);
      }
    }
    if AllWait(ps, g) {
      ScanOfWaiting(ps, g, visit, max);
    }
  }

  lemma ClaimedMeansRunning(ps: seq<Project>, g: World, key: Naming)
    requires |ps| == |g.parts| && ClaimsNamed(ps, g, key)
    ensures forall k :: k in g.claimed ==> exists i: nat, id :: Is(g, i, id, Running)
  {
    forall k | k in g.claimed ensures exists i: nat, id :: Is(g, i, id, Running) {
      assert Claimant(ps, g, key, k);
    }
  }

  lemma ScanTaskActs(ps: seq<Project>, max: nat, g: World, i: nat, t: Task)
    requires Validated(ps) && Invariant(ps, max, g) && RunningTotal(g) == 0 && max > 0 && g.claimed.Keys == {}
    requires i < |ps| && t in ps[i].spec && Is(g, i, t.id, Pending) && ScanTask(ps, g, i, t, max) == (g, max)
    ensures Waits(ps, g, i, t)
  {
    SpecFound(ps[i].spec);
    if AnyFailed(g.parts[i], t.deps) {
      FailStep(ps, max, g, i, t.id);
    }
  }

  lemma {:induction false} TasksWait(ps: seq<Project>, g: World, i: nat, tasks: seq<Task>, slots: nat)
    requires |ps| == |g.parts| && i < |ps| && AllWait(ps, g) && forall t :: t in tasks ==> t in ps[i].spec
    ensures ScanTasks(ps, g, i, tasks, slots) == (g, slots)
    decreases tasks
  {
    if tasks != [] {
      assert tasks[0] in ps[i].spec;
      TasksWait(ps, g, i, tasks[1..], slots);
    }
  }

  lemma {:induction false} ScanOfWaiting(ps: seq<Project>, g: World, visit: seq<nat>, slots: nat)
    requires |ps| == |g.parts| && AllWait(ps, g) && forall k :: 0 <= k < |visit| ==> visit[k] < |ps|
    ensures ScanProjects(ps, g, visit, slots) == (g, slots)
    decreases visit
  {
    if visit != [] {
      TasksWait(ps, g, visit[0], ps[visit[0]].spec, slots);
      ScanOfWaiting(ps, g, visit[1..], slots);
    }
  }

  // ------------------------------------------------------------- progress

  /** The first pending task of a topological order has all its dependencies settled. */
  lemma {:induction false} FirstPending(ps: seq<Project>, g: World, i: nat, order: seq<string>,
      k: nat) returns (id: string)
    requires i < |ps| == |g.parts| && TopologicalOrder(ps[i].spec, order) && k < |order| && Is(g, i, order[k], Pending)
    ensures Is(g, i, id, Pending) && forall d :: d in Deps(ps[i].spec, id) ==> !Is(g, i, d, Pending)
    decreases k
  {
    id := order[k];
    if d :| d in Deps(ps[i].spec, id) && Is(g, i, d, Pending) {
      var j :| 0 <= j < k && order[j] == d;
      id := FirstPending(ps, g, i, order, j);
    }
  }

  /** With validated graphs, no questions and nothing running, a pending task never waits for ever. */
  lemma SomeoneMoves(ps: seq<Project>, max: nat, g: World, i: nat, id: string)
    requires Validated(ps) && Invariant(ps, max, g) && RunningTotal(g) == 0 && Is(g, i, id, Pending)
    requires forall j :: 0 <= j < |ps| ==> g.parts[j].questions == {}
    ensures !AllWait(ps, g)
  {
    NothingRuns(g);
    assert PartOk(ps[i].spec, g.parts[i]);
    var order :| TopologicalOrder(ps[i].spec, order);
    assert id in order;
    var k :| 0 <= k < |order| && order[k] == id;
    var first := FirstPending(ps, g, i, order, k);
    var t := Find(ps[i].spec, first).value;
    forall d | d in t.deps ensures Is(g, i, d, Done) || Is(g, i, d, Failed) {
      assert d in Deps(ps[i].spec, first);
      KnownDep(ps[i].spec, t, d);
      assert !Is(g, i, d, Running);
    }
    assert AllDone(g.parts[i], t.deps) || AnyFailed(g.parts[i], t.deps);
    assert !Waits(ps, g, i, t);
  }

  lemma KnownDep(spec: Spec, t: Task, d: string)
    requires KnownDeps(spec) && t in spec && d in t.deps
    ensures d in Ids(spec)
  {
    var i :| 0 <= i < |spec| && spec[i] == t;
  }

  /** A tick that must get somewhere: a worker has finished or none is running, and no
      question is pending. */
  ghost predicate Useful(g: World, e: Event)
    requires Enabled(g, e)
  {
    && e.Tick?
    && (Count(e.orders, 0) > 0 || RunningTotal(g) == 0)
    && forall i :: 0 <= i < |e.questions| ==> e.questions[i] == {}
  }

  lemma AskedNoQuestions(g: World, questions: seq<set<string>>)
    requires |questions| == |g.parts| && forall i :: 0 <= i < |questions| ==> questions[i] == {}
    ensures forall j :: 0 <= j < |g.parts| ==> Ask(g, questions).parts[j].questions == {}
  {
  }

  lemma SettledMeans(g: World)
    ensures Settled(g) <==> forall i: nat, id :: !Is(g, i, id, Pending) && !Is(g, i, id, Running)
  {
    if !Settled(g) {
      var i, id :| 0 <= i < |g.parts| && id in g.parts[i].status && (g.parts[i].status[id] == Pending || g.parts[i].status[id] == Running);
      assert Is(g, i, id, Pending) || Is(g, i, id, Running);
    } else {
      assert forall i: nat, id, s :: Is(g, i, id, s) ==> s != Pending && s != Running;
    }
  }

  lemma SomeonePends(g: World) returns (i: nat, id: string)
    requires RunningTotal(g) == 0 && Remaining(g) > 0
    ensures Is(g, i, id, Pending)
  {
    NothingRuns(g);
    NothingRemains(g);
    SettledMeans(g);
    i, id :| Is(g, i, id, Pending);
  }

  lemma ScanMoves(ps: seq<Project>, max: nat, g: World, first: nat)
    requires Validated(ps) && Invariant(ps, max, g) && max > 0 && RunningTotal(g) == 0 && Remaining(g) > 0
    requires forall j :: 0 <= j < |g.parts| ==> g.parts[j].questions == {}
    ensures Remaining(ScanProjects(ps, g, Rotation(|ps|, first), max).0) < Remaining(g)
  {
    var i, id := SomeonePends(g);
    SomeoneMoves(ps, max, g, i, id);
    StallsExactly(ps, max, g, first);
    ScanProjectsKeeps(ps, max, g, Rotation(|ps|, first), max);
  }

  lemma ScanOfIdle(ps: seq<Project>, max: nat, g: World, questions: seq<set<string>>, first: nat)
    requires |ps| == |g.parts| == |questions| && !Settled(g) && RunningTotal(Ask(g, questions)) == 0
    ensures Scan(ps, max, g, questions, first) == ScanProjects(ps, Ask(g, questions), Rotation(|ps|, first), max).0
  {
  }

  lemma ScanProgress(ps: seq<Project>, max: nat, g: World, questions: seq<set<string>>, first: nat)
    requires Validated(ps) && Invariant(ps, max, g) && max > 0 && |questions| == |g.parts|
    requires RunningTotal(g) == 0 && forall i :: 0 <= i < |questions| ==> questions[i] == {}
    ensures Remaining(Scan(ps, max, g, questions, first)) < Remaining(g) || Settled(g)
  {
    NothingRemains(g);
    if Remaining(g) > 0 {
      AskKeeps(ps, max, g, questions);
      AskedNoQuestions(g, questions);
      ScanOfIdle(ps, max, g, questions, first);
      ScanMoves(ps, max, Ask(g, questions), first);
    }
  }

  lemma {:induction false} NoneFinished(ps: seq<Project>, g: World, i: nat, orders: seq<seq<string>>,
      present: set<(string, string)>)
    requires |ps| == |g.parts| == |orders| && i <= |ps| && Count(orders, i) == 0
    ensures HarvestAll(ps, g, i, orders, present) == g
    decreases |ps| - i
  {
    if i < |ps| { NoneFinished(ps, g, i + 1, orders, present); }
  }

  /** Every useful tick leaves less to do, until all is settled. */
  lemma UsefulTickMoves(ps: seq<Project>, max: nat, g: World, e: Event)
    requires Validated(ps) && Invariant(ps, max, g) && max > 0 && Enabled(g, e) && Useful(g, e)
    ensures Remaining(Next(ps, max, g, e)) < Remaining(g) || Settled(g)
  {
    if Count(e.orders, 0) > 0 {
      TickKeeps(ps, max, g, e);
    } else {
      NoneFinished(ps, g, 0, e.orders, e.present);
      ScanProgress(ps, max, g, e.questions, e.first);
    }
  }

  ghost function UsefulTicks(ps: seq<Project>, max: nat, g: World, run: seq<Event>): nat
    requires |ps| == |g.parts| && Legal(ps, max, g, run)
    decreases run
  {
    if run == [] then 0
    else (if Useful(g, run[0]) then 1 else 0) + UsefulTicks(ps, max, Next(ps, max, g, run[0]), run[1..])
  }

  lemma {:induction false} RunProgress(ps: seq<Project>, max: nat, g: World, run: seq<Event>)
    requires Validated(ps) && Invariant(ps, max, g) && max > 0 && Legal(ps, max, g, run)
    ensures Settled(After(ps, max, g, run)) || Remaining(After(ps, max, g, run)) + UsefulTicks(ps, max, g, run) <= Remaining(g)
    decreases run
  {
    if run != [] {
      var g' := Next(ps, max, g, run[0]);
      NextKeeps(ps, max, g, run[0]);
      if Useful(g, run[0]) { UsefulTickMoves(ps, max, g, run[0]); }
      RunProgress(ps, max, g', run[1..]);
      NothingRemains(g);
      NothingRemains(g');
      RemainingFalls(ps, max, g', run[1..]);
      NothingRemains(After(ps, max, g, run));
    }
  }

  lemma {:induction false} RemainingFalls(ps: seq<Project>, max: nat, g: World, run: seq<Event>)
    requires Validated(ps) && Invariant(ps, max, g) && Legal(ps, max, g, run)
    ensures Remaining(After(ps, max, g, run)) <= Remaining(g)
    decreases run
  {
    if run != [] {
      NextKeeps(ps, max, g, run[0]);
      RemainingFalls(ps, max, Next(ps, max, g, run[0]), run[1..]);
    }
  }

  /** Twice the tasks of all projects. */
  function TwiceTasks(ps: seq<Project>): nat {
    if ps == [] then 0 else 2 * |Ids(ps[0].spec)| + TwiceTasks(ps[1..])
  }

  lemma {:induction false} BeginRemaining(ps: seq<Project>)
    ensures Remaining(Begin(ps)) == TwiceTasks(ps)
  {
    if ps != [] {
      var part := Begin(ps).parts[0];
      assert With(part, Pending) == Ids(ps[0].spec) && With(part, Running) == {};
      assert Begin(ps).parts[1..] == Begin(ps[1..]).parts;
      BeginRemaining(ps[1..]);
    }
  }

  ghost predicate EachReportedOnce(ps: seq<Project>, g: World)
    requires |ps| == |g.parts|
  {
    forall i :: 0 <= i < |ps| ==>
      && (forall a, b :: 0 <= a < b < |g.parts[i].done| ==> g.parts[i].done[a] != g.parts[i].done[b])
      && (forall a, b :: 0 <= a < b < |g.parts[i].failed| ==> g.parts[i].failed[a] != g.parts[i].failed[b])
      && (forall id :: id in g.parts[i].done || id in g.parts[i].failed <==> id in Ids(ps[i].spec))
      && (forall id :: !(id in g.parts[i].done && id in g.parts[i].failed))
  }

  /** Whatever else happens in between, two useful ticks for each task end the batch with every
      task reported exactly once, as done or as failed. */
  lemma BatchEnds(ps: seq<Project>, max: nat, run: seq<Event>)
    requires Validated(ps) && max > 0 && Legal(ps, max, Begin(ps), run)
    requires UsefulTicks(ps, max, Begin(ps), run) >= TwiceTasks(ps)
    ensures var g := After(ps, max, Begin(ps), run); Settled(g) && EachReportedOnce(ps, g)
  {
    BeginIsSound(ps, max);
    BeginRemaining(ps);
    RunProgress(ps, max, Begin(ps), run);
    RunKeeps(ps, max, Begin(ps), run);
    var g := After(ps, max, Begin(ps), run);
    NothingRemains(g);
    forall i | 0 <= i < |ps|
      ensures forall id :: id in g.parts[i].done || id in g.parts[i].failed <==> id in Ids(ps[i].spec)
      ensures forall id :: !(id in g.parts[i].done && id in g.parts[i].failed)
    {
      SettledPart(ps[i].spec, g.parts[i]);
    }
  }

  lemma SettledPart(spec: Spec, part: Part)
    requires PartOk(spec, part)
    requires forall id :: id in part.status ==> part.status[id] != Pending && part.status[id] != Running
    ensures forall id :: (id in part.done || id in part.failed <==> id in Ids(spec)) && !(id in part.done && id in part.failed)
  {
  }

  /** Once all is settled there is nothing to take in, so the next tick is the last. */
  lemma SettledTickExits(ps: seq<Project>, max: nat, g: World, e: Event)
    requires Invariant(ps, max, g) && Settled(g) && e.Tick? && Enabled(g, e)
    ensures HarvestAll(ps, g, 0, e.orders, e.present) == g
  {
    DrainsAreLists(g, e.orders);
    HarvestAllKeeps(ps, max, g, 0, e.orders, e.present);
    NothingRemains(g);
    NoneFinished(ps, g, 0, e.orders, e.present);
  }

  /** The loop of the batch ends: whatever tick comes after enough useful ones finds all settled
      when it has taken in the finished tasks, which is the loop's exit. */
  lemma BatchExits(ps: seq<Project>, max: nat, run: seq<Event>, tick: Event)
    requires Validated(ps) && max > 0 && Legal(ps, max, Begin(ps), run)
    requires UsefulTicks(ps, max, Begin(ps), run) >= TwiceTasks(ps)
    requires tick.Tick? && Enabled(After(ps, max, Begin(ps), run), tick)
    ensures Settled(HarvestAll(ps, After(ps, max, Begin(ps), run), 0, tick.orders, tick.present))
  {
    BatchEnds(ps, max, run);
    BeginIsSound(ps, max);
    RunKeeps(ps, max, Begin(ps), run);
    SettledTickExits(ps, max, After(ps, max, Begin(ps), run), tick);
  }

  // ------------------------------------------------------------- no idle slot

  /** A pending task is ready but for its path claims. */
  ghost predicate Ready(ps: seq<Project>, g: World, i: nat, t: Task)
    requires i < |ps| == |g.parts|
  {
    Is(g, i, t.id, Pending) && AllDone(g.parts[i], t.deps) && !Blocked(ps[i].spec, t.id, g.parts[i].questions)
  }

  /** What a scan never does: finish a task, make one pending, drop a claim, change questions. */
  ghost predicate Quiet(g: World, g': World) {
    && |g'.parts| == |g.parts| && g.claimed.Keys <= g'.claimed.Keys
    && (forall i :: 0 <= i < |g.parts| ==> g'.parts[i].questions == g.parts[i].questions)
    && (forall i: nat, id :: Is(g', i, id, Done) ==> Is(g, i, id, Done))
    && (forall i: nat, id :: Is(g', i, id, Pending) ==> Is(g, i, id, Pending))
  }

  lemma MoveIsQuiet(g: World, g': World, i: nat, id: string, to: Status)
    requires Moves(g, g', i, id, Pending, to) && (to == Failed || to == Running)
    requires g.claimed.Keys <= g'.claimed.Keys && g'.parts[i].questions == g.parts[i].questions
    ensures Quiet(g, g')
  {
    forall j: nat, x, s | s == Done || s == Pending ensures Is(g', j, x, s) ==> Is(g, j, x, s) {
      MoveRunning(g, g', i, id, Pending, to, j, x, s);
    }
  }

  lemma ScanTaskIsQuiet(ps: seq<Project>, g: World, i: nat, t: Task, slots: nat)
    requires i < |ps| == |g.parts|
    ensures var (g', slots') := ScanTask(ps, g, i, t, slots);
      Quiet(g, g') && slots' <= slots && (slots' > 0 && Ready(ps, g', i, t) ==> ClaimTaken(ps[i], g', t))
  {
    var (g', slots') := ScanTask(ps, g, i, t, slots);
    if g' == Fail(g, i, t.id) && g' != g {
      assert Moves(g, g', i, t.id, Pending, Failed);
      MoveIsQuiet(g, g', i, t.id, Failed);
    } else if g' != g {
      assert Moves(g, g', i, t.id, Pending, Running);
      MoveIsQuiet(g, g', i, t.id, Running);
    }
  }

  lemma StaysTaken(ps: seq<Project>, g: World, g': World, i: nat, t: Task)
    requires i < |ps| == |g.parts| && Quiet(g, g') && Ready(ps, g', i, t)
    ensures Ready(ps, g, i, t) && (ClaimTaken(ps[i], g, t) ==> ClaimTaken(ps[i], g', t))
  {
    assert forall d :: d in t.deps ==> Is(g', i, d, Done);
    assert forall d :: d in t.deps ==> Is(g, i, d, Done);
  }

  lemma {:induction false} TasksLeaveNoneReady(ps: seq<Project>, g: World, i: nat, tasks: seq<Task>, slots: nat)
    requires i < |ps| == |g.parts|
    ensures var (g', slots') := ScanTasks(ps, g, i, tasks, slots);
      Quiet(g, g') && slots' <= slots
      && (slots' > 0 ==> forall t :: t in tasks && Ready(ps, g', i, t) ==> ClaimTaken(ps[i], g', t))
    decreases tasks
  {
    if tasks != [] {
      ScanTaskIsQuiet(ps, g, i, tasks[0], slots);
      var (g1, slots1) := ScanTask(ps, g, i, tasks[0], slots);
      TasksLeaveNoneReady(ps, g1, i, tasks[1..], slots1);
      var (g', slots') := ScanTasks(ps, g1, i, tasks[1..], slots1);
      if slots' > 0 && Ready(ps, g', i, tasks[0]) { StaysTaken(ps, g1, g', i, tasks[0]); }
    }
  }

  /** A scan that ends with a slot to spare leaves no ready task without a claim in its way. */
  lemma {:induction false} NoIdleSlot(ps: seq<Project>, g: World, visit: seq<nat>, slots: nat)
    requires |ps| == |g.parts| && forall k :: 0 <= k < |visit| ==> visit[k] < |ps|
    ensures var (g', slots') := ScanProjects(ps, g, visit, slots);
      Quiet(g, g') && slots' <= slots
      && (slots' > 0 ==> forall i, t :: i in visit && t in ps[i].spec && Ready(ps, g', i, t) ==> ClaimTaken(ps[i], g', t))
    decreases visit
  {
    if visit != [] {
      var j := visit[0];
      TasksLeaveNoneReady(ps, g, j, ps[j].spec, slots);
      var (g1, slots1) := ScanTasks(ps, g, j, ps[j].spec, slots);
      NoIdleSlot(ps, g1, visit[1..], slots1);
      var (g', slots') := ScanProjects(ps, g1, visit[1..], slots1);
      forall i, t | slots' > 0 && i in visit && t in ps[i].spec && Ready(ps, g', i, t) ensures ClaimTaken(ps[i], g', t) {
        if i == j { StaysTaken(ps, g1, g', i, t); }
      }
    }
  }
}
