/** What every reachable state of the tick loop keeps: slots, claims, dependencies, reports
    (rolen-orchestrator/src/scheduler.rs:254-435). */
module SchedulerSafety {
  import opened Text
  import opened Dag
  import opened SchedulerSpec

  // ------------------------------------------------------------- the invariant

  /** `s` lists exactly `ids`, each once. */
  ghost predicate Lists(s: seq<string>, ids: set<string>) {
    && (forall a, b :: 0 <= a < b < |s| ==> s[a] != s[b])
    && (forall id :: id in s <==> id in ids)
  }

  /** A task that has started has every dependency done. */
  ghost predicate Ordered(spec: Spec, part: Part) {
    forall id :: id in part.status && (part.status[id] == Running || part.status[id] == Done) ==>
      AllDone(part, Deps(spec, id))
  }

  ghost predicate PartOk(spec: Spec, part: Part) {
    && part.status.Keys == Ids(spec)
    && Ordered(spec, part)
    && part.finished <= part.pushed <= With(part, Running)
    && Lists(part.done, With(part, Done))
    && Lists(part.failed, With(part, Failed))
  }

  /** How a task is named in `claimed`. */
  type Naming = (nat, string) -> string

  ghost predicate Injective(key: Naming) {
    forall i, id, j, other :: key(i, id) == key(j, other) ==> i == j && id == other
  }

  /** `claimed` holds the claims of the running tasks, each for its own task, and nothing else. */
  ghost predicate ClaimsNamed(ps: seq<Project>, g: World, key: Naming)
    requires |ps| == |g.parts|
  {
    && (forall k :: k in g.claimed ==> Claimant(ps, g, key, k))
    && (forall i: nat, id, k :: Is(g, i, id, Running) && k in ClaimKeys(ps[i], id) ==>
          k in g.claimed && g.claimed[k] == key(i, id))
  }

  ghost predicate Claimant(ps: seq<Project>, g: World, key: Naming, k: string)
    requires |ps| == |g.parts| && k in g.claimed
  {
    exists i: nat, id :: Is(g, i, id, Running) && k in ClaimKeys(ps[i], id) && g.claimed[k] == key(i, id)
  }

  ghost predicate ClaimsExact(ps: seq<Project>, g: World)
    requires |ps| == |g.parts|
  {
    ClaimsNamed(ps, g, TaskKey)
  }

  lemma TaskKeysDiffer()
    ensures Injective(TaskKey)
  {
    forall i: nat, id, j: nat, other | TaskKey(i, id) == TaskKey(j, other) ensures i == j && id == other {
      TaskKeyInjective(i, id, j, other);
    }
  }

  ghost predicate Invariant(ps: seq<Project>, max: nat, g: World) {
    && |ps| == |g.parts|
    && (forall i :: 0 <= i < |ps| ==> PartOk(ps[i].spec, g.parts[i]))
    && ClaimsExact(ps, g)
    && RunningTotal(g) <= max
  }

  /** What `Dag.ValidateDag` establishes of each graph it accepts. */
  ghost predicate Validated(ps: seq<Project>) {
    forall i :: 0 <= i < |ps| ==> WellFormed(ps[i].spec) && exists order :: TopologicalOrder(ps[i].spec, order)
  }

  // ------------------------------------------------------------- one task changes status

  /** From `g` to `g'` exactly one task changed its status. */
  ghost predicate Moves(g: World, g': World, i: nat, id: string, from: Status, to: Status) {
    && Is(g, i, id, from) && from != to
    && |g'.parts| == |g.parts|
    && g'.parts == g.parts[i := g'.parts[i]]
    && g'.parts[i].status == g.parts[i].status[id := to]
  }

  function Work(s: Status): nat {
    if s == Pending then 2 else if s == Running then 1 else 0
  }

  function Slot(s: Status): nat { if s == Running then 1 else 0 }

  lemma MoveSets(part: Part, part': Part, id: string, to: Status, s: Status)
    requires id in part.status && part.status[id] != to && part'.status == part.status[id := to]
    ensures With(part', s) == if s == to then With(part, s) + {id} else With(part, s) - {id}
    ensures |With(part', s)| == |With(part, s)| + (if s == to then 1 else 0) - (if s == part.status[id] then 1 else 0)
  {
    assert With(part', s) == if s == to then With(part, s) + {id} else With(part, s) - {id};
  }

  lemma MoveTally(g: World, g': World, i: nat, id: string, from: Status, to: Status)
    requires Moves(g, g', i, id, from, to)
    ensures RunningTotal(g') + Slot(from) == RunningTotal(g) + Slot(to)
    ensures Remaining(g') + Work(from) == Remaining(g) + Work(to)
  {
    MoveSets(g.parts[i], g'.parts[i], id, to, Pending);
    MoveSets(g.parts[i], g'.parts[i], id, to, Running);
    TotalUpdate(RunningIn, g.parts, i, g'.parts[i]);
    TotalUpdate(WorkIn, g.parts, i, g'.parts[i]);
  }

  lemma MoveRunning(g: World, g': World, i: nat, id: string, from: Status, to: Status, j: nat, other: string, s: Status)
    requires Moves(g, g', i, id, from, to)
    ensures Is(g', j, other, s) <==> if j == i && other == id then s == to else Is(g, j, other, s)
  {
  }

  lemma ListsMore(s: seq<string>, ids: set<string>, id: string)
    requires Lists(s, ids) && id !in ids
    ensures Lists(s + [id], ids + {id})
  {
  }

  // ------------------------------------------------------------- each change keeps a part sound

  lemma MoveKeepsOrder(spec: Spec, part: Part, part': Part, id: string, to: Status)
    requires Ordered(spec, part) && id in part.status && part'.status == part.status[id := to]
    requires part.status[id] != Done
    requires to == Running || to == Done ==> AllDone(part, Deps(spec, id))
    ensures Ordered(spec, part')
  {
    forall x | x in part'.status && (part'.status[x] == Running || part'.status[x] == Done)
      ensures AllDone(part', Deps(spec, x))
    {
      assert AllDone(part, Deps(spec, x));
    }
  }

  lemma KeysKept(part: Part, id: string, to: Status)
    requires id in part.status
    ensures part.status[id := to].Keys == part.status.Keys
  {
  }

  /** The three ways a task changes status, on any part whose lists follow. */
  lemma MoveKeepsPart(spec: Spec, part: Part, part': Part, id: string, to: Status)
    requires PartOk(spec, part) && id in part.status && part'.status == part.status[id := to]
    requires part.status[id] == Pending || part.status[id] == Running
    requires to == Running || to == Done ==> AllDone(part, Deps(spec, id))
    requires part.status[id] != to
    requires part'.finished <= part'.pushed <= part.pushed - {id}
    requires part'.done == if to == Done then part.done + [id] else part.done
    requires part'.failed == if to == Failed then part.failed + [id] else part.failed
    ensures PartOk(spec, part')
  {
    KeysKept(part, id, to);
    MoveKeepsOrder(spec, part, part', id, to);
    MoveSets(part, part', id, to, Running);
    MoveSets(part, part', id, to, Done);
    MoveSets(part, part', id, to, Failed);
    if to == Done { ListsMore(part.done, With(part, Done), id); }
    if to == Failed { ListsMore(part.failed, With(part, Failed), id); }
  }

  lemma FailKeepsPart(spec: Spec, part: Part, id: string)
    requires PartOk(spec, part) && id in part.status && part.status[id] == Pending
    ensures PartOk(spec, Failing(part, id))
  {
    assert id !in With(part, Running);
    MoveKeepsPart(spec, part, Failing(part, id), id, Failed);
  }

  lemma StartKeepsPart(spec: Spec, part: Part, id: string)
    requires PartOk(spec, part) && id in part.status && part.status[id] == Pending && AllDone(part, Deps(spec, id))
    ensures PartOk(spec, Set(part, id, Running))
  {
    assert id !in With(part, Running);
    MoveKeepsPart(spec, part, Set(part, id, Running), id, Running);
  }

  lemma JudgeKeepsPart(p: Project, part: Part, id: string, present: set<(string, string)>)
    requires PartOk(p.spec, part) && id in part.finished
    ensures PartOk(p.spec, Judge(p, part, id, present))
  {
    assert id in With(part, Running);
    var to := if Good(p, part, id, present) then Done else Failed;
    MoveKeepsPart(p.spec, part, Judge(p, part, id, present), id, to);
  }

  // ------------------------------------------------------------- each change keeps the claims exact

  lemma IdleMoveKeepsClaims(ps: seq<Project>, g: World, g': World, key: Naming, i: nat, id: string,
      from: Status, to: Status)
    requires |ps| == |g.parts| && ClaimsNamed(ps, g, key) && Moves(g, g', i, id, from, to)
    requires from != Running && to != Running && g'.claimed == g.claimed
    ensures ClaimsNamed(ps, g', key)
  {
    forall j: nat, x ensures Is(g', j, x, Running) <==> Is(g, j, x, Running) {
      MoveRunning(g, g', i, id, from, to, j, x, Running);
    }
    forall k | k in g'.claimed ensures Claimant(ps, g', key, k) {
      assert Claimant(ps, g, key, k);
    }
  }

  lemma StartKeepsClaims(ps: seq<Project>, g: World, g': World, key: Naming, i: nat, id: string, keys: seq<string>)
    requires |ps| == |g.parts| && ClaimsNamed(ps, g, key) && Moves(g, g', i, id, Pending, Running)
    requires ClaimKeys(ps[i], id) !! g.claimed.Keys && g'.claimed == Claim(g.claimed, keys, key(i, id))
    requires forall k :: k in keys <==> k in ClaimKeys(ps[i], id)
    ensures ClaimsNamed(ps, g', key)
  {
    forall j: nat, x ensures Is(g', j, x, Running) <==> (j == i && x == id) || Is(g, j, x, Running) {
      MoveRunning(g, g', i, id, Pending, Running, j, x, Running);
    }
    forall k | k in g'.claimed ensures Claimant(ps, g', key, k) {
      if k in ClaimKeys(ps[i], id) {
        assert Is(g', i, id, Running);
      } else {
        assert Claimant(ps, g, key, k);
      }
    }
  }

  lemma ReleaseKeeps(claimed: map<string, string>, owner: string, k: string)
    ensures k in Release(claimed, owner) <==> k in claimed && claimed[k] != owner
    ensures k in Release(claimed, owner) ==> Release(claimed, owner)[k] == claimed[k]
  {
  }

  /** In `g'` the same tasks run as in `g`, less task `id` of project `i`. */
  ghost predicate RunsLess(g: World, g': World, i: nat, id: string) {
    forall j: nat, x :: Is(g', j, x, Running) <==> Is(g, j, x, Running) && !(j == i && x == id)
  }

  lemma MoveRunsLess(g: World, g': World, i: nat, id: string, to: Status)
    requires Moves(g, g', i, id, Running, to)
    ensures RunsLess(g, g', i, id)
  {
    forall j: nat, x ensures Is(g', j, x, Running) <==> Is(g, j, x, Running) && !(j == i && x == id) {
      MoveRunning(g, g', i, id, Running, to, j, x, Running);
    }
  }

  lemma ReleasedClaimant(ps: seq<Project>, g: World, g': World, key: Naming, i: nat, id: string, k: string)
    requires |ps| == |g.parts| == |g'.parts| && RunsLess(g, g', i, id)
    requires k in g.claimed && k in g'.claimed && g'.claimed[k] == g.claimed[k] != key(i, id)
    requires Claimant(ps, g, key, k)
    ensures Claimant(ps, g', key, k)
  {
    var j: nat, x :| Is(g, j, x, Running) && k in ClaimKeys(ps[j], x) && g.claimed[k] == key(j, x);
    assert Is(g', j, x, Running);
  }

  lemma UnreleasedClaim(ps: seq<Project>, g: World, g': World, key: Naming, i: nat, id: string, j: nat,
      x: string, k: string)
    requires |ps| == |g.parts| == |g'.parts| && Injective(key) && !(j == i && x == id)
    requires k in g.claimed && g.claimed[k] == key(j, x)
    requires g'.claimed == Release(g.claimed, key(i, id))
    ensures k in g'.claimed && g'.claimed[k] == key(j, x)
  {
  }

  lemma HarvestKeepsClaimants(ps: seq<Project>, g: World, g': World, key: Naming, i: nat, id: string)
    requires |ps| == |g.parts| == |g'.parts| && RunsLess(g, g', i, id)
    requires g'.claimed == Release(g.claimed, key(i, id))
    requires forall k :: k in g.claimed ==> Claimant(ps, g, key, k)
    ensures forall k :: k in g'.claimed ==> Claimant(ps, g', key, k)
  {
    var owner := key(i, id);
    forall k | k in g'.claimed ensures Claimant(ps, g', key, k) {
      ReleaseKeeps(g.claimed, owner, k);
      ReleasedClaimant(ps, g, g', key, i, id, k);
    }
  }

  lemma HarvestKeepsClaims(ps: seq<Project>, g: World, g': World, key: Naming, i: nat, id: string)
    requires |ps| == |g.parts| == |g'.parts| && ClaimsNamed(ps, g, key) && RunsLess(g, g', i, id)
    requires Injective(key) && g'.claimed == Release(g.claimed, key(i, id))
    ensures ClaimsNamed(ps, g', key)
  {
    forall j: nat, x, k | Is(g', j, x, Running) && k in ClaimKeys(ps[j], x)
      ensures k in g'.claimed && g'.claimed[k] == key(j, x)
    {
      UnreleasedClaim(ps, g, g', key, i, id, j, x, k);
    }
    HarvestKeepsClaimants(ps, g, g', key, i, id);
  }

  // ------------------------------------------------------------- each change keeps the invariant

  /** Verdicts are final: a done task stays done, a failed one failed. */
  ghost predicate Final(g: World, g': World) {
    && |g'.parts| == |g.parts|
    && (forall i: nat, id :: Is(g, i, id, Done) ==> Is(g', i, id, Done))
    && (forall i: nat, id :: Is(g, i, id, Failed) ==> Is(g', i, id, Failed))
  }

  lemma MoveIsFinal(g: World, g': World, i: nat, id: string, from: Status, to: Status)
    requires Moves(g, g', i, id, from, to) && from != Done && from != Failed
    ensures Final(g, g')
  {
    forall j: nat, x, s | s == Done || s == Failed ensures Is(g, j, x, s) ==> Is(g', j, x, s) {
      MoveRunning(g, g', i, id, from, to, j, x, s);
    }
  }

  lemma FailStep(ps: seq<Project>, max: nat, g: World, i: nat, id: string)
    requires Invariant(ps, max, g) && Is(g, i, id, Pending)
    ensures Invariant(ps, max, Fail(g, i, id)) && Final(g, Fail(g, i, id))
    ensures RunningTotal(Fail(g, i, id)) == RunningTotal(g) && Remaining(Fail(g, i, id)) + 2 == Remaining(g)
  {
    var g' := Fail(g, i, id);
    FailKeepsPart(ps[i].spec, g.parts[i], id);
    assert Moves(g, g', i, id, Pending, Failed);
    MoveTally(g, g', i, id, Pending, Failed);
    IdleMoveKeepsClaims(ps, g, g', TaskKey, i, id, Pending, Failed);
    MoveIsFinal(g, g', i, id, Pending, Failed);
  }

  lemma StartStep(ps: seq<Project>, max: nat, g: World, i: nat, id: string)
    requires Invariant(ps, max, g) && Is(g, i, id, Pending) && AllDone(g.parts[i], Deps(ps[i].spec, id))
    requires ClaimKeys(ps[i], id) !! g.claimed.Keys && RunningTotal(g) < max
    ensures Invariant(ps, max, Start(ps, g, i, id)) && Final(g, Start(ps, g, i, id))
    ensures RunningTotal(Start(ps, g, i, id)) == RunningTotal(g) + 1
    ensures Remaining(Start(ps, g, i, id)) + 1 == Remaining(g)
  {
    var g' := Start(ps, g, i, id);
    StartKeepsPart(ps[i].spec, g.parts[i], id);
    assert Moves(g, g', i, id, Pending, Running);
    MoveTally(g, g', i, id, Pending, Running);
    SameClaimKeys(ps[i], id);
    StartKeepsClaims(ps, g, g', TaskKey, i, id, ClaimSeq(ps[i], id));
    MoveIsFinal(g, g', i, id, Pending, Running);
  }

  lemma HarvestStep(ps: seq<Project>, max: nat, g: World, i: nat, id: string, present: set<(string, string)>)
    requires Invariant(ps, max, g) && i < |ps| && id in g.parts[i].finished
    ensures Invariant(ps, max, HarvestOne(ps, g, i, id, present)) && Final(g, HarvestOne(ps, g, i, id, present))
    ensures RunningTotal(HarvestOne(ps, g, i, id, present)) + 1 == RunningTotal(g)
    ensures Remaining(HarvestOne(ps, g, i, id, present)) + 1 == Remaining(g)
  {
    var g' := HarvestOne(ps, g, i, id, present);
    JudgeKeepsPart(ps[i], g.parts[i], id, present);
    assert id in With(g.parts[i], Running);
    var to := if Good(ps[i], g.parts[i], id, present) then Done else Failed;
    assert Moves(g, g', i, id, Running, to);
    MoveTally(g, g', i, id, Running, to);
    TaskKeysDiffer();
    MoveRunsLess(g, g', i, id, to);
    HarvestKeepsClaims(ps, g, g', TaskKey, i, id);
    MoveIsFinal(g, g', i, id, Running, to);
  }

  // ------------------------------------------------------------- the harvest

  lemma {:induction false} HarvestIdsKeeps(ps: seq<Project>, max: nat, g: World, i: nat, ids: seq<string>,
      present: set<(string, string)>)
    requires Invariant(ps, max, g) && i < |ps| && Lists(ids, g.parts[i].finished)
    ensures var g' := HarvestIds(ps, g, i, ids, present);
      && Invariant(ps, max, g') && Final(g, g')
      && Remaining(g') + |ids| == Remaining(g) && RunningTotal(g') + |ids| == RunningTotal(g)
      && forall j :: 0 <= j < |ps| && j != i ==> g'.parts[j] == g.parts[j]
    decreases ids
  {
    if ids != [] {
      HarvestStep(ps, max, g, i, ids[0], present);
      ListsLess(ids, g.parts[i].finished);
      HarvestIdsKeeps(ps, max, HarvestOne(ps, g, i, ids[0], present), i, ids[1..], present);
    }
  }

  lemma ListsLess(s: seq<string>, ids: set<string>)
    requires Lists(s, ids) && s != []
    ensures Lists(s[1..], ids - {s[0]})
  {
    forall id ensures id in s[1..] <==> id in ids - {s[0]} {
      if id in ids - {s[0]} {
        var k :| 0 <= k < |s| && s[k] == id;
        assert s[1..][k - 1] == id;
      }
    }
  }

  function Count(orders: seq<seq<string>>, i: nat): nat
    requires i <= |orders|
    decreases |orders| - i
  {
    if i == |orders| then 0 else |orders[i]| + Count(orders, i + 1)
  }

  /** Taking in the finished tasks keeps the invariant and leaves exactly that much less to do. */
  lemma {:induction false} HarvestAllKeeps(ps: seq<Project>, max: nat, g: World, i: nat,
      orders: seq<seq<string>>, present: set<(string, string)>)
    requires Invariant(ps, max, g) && i <= |ps| == |orders|
    requires forall j :: i <= j < |ps| ==> Lists(orders[j], g.parts[j].finished)
    ensures var g' := HarvestAll(ps, g, i, orders, present);
      && Invariant(ps, max, g') && Final(g, g')
      && Remaining(g') + Count(orders, i) == Remaining(g) && RunningTotal(g') <= RunningTotal(g)
    decreases |ps| - i
  {
    if i < |ps| {
      HarvestIdsKeeps(ps, max, g, i, orders[i], present);
      HarvestAllKeeps(ps, max, HarvestIds(ps, g, i, orders[i], present), i + 1, orders, present);
    }
  }

  // ------------------------------------------------------------- the scan

  /** A scan step keeps the invariant and the slot budget; it changes nothing, or leaves less to do. */
  ghost predicate Scanned(ps: seq<Project>, max: nat, g: World, slots: nat, r: (World, nat)) {
    && Invariant(ps, max, r.0) && Final(g, r.0)
    && RunningTotal(r.0) + r.1 == RunningTotal(g) + slots <= max
    && (r == (g, slots) || Remaining(r.0) < Remaining(g))
  }

  lemma ScanTaskKeeps(ps: seq<Project>, max: nat, g: World, i: nat, t: Task, slots: nat)
    requires Invariant(ps, max, g) && i < |ps| && RunningTotal(g) + slots <= max
    requires Find(ps[i].spec, t.id) == Some(t)
    ensures Scanned(ps, max, g, slots, ScanTask(ps, g, i, t, slots))
  {
    var part := g.parts[i];
    if slots == 0 || t.id !in part.status || part.status[t.id] != Pending {
    } else if AnyFailed(part, t.deps) {
      FailStep(ps, max, g, i, t.id);
    } else if AllDone(part, t.deps) && !Blocked(ps[i].spec, t.id, part.questions) && !ClaimTaken(ps[i], g, t) {
      StartStep(ps, max, g, i, t.id);
    }
  }

  lemma {:induction false} ScanTasksKeeps(ps: seq<Project>, max: nat, g: World, i: nat, tasks: seq<Task>, slots: nat)
    requires Invariant(ps, max, g) && i < |ps| && RunningTotal(g) + slots <= max
    requires forall t :: t in tasks ==> Find(ps[i].spec, t.id) == Some(t)
    ensures Scanned(ps, max, g, slots, ScanTasks(ps, g, i, tasks, slots))
    ensures ScanTasks(ps, g, i, tasks, slots) == (g, slots) ==>
              forall t :: t in tasks ==> ScanTask(ps, g, i, t, slots) == (g, slots)
    decreases tasks
  {
    if tasks != [] {
      ScanTaskKeeps(ps, max, g, i, tasks[0], slots);
      var (g', slots') := ScanTask(ps, g, i, tasks[0], slots);
      ScanTasksKeeps(ps, max, g', i, tasks[1..], slots');
    }
  }

  lemma {:induction false} ScanProjectsKeeps(ps: seq<Project>, max: nat, g: World, visit: seq<nat>, slots: nat)
    requires Invariant(ps, max, g) && Validated(ps) && RunningTotal(g) + slots <= max
    requires forall k :: 0 <= k < |visit| ==> visit[k] < |ps|
    ensures Scanned(ps, max, g, slots, ScanProjects(ps, g, visit, slots))
    ensures ScanProjects(ps, g, visit, slots) == (g, slots) ==>
              forall i, t :: i in visit && t in ps[i].spec ==> ScanTask(ps, g, i, t, slots) == (g, slots)
    decreases visit
  {
    if visit != [] {
      var i := visit[0];
      SpecFound(ps[i].spec);
      ScanTasksKeeps(ps, max, g, i, ps[i].spec, slots);
      var (g', slots') := ScanTasks(ps, g, i, ps[i].spec, slots);
      ScanProjectsKeeps(ps, max, g', visit[1..], slots');
    }
  }

  lemma SpecFound(spec: Spec)
    requires UniqueIds(spec)
    ensures forall t :: t in spec ==> Find(spec, t.id) == Some(t)
  {
    forall i | 0 <= i < |spec| ensures Find(spec, spec[i].id) == Some(spec[i]) {
      FindUnique(spec, i);
    }
  }
}
