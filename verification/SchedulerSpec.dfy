/** The tick loop of `run_projects` (rolen-orchestrator/src/scheduler.rs) as functions on
    one state: several task graphs under one slot budget and one table of path claims. */
module SchedulerSpec {
  import opened Text
  import opened Dag

  datatype Status = Pending | Running | Done | Failed

  /** What an agent thread returned. */
  datatype Outcome = AgentOk | AgentErr(reason: string)

  datatype Project = Project(workdir: string, spec: Spec)

  /** One project's half of the loop's state. `results` and `finished` are filled by the
      worker threads; `pushed` remembers whose result was handed in. */
  datatype Part = Part(
    status: map<string, Status>,
    results: seq<(string, Outcome)>,
    pushed: set<string>,
    finished: set<string>,
    done: seq<string>,
    failed: seq<string>,
    questions: set<string>)

  datatype World = World(parts: seq<Part>, claimed: map<string, string>)

  /** `format!("{project_idx}:{task_id}")` */
  function TaskKey(i: nat, id: string): string {
    Decimal(i) + ([':'] + id)
  }

  /** `format!("{}::{rel}", workdir)` */
  function ClaimKey(workdir: string, rel: string): string {
    workdir + "::" + rel
  }

  lemma TaskKeyInjective(i: nat, id: string, j: nat, other: string)
    requires TaskKey(i, id) == TaskKey(j, other)
    ensures i == j && id == other
  {
    UpToDelimiter(Decimal(i), ':', id);
    UpToDelimiter(Decimal(j), ':', other);
    ValueOfDecimal(i);
    ValueOfDecimal(j);
    assert TaskKey(i, id)[|Decimal(i)| + 1..] == id && TaskKey(j, other)[|Decimal(j)| + 1..] == other;
  }

  /** Within a directory every file has its own claim key; files of two directories can share one
      only if the name of a directory holds a colon. */
  lemma ClaimKeyInjective(workdir: string, rel: string, other: string, file: string)
    requires workdir == other || (':' !in workdir && ':' !in other)
    ensures ClaimKey(workdir, rel) == ClaimKey(other, file) <==> workdir == other && rel == file
  {
    var x, y := ClaimKey(workdir, rel), ClaimKey(other, file);
    assert x[|workdir|] == ':' && y[|other|] == ':';
    assert forall k :: 0 <= k < |workdir| ==> x[k] == workdir[k];
    assert forall k :: 0 <= k < |other| ==> y[k] == other[k];
    if x == y {
      assert |workdir| == |other|;
      assert workdir == x[..|workdir|] && other == y[..|other|];
      assert rel == x[|workdir| + 2..] && file == y[|other| + 2..];
    }
  }

  function Initial(p: Project): Part {
    Part(AllPending(p.spec), [], {}, {}, [], [], {})
  }

  function AllPending(spec: Spec): (r: map<string, Status>)
    ensures r.Keys == Ids(spec) && forall id :: id in r ==> r[id] == Pending
  {
    if spec == [] then map[]
    else
      IdsSnoc(spec);
      AllPending(spec[..|spec| - 1])[spec[|spec| - 1].id := Pending]
  }

  predicate Is(g: World, i: nat, id: string, s: Status) {
    i < |g.parts| && id in g.parts[i].status && g.parts[i].status[id] == s
  }

  function Claims(spec: Spec, id: string): seq<string> {
    match Find(spec, id) case None => [] case Some(t) => t.claims
  }

  function ClaimKeys(p: Project, id: string): set<string> {
    set rel | rel in Claims(p.spec, id) :: ClaimKey(p.workdir, rel)
  }

  /** The same keys, in the order they are entered. */
  function ClaimSeq(p: Project, id: string): (keys: seq<string>) {
    var claims := Claims(p.spec, id);
    seq(|claims|, k requires 0 <= k < |claims| => ClaimKey(p.workdir, claims[k]))
  }

  lemma SameClaimKeys(p: Project, id: string)
    ensures forall key :: key in ClaimSeq(p, id) <==> key in ClaimKeys(p, id)
  {
    var claims := Claims(p.spec, id);
    forall rel | rel in claims ensures ClaimKey(p.workdir, rel) in ClaimSeq(p, id) {
      var k :| 0 <= k < |claims| && claims[k] == rel;
      assert ClaimSeq(p, id)[k] == ClaimKey(p.workdir, rel);
    }
  }

  // ------------------------------------------------------------- single steps

  function Set(part: Part, id: string, s: Status): Part {
    part.(status := part.status[id := s])
  }

  function Failing(part: Part, id: string): Part {
    Set(part, id, Failed).(failed := part.failed + [id])
  }

  function Finishing(part: Part, id: string): Part {
    Set(part, id, Done).(done := part.done + [id])
  }

  function Fail(g: World, i: nat, id: string): World
    requires i < |g.parts|
  {
    g.(parts := g.parts[i := Failing(g.parts[i], id)])
  }

  /** A task starts: its claims are entered, its slot is taken. */
  function Start(ps: seq<Project>, g: World, i: nat, id: string): World
    requires i < |g.parts| && i < |ps|
  {
    World(g.parts[i := Set(g.parts[i], id, Running)], Claim(g.claimed, ClaimSeq(ps[i], id), TaskKey(i, id)))
  }

  function Claim(claimed: map<string, string>, keys: seq<string>, owner: string): (r: map<string, string>)
    ensures forall k :: k in r <==> k in claimed || k in keys
    ensures forall k :: k in r ==> r[k] == if k in keys then owner else claimed[k]
    decreases |keys|
  {
    if keys == [] then claimed
    else
      var n := |keys| - 1;
      assert keys == keys[..n] + [keys[n]];
      Claim(claimed, keys[..n], owner)[keys[n] := owner]
  }

  function Release(claimed: map<string, string>, owner: string): map<string, string> {
    claimed - set k | k in claimed && claimed[k] == owner
  }

  /** `drain(..).find(..)`: the first result of that id; everything else is thrown away. */
  function FirstResult(results: seq<(string, Outcome)>, id: string): Option<Outcome> {
    if results == [] then None
    else if results[0].0 == id then Some(results[0].1)
    else FirstResult(results[1..], id)
  }

  predicate NothingMissing(p: Project, id: string, present: set<(string, string)>) {
    forall rel :: rel in Claims(p.spec, id) ==> (p.workdir, rel) in present
  }

  /** The result is good: an agent's success is at hand and every claimed file exists. */
  predicate Good(p: Project, part: Part, id: string, present: set<(string, string)>) {
    FirstResult(part.results, id) == Some(AgentOk) && NothingMissing(p, id, present)
  }

  function Judge(p: Project, part: Part, id: string, present: set<(string, string)>): Part {
    var taken := part.(results := [], finished := part.finished - {id}, pushed := part.pushed - {id});
    if Good(p, part, id, present) then Finishing(taken, id) else Failing(taken, id)
  }

  /** One finished task is taken in: claims released, the result judged. */
  function HarvestOne(ps: seq<Project>, g: World, i: nat, id: string, present: set<(string, string)>): World
    requires i < |g.parts| && i < |ps|
  {
    World(g.parts[i := Judge(ps[i], g.parts[i], id, present)], Release(g.claimed, TaskKey(i, id)))
  }

  function HarvestIds(ps: seq<Project>, g: World, i: nat, ids: seq<string>, present: set<(string, string)>): (r: World)
    requires i < |g.parts| && i < |ps|
    ensures |r.parts| == |g.parts|
    decreases ids
  {
    if ids == [] then g else HarvestIds(ps, HarvestOne(ps, g, i, ids[0], present), i, ids[1..], present)
  }

  /** The orders in which the finished sets happen to be drained, project by project. */
  ghost predicate Drains(g: World, orders: seq<seq<string>>) {
    && |orders| == |g.parts|
    && forall i :: 0 <= i < |orders| ==>
         (forall id :: id in orders[i] <==> id in g.parts[i].finished)
         && forall a, b :: 0 <= a < b < |orders[i]| ==> orders[i][a] != orders[i][b]
  }

  function HarvestAll(ps: seq<Project>, g: World, i: nat, orders: seq<seq<string>>, present: set<(string, string)>): (r: World)
    requires |ps| == |g.parts| == |orders| && i <= |ps|
    ensures |r.parts| == |g.parts|
    decreases |ps| - i
  {
    if i == |ps| then g else HarvestAll(ps, HarvestIds(ps, g, i, orders[i], present), i + 1, orders, present)
  }

  // ------------------------------------------------------------- starting tasks

  predicate AnyFailed(part: Part, deps: seq<string>) {
    exists d :: d in deps && d in part.status && part.status[d] == Failed
  }

  predicate AllDone(part: Part, deps: seq<string>) {
    forall d :: d in deps ==> d in part.status && part.status[d] == Done
  }

  predicate ClaimTaken(p: Project, g: World, t: Task) {
    exists rel :: rel in t.claims && ClaimKey(p.workdir, rel) in g.claimed
  }

  /** What the scan does with one task while `slots` are left. */
  ghost function ScanTask(ps: seq<Project>, g: World, i: nat, t: Task, slots: nat): (World, nat)
    requires i < |g.parts| && i < |ps|
  {
    var part := g.parts[i];
    if slots == 0 || t.id !in part.status || part.status[t.id] != Pending then (g, slots)
    else if AnyFailed(part, t.deps) then (Fail(g, i, t.id), slots)
    else if !AllDone(part, t.deps) then (g, slots)
    else if Blocked(ps[i].spec, t.id, part.questions) then (g, slots)
    else if ClaimTaken(ps[i], g, t) then (g, slots)
    else (Start(ps, g, i, t.id), slots - 1)
  }

  ghost function ScanTasks(ps: seq<Project>, g: World, i: nat, tasks: seq<Task>, slots: nat): (r: (World, nat))
    requires i < |g.parts| && i < |ps|
    ensures |r.0.parts| == |g.parts|
    decreases tasks
  {
    if tasks == [] then (g, slots)
    else
      var (g', slots') := ScanTask(ps, g, i, tasks[0], slots);
      ScanTasks(ps, g', i, tasks[1..], slots')
  }

  /** The projects in the order the rotation visits them. */
  ghost function ScanProjects(ps: seq<Project>, g: World, visit: seq<nat>, slots: nat): (r: (World, nat))
    requires |ps| == |g.parts| && forall k :: 0 <= k < |visit| ==> visit[k] < |ps|
    ensures |r.0.parts| == |g.parts|
    decreases visit
  {
    if visit == [] then (g, slots)
    else
      var (g', slots') := ScanTasks(ps, g, visit[0], ps[visit[0]].spec, slots);
      ScanProjects(ps, g', visit[1..], slots')
  }

  function Rotation(n: nat, first: nat): (visit: seq<nat>)
    ensures |visit| == n && forall k :: 0 <= k < n ==> visit[k] == (first + k) % n && visit[k] < n
  {
    seq(n, k requires 0 <= k < n => (first + k) % n)
  }

  // ------------------------------------------------------------- counting

  function Total(f: Part -> nat, parts: seq<Part>): nat {
    if parts == [] then 0 else f(parts[0]) + Total(f, parts[1..])
  }

  lemma {:induction false} TotalUpdate(f: Part -> nat, parts: seq<Part>, i: nat, part: Part)
    requires i < |parts|
    ensures Total(f, parts[i := part]) + f(parts[i]) == Total(f, parts) + f(part)
  {
    if i > 0 {
      assert parts[i := part][1..] == parts[1..][i - 1 := part];
      TotalUpdate(f, parts[1..], i - 1, part);
    } else {
      assert parts[i := part][1..] == parts[1..];
    }
  }

  function With(part: Part, s: Status): set<string> {
    set id | id in part.status && part.status[id] == s
  }

  function RunningIn(part: Part): nat {
    |With(part, Running)|
  }

  /** What is left to do: a pending task has two changes before it, a running one has one. */
  function WorkIn(part: Part): nat {
    2 * |With(part, Pending)| + |With(part, Running)|
  }

  function RunningTotal(g: World): nat { Total(RunningIn, g.parts) }

  function Remaining(g: World): nat { Total(WorkIn, g.parts) }

  lemma {:induction false} TotalSame(f: Part -> nat, a: seq<Part>, b: seq<Part>)
    requires |a| == |b| && forall i :: 0 <= i < |a| ==> f(a[i]) == f(b[i])
    ensures Total(f, a) == Total(f, b)
  {
    if a != [] { TotalSame(f, a[1..], b[1..]); }
  }

  // ------------------------------------------------------------- events

  /** A worker hands in its result, later marks itself finished; in between and around it
      the loop ticks. A hand-in that lands inside a tick acts like one before that tick when
      its project's results are still to be drained, and like one after it otherwise. */
  datatype Event =
    | Push(i: nat, id: string, outcome: Outcome)
    | Mark(i: nat, id: string)
    | Tick(orders: seq<seq<string>>, present: set<(string, string)>, questions: seq<set<string>>, first: nat)

  ghost predicate Enabled(g: World, e: Event) {
    match e
    case Push(i, id, _) => Is(g, i, id, Running) && id !in g.parts[i].pushed
    case Mark(i, id) => i < |g.parts| && id in g.parts[i].pushed && id !in g.parts[i].finished
    case Tick(orders, _, questions, _) => Drains(g, orders) && |questions| == |g.parts|
  }

  function Ask(g: World, questions: seq<set<string>>): World
    requires |questions| == |g.parts|
  {
    g.(parts := seq(|g.parts|, i requires 0 <= i < |g.parts| => g.parts[i].(questions := questions[i])))
  }

  lemma AskRunsNothing(g: World, questions: seq<set<string>>)
    requires |questions| == |g.parts|
    ensures RunningTotal(Ask(g, questions)) == RunningTotal(g)
  {
    TotalSame(RunningIn, g.parts, Ask(g, questions).parts);
  }

  predicate Settled(g: World) {
    forall i, id :: 0 <= i < |g.parts| && id in g.parts[i].status ==>
      g.parts[i].status[id] != Pending && g.parts[i].status[id] != Running
  }

  /** The half of a tick after the harvest. */
  ghost function Scan(ps: seq<Project>, max: nat, g: World, questions: seq<set<string>>, first: nat): (r: World)
    requires |ps| == |g.parts| == |questions|
    ensures |r.parts| == |g.parts|
  {
    if Settled(g) then g
    else
      var a := Ask(g, questions);
      var running := RunningTotal(a);
      ScanProjects(ps, a, Rotation(|ps|, first), if running <= max then max - running else 0).0
  }

  ghost function OnTick(ps: seq<Project>, max: nat, g: World, e: Event): (r: World)
    requires e.Tick? && Enabled(g, e) && |ps| == |g.parts|
    ensures |r.parts| == |g.parts|
  {
    Scan(ps, max, HarvestAll(ps, g, 0, e.orders, e.present), e.questions, e.first)
  }

  ghost function Next(ps: seq<Project>, max: nat, g: World, e: Event): (r: World)
    requires Enabled(g, e) && |ps| == |g.parts|
    ensures |r.parts| == |g.parts|
  {
    match e
    case Push(i, id, outcome) =>
      g.(parts := g.parts[i := g.parts[i].(results := g.parts[i].results + [(id, outcome)],
                                          pushed := g.parts[i].pushed + {id})])
    case Mark(i, id) => g.(parts := g.parts[i := g.parts[i].(finished := g.parts[i].finished + {id})])
    case Tick(_, _, _, _) => OnTick(ps, max, g, e)
  }
}
