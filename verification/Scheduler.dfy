/** The tick loop of `run_projects` in place (rolen-orchestrator/src/scheduler.rs:254-521),
    proved against the functions of SchedulerSpec. */
module Scheduler {
  import opened Text
  import opened Dag
  import opened SchedulerSpec

  lemma {:induction false} NoSlotNoScan(ps: seq<Project>, g: World, i: nat, tasks: seq<Task>)
    requires i < |g.parts| && i < |ps|
    ensures ScanTasks(ps, g, i, tasks, 0) == (g, 0)
    decreases tasks
  {
    if tasks != [] { NoSlotNoScan(ps, g, i, tasks[1..]); }
  }

  lemma {:induction false} NoSlotNoVisit(ps: seq<Project>, g: World, visit: seq<nat>)
    requires |ps| == |g.parts| && forall k :: 0 <= k < |visit| ==> visit[k] < |ps|
    ensures ScanProjects(ps, g, visit, 0) == (g, 0)
    decreases visit
  {
    if visit != [] {
      NoSlotNoScan(ps, g, visit[0], ps[visit[0]].spec);
      NoSlotNoVisit(ps, g, visit[1..]);
    }
  }

  class Batch {
    const projects: seq<Project>
    const maxParallel: nat
    var parts: seq<Part>
    var claimed: map<string, string>
    var roundRobin: nat

    constructor (projects: seq<Project>, maxParallel: nat)
      ensures this.projects == projects && this.maxParallel == maxParallel && Valid() && roundRobin == 0
      ensures claimed == map[] && forall i :: 0 <= i < |parts| ==> parts[i] == Initial(projects[i])
    {
      this.projects := projects;
      this.maxParallel := maxParallel;
      parts := seq(|projects|, i requires 0 <= i < |projects| => Initial(projects[i]));
      claimed := map[];
      roundRobin := 0;
    }

    predicate Valid()
      reads this
    {
      |parts| == |projects|
    }

    function View(): World
      reads this
    {
      World(parts, claimed)
    }

    // ----------------------------------------------------------- the worker threads

    method HandIn(i: nat, id: string, outcome: Outcome)
      requires Valid() && Enabled(View(), Push(i, id, outcome))
      modifies this`parts
      ensures Valid() && View() == Next(projects, maxParallel, old(View()), Push(i, id, outcome))
    {
      parts := parts[i := parts[i].(results := parts[i].results + [(id, outcome)], pushed := parts[i].pushed + {id})];
    }

    method MarkFinished(i: nat, id: string)
      requires Valid() && Enabled(View(), Mark(i, id))
      modifies this`parts
      ensures Valid() && View() == Next(projects, maxParallel, old(View()), Mark(i, id))
    {
      parts := parts[i := parts[i].(finished := parts[i].finished + {id})];
    }

    // ----------------------------------------------------------- harvest

    /** `results.drain(..).find(..)` */
    method TakeResult(i: nat, id: string) returns (found: Option<Outcome>)
      requires Valid() && i < |parts|
      modifies this`parts
      ensures found == FirstResult(old(parts)[i].results, id)
      ensures parts == old(parts)[i := old(parts)[i].(results := [])]
    {
      var queue := parts[i].results;
      parts := parts[i := parts[i].(results := [])];
      while queue != []
        invariant FirstResult(queue, id) == FirstResult(old(parts)[i].results, id)
        decreases |queue|
      {
        if queue[0].0 == id { return Some(queue[0].1); }
        queue := queue[1..];
      }
      found := None;
    }

    method HarvestTask(i: nat, id: string, present: set<(string, string)>)
      requires Valid() && i < |parts|
      modifies this`parts, this`claimed
      ensures Valid() && View() == HarvestOne(projects, old(View()), i, id, present)
    {
      ghost var before := parts[i];
      claimed := claimed - set k | k in claimed && claimed[k] == TaskKey(i, id);
      parts := parts[i := parts[i].(finished := parts[i].finished - {id}, pushed := parts[i].pushed - {id})];
      var res := TakeResult(i, id);
      if res == Some(AgentOk) && NothingMissing(projects[i], id, present) {
        parts := parts[i := parts[i].(status := parts[i].status[id := Done], done := parts[i].done + [id])];
      } else {
        parts := parts[i := parts[i].(status := parts[i].status[id := Failed], failed := parts[i].failed + [id])];
      }
      assert parts[i] == Judge(projects[i], before, id, present);
    }

    method Harvest(orders: seq<seq<string>>, present: set<(string, string)>)
      requires Valid() && |orders| == |parts|
      modifies this`parts, this`claimed
      ensures Valid() && View() == HarvestAll(projects, old(View()), 0, orders, present)
    {
      var i := 0;
      while i < |parts|
        invariant 0 <= i <= |parts| && Valid()
        invariant HarvestAll(projects, View(), i, orders, present) == HarvestAll(projects, old(View()), 0, orders, present)
      {
        HarvestProject(i, orders[i], present);
        i := i + 1;
      }
    }

    method HarvestProject(i: nat, finished: seq<string>, present: set<(string, string)>)
      requires Valid() && i < |parts|
      modifies this`parts, this`claimed
      ensures Valid() && View() == HarvestIds(projects, old(View()), i, finished, present)
    {
      var k := 0;
      while k < |finished|
        invariant 0 <= k <= |finished| && Valid()
        invariant HarvestIds(projects, View(), i, finished[k..], present) == HarvestIds(projects, old(View()), i, finished, present)
      {
        assert finished[k..][0] == finished[k] && finished[k..][1..] == finished[k + 1..];
        HarvestTask(i, finished[k], present);
        k := k + 1;
      }
    }

    // ----------------------------------------------------------- scan

    method StartTask(i: nat, id: string)
      requires Valid() && i < |parts|
      modifies this`parts, this`claimed
      ensures Valid() && View() == Start(projects, old(View()), i, id)
    {
      EnterClaims(ClaimSeq(projects[i], id), TaskKey(i, id));
      parts := parts[i := parts[i].(status := parts[i].status[id := Running])];
    }

    method EnterClaims(keys: seq<string>, owner: string)
      modifies this`claimed
      ensures claimed == Claim(old(claimed), keys, owner)
    {
      var k := 0;
      while k < |keys|
        invariant 0 <= k <= |keys|
        invariant claimed == Claim(old(claimed), keys[..k], owner)
      {
        claimed := claimed[keys[k] := owner];
        assert keys[..k + 1][..k] == keys[..k];
        k := k + 1;
      }
      assert keys[..k] == keys;
    }

    method ConsiderTask(i: nat, task: Task, slots: nat) returns (left: nat)
      requires Valid() && i < |parts| && slots > 0
      modifies this`parts, this`claimed
      ensures Valid() && (View(), left) == ScanTask(projects, old(View()), i, task, slots)
    {
      var part := parts[i];
      left := slots;
      if !(task.id in part.status && part.status[task.id] == Pending) { return; }
      if AnyFailed(part, task.deps) {
        parts := parts[i := part.(status := part.status[task.id := Failed], failed := part.failed + [task.id])];
        return;
      }
      if !AllDone(part, task.deps) { return; }
      var blocked := BlockedByQuestion(projects[i].spec, task.id, part.questions);
      if blocked { return; }
      if ClaimTaken(projects[i], View(), task) { return; }
      StartTask(i, task.id);
      left := slots - 1;
    }

    method ScanProject(i: nat, slots: nat) returns (left: nat)
      requires Valid() && i < |parts|
      modifies this`parts, this`claimed
      ensures Valid() && (View(), left) == ScanTasks(projects, old(View()), i, projects[i].spec, slots)
    {
      var tasks := projects[i].spec;
      var k := 0;
      left := slots;
      while k < |tasks|
        invariant 0 <= k <= |tasks| && Valid()
        invariant ScanTasks(projects, View(), i, tasks[k..], left) == ScanTasks(projects, old(View()), i, tasks, slots)
      {
        if left == 0 {
          NoSlotNoScan(projects, View(), i, tasks[k..]);
          return;
        }
        assert tasks[k..][0] == tasks[k] && tasks[k..][1..] == tasks[k + 1..];
        left := ConsiderTask(i, tasks[k], left);
        k := k + 1;
      }
    }

    method VisitProjects(slots: nat)
      requires Valid()
      modifies this`parts, this`claimed
      ensures Valid() && View() == ScanProjects(projects, old(View()), Rotation(|projects|, roundRobin), slots).0
    {
      ghost var visit := Rotation(|projects|, roundRobin);
      var offset := 0;
      var left := slots;
      while offset < |parts|
        invariant 0 <= offset <= |parts| && Valid()
        invariant ScanProjects(projects, View(), visit[offset..], left) == ScanProjects(projects, old(View()), visit, slots)
      {
        if left == 0 {
          NoSlotNoVisit(projects, View(), visit[offset..]);
          return;
        }
        var i := (roundRobin + offset) % |parts|;
        assert visit[offset..][0] == i && visit[offset..][1..] == visit[offset + 1..];
        left := ScanProject(i, left);
        offset := offset + 1;
      }
    }

    method ReadQuestions(questions: seq<set<string>>)
      requires Valid() && |questions| == |parts|
      modifies this`parts
      ensures Valid() && View() == Ask(old(View()), questions)
    {
      var i := 0;
      while i < |parts|
        invariant 0 <= i <= |parts| == |old(parts)|
        invariant forall k :: 0 <= k < i ==> parts[k] == old(parts)[k].(questions := questions[k])
        invariant forall k :: i <= k < |parts| ==> parts[k] == old(parts)[k]
      {
        parts := parts[i := parts[i].(questions := questions[i])];
        i := i + 1;
      }
      assert parts == Ask(old(View()), questions).parts;
    }

    /** One turn of the loop; `over` is its exit. */
    method Tick(orders: seq<seq<string>>, present: set<(string, string)>, questions: seq<set<string>>) returns (over: bool)
      requires Valid() && Drains(View(), orders) && |questions| == |parts|
      modifies this
      ensures Valid()
      ensures View() == OnTick(projects, maxParallel, old(View()), SchedulerSpec.Tick(orders, present, questions, old(roundRobin)))
      ensures over <==> Settled(HarvestAll(projects, old(View()), 0, orders, present))
      ensures roundRobin == old(roundRobin) +
        if !over && RunningTotal(HarvestAll(projects, old(View()), 0, orders, present)) < maxParallel then 1 else 0
    {
      Harvest(orders, present);
      over := Settled(View());
      if over { return; }
      AskRunsNothing(View(), questions);
      ReadQuestions(questions);
      var running := RunningTotal(View());
      var slots: nat := if running <= maxParallel then maxParallel - running else 0;
      if slots > 0 {
        VisitProjects(slots);
        roundRobin := roundRobin + 1;
      } else {
        NoSlotNoVisit(projects, View(), Rotation(|projects|, roundRobin));
      }
    }
  }
}
