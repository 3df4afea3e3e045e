/** What becomes of the result a worker hands in (rolen-orchestrator/src/scheduler.rs:260-325). */
module SchedulerResults {
  import opened Text
  import opened Dag
  import opened SchedulerSpec
  import opened SchedulerSafety
  import opened SchedulerRuns

  /** Of the tasks of one project taken in by one tick only the first can be done: the first
      `drain` throws the other results away. */
  lemma {:induction false} OnlyTheFirstIsDone(ps: seq<Project>, max: nat, g: World, i: nat,
      ids: seq<string>, present: set<(string, string)>)
    requires Invariant(ps, max, g) && i < |ps| && Lists(ids, g.parts[i].finished)
    ensures var g' := HarvestIds(ps, g, i, ids, present);
      forall k :: 0 <= k < |ids| ==> Is(g', i, ids[k], if k == 0 && Good(ps[i], g.parts[i], ids[0], present) then Done else Failed)
    decreases ids
  {
    if ids != [] {
      FirstVerdict(ps, max, g, i, ids[0], present);
      ListsLess(ids, g.parts[i].finished);
      var g1 := HarvestOne(ps, g, i, ids[0], present);
      OnlyTheFirstIsDone(ps, max, g1, i, ids[1..], present);
      HarvestIdsKeeps(ps, max, g1, i, ids[1..], present);
      assert g1.parts[i].results == [];
      forall k | 0 < k < |ids| ensures Is(HarvestIds(ps, g, i, ids, present), i, ids[k], Failed) {
        assert ids[k] == ids[1..][k - 1];
      }
    }
  }

  /** The task taken in first gets the verdict on its result, and leaves no result behind. */
  lemma FirstVerdict(ps: seq<Project>, max: nat, g: World, i: nat, id: string, present: set<(string, string)>)
    requires Invariant(ps, max, g) && i < |ps| && id in g.parts[i].finished
    ensures var g1 := HarvestOne(ps, g, i, id, present);
      && Invariant(ps, max, g1) && g1.parts[i].results == [] && g1.parts[i].finished == g.parts[i].finished - {id}
      && Is(g1, i, id, if Good(ps[i], g.parts[i], id, present) then Done else Failed)
  {
    HarvestStep(ps, max, g, i, id, present);
  }

  /** No tick of the run takes in a task of project `i`. */
  ghost predicate Undisturbed(run: seq<Event>, i: nat) {
    forall k :: 0 <= k < |run| && run[k].Tick? ==> i < |run[k].orders| && run[k].orders[i] == []
  }

  lemma {:induction false} FirstOfMore(results: seq<(string, Outcome)>, more: (string, Outcome), id: string)
    requires more.0 != id
    ensures FirstResult(results + [more], id) == FirstResult(results, id)
  {
    if results != [] {
      assert (results + [more])[1..] == results[1..] + [more];
      FirstOfMore(results[1..], more, id);
    }
  }

  /** The scan touches neither results nor hand-ins. */
  ghost predicate SameMail(g: World, g': World) {
    |g'.parts| == |g.parts|
    && forall i :: 0 <= i < |g.parts| ==> g'.parts[i].results == g.parts[i].results && g'.parts[i].pushed == g.parts[i].pushed
  }

  lemma {:induction false} ScanTasksKeepMail(ps: seq<Project>, g: World, i: nat, tasks: seq<Task>, slots: nat)
    requires i < |ps| == |g.parts|
    ensures SameMail(g, ScanTasks(ps, g, i, tasks, slots).0)
    decreases tasks
  {
    if tasks != [] {
      var (g', slots') := ScanTask(ps, g, i, tasks[0], slots);
      ScanTasksKeepMail(ps, g', i, tasks[1..], slots');
    }
  }

  lemma {:induction false} ScanProjectsKeepMail(ps: seq<Project>, g: World, visit: seq<nat>, slots: nat)
    requires |ps| == |g.parts| && forall k :: 0 <= k < |visit| ==> visit[k] < |ps|
    ensures SameMail(g, ScanProjects(ps, g, visit, slots).0)
    decreases visit
  {
    if visit != [] {
      ScanTasksKeepMail(ps, g, visit[0], ps[visit[0]].spec, slots);
      var (g', slots') := ScanTasks(ps, g, visit[0], ps[visit[0]].spec, slots);
      ScanProjectsKeepMail(ps, g', visit[1..], slots');
    }
  }

  lemma ScanKeepsMail(ps: seq<Project>, max: nat, g: World, questions: seq<set<string>>, first: nat)
    requires |ps| == |g.parts| == |questions|
    ensures SameMail(g, Scan(ps, max, g, questions, first))
  {
    var a := Ask(g, questions);
    var running := RunningTotal(a);
    ScanProjectsKeepMail(ps, a, Rotation(|ps|, first), if running <= max then max - running else 0);
  }

  lemma {:induction false} HarvestIdsMail(ps: seq<Project>, g: World, i: nat, ids: seq<string>,
      present: set<(string, string)>, j: nat, id: string)
    requires i < |ps| == |g.parts| && j < |ps| && (j == i ==> id !in ids)
    ensures var part, part' := g.parts[j], HarvestIds(ps, g, i, ids, present).parts[j];
      && (id in part'.pushed <==> id in part.pushed)
      && part'.results == if j == i && ids != [] then [] else part.results
    decreases ids
  {
    if ids != [] { HarvestIdsMail(ps, HarvestOne(ps, g, i, ids[0], present), i, ids[1..], present, j, id); }
  }

  lemma {:induction false} HarvestAllMail(ps: seq<Project>, g: World, i: nat, orders: seq<seq<string>>,
      present: set<(string, string)>, j: nat, id: string)
    requires |ps| == |g.parts| == |orders| && i <= |ps| && j < |ps| && (j >= i ==> id !in orders[j])
    ensures var part, part' := g.parts[j], HarvestAll(ps, g, i, orders, present).parts[j];
      && (id in part'.pushed <==> id in part.pushed)
      && part'.results == if j >= i && orders[j] != [] then [] else part.results
    decreases |ps| - i
  {
    if i < |ps| {
      HarvestIdsMail(ps, g, i, orders[i], present, j, id);
      HarvestAllMail(ps, HarvestIds(ps, g, i, orders[i], present), i + 1, orders, present, j, id);
    }
  }

  lemma ResultAfterStep(ps: seq<Project>, max: nat, g: World, e: Event, i: nat, id: string)
    requires i < |ps| == |g.parts| && Enabled(g, e) && id in g.parts[i].pushed
    requires e.Tick? ==> id !in e.orders[i]
    ensures var g' := Next(ps, max, g, e);
      && id in g'.parts[i].pushed
      && FirstResult(g'.parts[i].results, id) ==
           if Undisturbed([e], i) then FirstResult(g.parts[i].results, id) else None
  {
    if e.Tick? {
      HarvestAllMail(ps, g, 0, e.orders, e.present, i, id);
      ScanKeepsMail(ps, max, HarvestAll(ps, g, 0, e.orders, e.present), e.questions, e.first);
      assert Undisturbed([e], i) <==> e.orders[i] == [] by { assert [e][0] == e; }
    } else if e.Push? {
      if e.i == i { FirstOfMore(g.parts[i].results, (e.id, e.outcome), id); }
    }
  }

  /** No tick of the run takes in task `id` of project `i`. */
  ghost predicate NotTaken(run: seq<Event>, i: nat, id: string) {
    forall k :: 0 <= k < |run| && run[k].Tick? ==> i < |run[k].orders| && id !in run[k].orders[i]
  }

  lemma {:induction false} ResultAfterRun(ps: seq<Project>, max: nat, g: World, run: seq<Event>, i: nat, id: string)
    requires i < |ps| == |g.parts| && Legal(ps, max, g, run) && id in g.parts[i].pushed && NotTaken(run, i, id)
    ensures id in After(ps, max, g, run).parts[i].pushed
    ensures FirstResult(After(ps, max, g, run).parts[i].results, id) ==
              if Undisturbed(run, i) then FirstResult(g.parts[i].results, id) else None
    decreases run
  {
    if run != [] {
      assert run[0].Tick? ==> id !in run[0].orders[i];
      ResultAfterStep(ps, max, g, run[0], i, id);
      ResultAfterRun(ps, max, Next(ps, max, g, run[0]), run[1..], i, id);
      UndisturbedSplits(run, i);
    }
  }

  lemma UndisturbedSplits(run: seq<Event>, i: nat)
    requires run != []
    ensures Undisturbed(run, i) <==> Undisturbed([run[0]], i) && Undisturbed(run[1..], i)
  {
    assert [run[0]][0] == run[0];
    assert forall k :: 1 <= k < |run| ==> run[k] == run[1..][k - 1];
  }

  // ------------------------------------------------------------- done, exactly when

  /** Only tasks that have handed in have results. */
  ghost predicate Owned(g: World) {
    forall i, k :: 0 <= i < |g.parts| && 0 <= k < |g.parts[i].results| ==> g.parts[i].results[k].0 in g.parts[i].pushed
  }

  lemma StepKeepsOwned(ps: seq<Project>, max: nat, g: World, e: Event)
    requires |ps| == |g.parts| && Enabled(g, e) && Owned(g)
    ensures Owned(Next(ps, max, g, e))
  {
    if e.Tick? {
      var h := HarvestAll(ps, g, 0, e.orders, e.present);
      ScanKeepsMail(ps, max, h, e.questions, e.first);
      forall i, k | 0 <= i < |h.parts| && 0 <= k < |h.parts[i].results| ensures h.parts[i].results[k].0 in h.parts[i].pushed {
        ResultsKept(ps, g, e.orders, e.present, i);
        HarvestAllMail(ps, g, 0, e.orders, e.present, i, h.parts[i].results[k].0);
      }
    }
  }

  lemma {:induction false} HarvestIdsResults(ps: seq<Project>, g: World, i: nat, ids: seq<string>,
      present: set<(string, string)>, j: nat)
    requires i < |ps| == |g.parts| && j < |ps|
    ensures HarvestIds(ps, g, i, ids, present).parts[j].results == if j == i && ids != [] then [] else g.parts[j].results
    decreases ids
  {
    if ids != [] { HarvestIdsResults(ps, HarvestOne(ps, g, i, ids[0], present), i, ids[1..], present, j); }
  }

  lemma {:induction false} HarvestAllResults(ps: seq<Project>, g: World, i: nat, orders: seq<seq<string>>,
      present: set<(string, string)>, j: nat)
    requires |ps| == |g.parts| == |orders| && i <= |ps| && j < |ps|
    ensures HarvestAll(ps, g, i, orders, present).parts[j].results == if j >= i && orders[j] != [] then [] else g.parts[j].results
    decreases |ps| - i
  {
    if i < |ps| {
      HarvestIdsResults(ps, g, i, orders[i], present, j);
      HarvestAllResults(ps, HarvestIds(ps, g, i, orders[i], present), i + 1, orders, present, j);
    }
  }

  lemma ResultsKept(ps: seq<Project>, g: World, orders: seq<seq<string>>, present: set<(string, string)>, j: nat)
    requires |ps| == |g.parts| == |orders| && j < |ps|
    ensures HarvestAll(ps, g, 0, orders, present).parts[j].results != [] ==>
              orders[j] == [] && HarvestAll(ps, g, 0, orders, present).parts[j].results == g.parts[j].results
  {
    HarvestAllResults(ps, g, 0, orders, present, j);
  }

  /** In every run. */
  lemma {:induction false} AlwaysOwned(ps: seq<Project>, max: nat, g: World, run: seq<Event>)
    requires |ps| == |g.parts| && Owned(g) && Legal(ps, max, g, run)
    ensures Owned(After(ps, max, g, run))
    decreases run
  {
    if run != [] {
      StepKeepsOwned(ps, max, g, run[0]);
      AlwaysOwned(ps, max, Next(ps, max, g, run[0]), run[1..]);
    }
  }

  lemma {:induction false} FirstOfLast(results: seq<(string, Outcome)>, id: string, o: Outcome)
    requires forall k :: 0 <= k < |results| ==> results[k].0 != id
    ensures FirstResult(results + [(id, o)], id) == Some(o)
  {
    if results != [] {
      assert (results + [(id, o)])[1..] == results[1..] + [(id, o)];
      FirstOfLast(results[1..], id, o);
    }
  }

  /** The k-th task that the tick takes in from project `i`. */
  lemma {:induction false} TakenVerdict(ps: seq<Project>, max: nat, g: World, i: nat,
      orders: seq<seq<string>>, present: set<(string, string)>, j: nat, k: nat)
    requires Invariant(ps, max, g) && i <= j < |ps| == |orders|
    requires forall m :: i <= m < |ps| ==> Lists(orders[m], g.parts[m].finished)
    requires k < |orders[j]|
    ensures Is(HarvestAll(ps, g, i, orders, present), j, orders[j][k],
               if k == 0 && Good(ps[j], g.parts[j], orders[j][0], present) then Done else Failed)
    decreases j - i
  {
    HarvestIdsKeeps(ps, max, g, i, orders[i], present);
    var g' := HarvestIds(ps, g, i, orders[i], present);
    HarvestAllKeeps(ps, max, g', i + 1, orders, present);
    if i == j {
      OnlyTheFirstIsDone(ps, max, g, i, orders[i], present);
    } else {
      TakenVerdict(ps, max, g', i + 1, orders, present, j, k);
    }
  }

  lemma TickVerdict(ps: seq<Project>, max: nat, g: World, tick: Event, i: nat, id: string, k: nat)
    requires Validated(ps) && Invariant(ps, max, g) && tick.Tick? && Enabled(g, tick)
    requires i < |ps| && k < |tick.orders[i]| && tick.orders[i][k] == id
    ensures Is(Next(ps, max, g, tick), i, id, if k == 0 && Good(ps[i], g.parts[i], id, tick.present) then Done else Failed)
  {
    DrainsAreLists(g, tick.orders);
    TakenVerdict(ps, max, g, 0, tick.orders, tick.present, i, k);
    HarvestAllKeeps(ps, max, g, 0, tick.orders, tick.present);
    ScanKeeps(ps, max, HarvestAll(ps, g, 0, tick.orders, tick.present), tick.questions, tick.first);
  }

  /** Every file that the task claims exists in its project's directory. */
  predicate AllPresent(p: Project, t: Task, present: set<(string, string)>) {
    forall rel :: rel in t.claims ==> (p.workdir, rel) in present
  }

  /** A worker hands in `outcome`, other things happen, then a tick takes the task in. It ends
      done exactly when the agent succeeded, its claimed files exist, no tick in between took in
      another task of its project, and this tick takes it in first; otherwise it ends failed. */
  lemma DoneExactly(ps: seq<Project>, max: nat, g: World, i: nat, t: Task, outcome: Outcome,
      run: seq<Event>, tick: Event, k: nat)
    requires Validated(ps) && Invariant(ps, max, g) && Owned(g)
    requires i < |ps| && t in ps[i].spec && Enabled(g, Push(i, t.id, outcome))
    requires Legal(ps, max, Next(ps, max, g, Push(i, t.id, outcome)), run) && NotTaken(run, i, t.id)
    requires var g' := After(ps, max, Next(ps, max, g, Push(i, t.id, outcome)), run);
      tick.Tick? && Enabled(g', tick) && |tick.orders| == |ps| && k < |tick.orders[i]| && tick.orders[i][k] == t.id
    ensures var g' := After(ps, max, Next(ps, max, g, Push(i, t.id, outcome)), run);
      Is(Next(ps, max, g', tick), i, t.id,
         if outcome == AgentOk && AllPresent(ps[i], t, tick.present) && Undisturbed(run, i) && k == 0 then Done else Failed)
  {
    TaskClaims(ps[i], t);
    var id, push := t.id, Push(i, t.id, outcome);
    var g1 := Next(ps, max, g, push);
    NextKeeps(ps, max, g, push);
    FirstOfLast(g.parts[i].results, id, outcome);
    RunKeeps(ps, max, g1, run);
    ResultAfterRun(ps, max, g1, run, i, id);
    var g2 := After(ps, max, g1, run);
    TickVerdict(ps, max, g2, tick, i, id, k);
  }
}
