/** How much work a run can hold, and where the queue's promises end: panicking patches,
    shutdown, and keys whose tickets share paths. */
module QueueLimits {
  import opened Text
  import Patch
  import opened Tickets
  import opened QueueSpec
  import opened QueueOrder
  import opened QueueWaiters
  import opened QueueFiles
  import opened QueueTheorems
  import opened QueueReads

  // ------------------------------------------------------------- bounded work

  predicate WorksOn(e: Event, key: string) {
    (e.Work? && e.key == key) || (e.Done? && e.key == key)
  }

  /** The applier steps and completions of one key in a run. */
  function WorkCount(events: seq<Event>, key: string): nat {
    if events == [] then 0
    else WorkCount(events[..|events| - 1], key) + (if WorksOn(events[|events| - 1], key) then 1 else 0)
  }

  /** Four steps a ticket: check, temp write, rename, completion. The ticket of a job that
      is through is already in the log, its completion still to come. */
  function Spent(s: State, key: string): int {
    4 * |Of(s.log, key)| + JobRank(s, key)
  }

  function JobRank(s: State, key: string): int {
    if key !in s.jobs then 0
    else if Unlogged(s.jobs[key].phase) then Rank(s.jobs[key].phase)
    else Rank(s.jobs[key].phase) - 4
  }

  lemma SpentByEffect(s: State, s': State, key: string, k: string)
    requires LaneKept(s, key) && WorkEffect(s, s', key)
    ensures Spent(s', k) >= Spent(s, k) + (if k == key then 1 else 0)
  {
    if s'.log != s.log { OfSnoc(s.log, s'.log[|s'.log| - 1], k); }
  }

  lemma SpentBySubmit(s: State, t: Ticket, k: string)
    ensures Spent(OnSubmit(s, t), k) == Spent(s, k)
  {
    var s' := OnSubmit(s, t);
    assert s'.log == s.log;
    assert JobRank(s', k) == JobRank(s, k);
  }

  lemma SpentByDone(env: Env, s: State, key: string, k: string)
    requires key in s.jobs && s.jobs[key].phase.Finished?
    ensures Spent(OnDone(env, s, key), k) == Spent(s, k) + (if k == key then 1 else 0)
  {
    var s' := OnDone(env, s, key);
    assert s'.log == s.log;
    if k != key {
      assert k in s'.jobs <==> k in s.jobs;
      assert k in s.jobs ==> s'.jobs[k] == s.jobs[k];
    }
  }

  lemma SpentByDispatch(env: Env, s: State, e: Event, k: string)
    requires Enabled(s, e) && !e.Work?
    ensures Spent(Next(env, s, e), k) >= Spent(s, k) + (if WorksOn(e, k) then 1 else 0)
  {
    match e
    case Submit(t) => SpentBySubmit(s, t, k);
    case Done(key) => SpentByDone(env, s, key, k);
    case Read(_) => assert Next(env, s, e).jobs == s.jobs && Next(env, s, e).log == s.log;
    case Shutdown => assert Next(env, s, e).jobs == s.jobs && Next(env, s, e).log == s.log;
  }

  lemma SpentByStep(env: Env, s: State, e: Event, k: string)
    requires Invariant(s) && Enabled(s, e)
    ensures Spent(Next(env, s, e), k) >= Spent(s, k) + (if WorksOn(e, k) then 1 else 0)
  {
    if e.Work? {
      WorkHasEffect(env, s, e.key, e.fault);
      assert LaneKept(s, e.key);
      SpentByEffect(s, Next(env, s, e), e.key, k);
    } else {
      SpentByDispatch(env, s, e, k);
    }
  }

  /** A path's appliers take at most four steps per ticket of that path. */
  lemma {:induction false} WorkIsBounded(env: Env, files: Files, events: seq<Event>, key: string)
    requires Legal(env, files, events)
    ensures WorkCount(events, key) <= Spent(After(env, files, events), key)
    ensures WorkCount(events, key) <= 4 * |ArrivedIds(After(env, files, events).arrived, key)|
    decreases |events|
  {
    EveryRunKeepsOrder(env, files, events);
    var s := After(env, files, events);
    assert LaneKept(s, key);
    assert |ArrivedIds(s.arrived, key)| == |Of(s.log, key)| + |InProgress(s, key)| + |Backlog(s, key)|;
    if events != [] {
      var n := |events| - 1;
      WorkIsBounded(env, files, events[..n], key);
      EveryRunKeepsOrder(env, files, events[..n]);
      SpentByStep(env, After(env, files, events[..n]), events[n], key);
    }
  }

  /** Until shutdown, a path in flight whose applier has not panicked can always take its
      next step; with the bound on steps, every such path drains. */
  lemma NeverStuck(s: State, key: string)
    requires s.running && key in s.jobs && !s.jobs[key].phase.Crashed?
    ensures Enabled(s, Work(key, NoFault)) || Enabled(s, Done(key))
  {
  }

  // ------------------------------------------------------------- a panicking patch

  /** The applier panics exactly on a patch with a hunk that, once all before it are applied,
      is longer than the text; a missing or unreadable file counts as an empty one. */
  lemma PanicsExactly(env: Env, t: Ticket, current: Option<Content>)
    ensures CheckTicket(env, t, current) == Panic <==>
      t.op == WriteOp.Patch
      && var parsed := Patch.ParseLines(Lines(t.payload), [], None);
      parsed.Some? && Patch.Overreaches(if current.Some? then current.value else "", parsed.value)
  {
    Patch.PatchCrashesExactly(if current.Some? then current.value else "", t.payload);
  }

  /** Patching a missing or empty file with a hunk that expects content panics the applier. */
  lemma PatchOfEmptyFilePanics(env: Env, t: Ticket, current: Option<Content>, hunks: seq<Patch.Hunk>)
    requires t.op == WriteOp.Patch && (current == None || current == Some(""))
    requires Patch.ParseLines(Lines(t.payload), [], None) == Some(hunks) && hunks != []
    requires Patch.SortDesc(hunks)[0].oldSide != []
    ensures CheckTicket(env, t, current) == Panic
  {
    assert Split("") == [""];
    assert Patch.FileLines("") == [];
    Patch.LocateCrashesExactly([], Patch.SortDesc(hunks)[0]);
  }

  lemma CrashedEffect(s: State, s': State, k: string, key: string)
    requires LaneKept(s, k) && WorkEffect(s, s', k) && key in s.jobs && s.jobs[key].phase.Crashed?
    ensures key in s'.jobs && s'.jobs[key] == s.jobs[key] && Of(s'.log, key) == Of(s.log, key)
  {
    if s'.log != s.log { OfSnoc(s.log, s'.log[|s'.log| - 1], key); }
  }

  lemma CrashedDispatch(env: Env, s: State, e: Event, key: string)
    requires Enabled(s, e) && !e.Work? && key in s.jobs && s.jobs[key].phase.Crashed?
    ensures key in Next(env, s, e).jobs && Next(env, s, e).jobs[key] == s.jobs[key]
  {
    match e
    case Submit(t) => assert OnSubmit(s, t).jobs[key] == s.jobs[key];
    case Done(k) => assert k != key;
    case Read(k) => assert OnRead(env, s, k).jobs == s.jobs;
    case Shutdown => assert OnShutdown(s).jobs == s.jobs;
  }

  lemma CrashedStep(env: Env, s: State, e: Event, key: string)
    requires Invariant(s) && Enabled(s, e) && key in s.jobs && s.jobs[key].phase.Crashed?
    ensures var s' := Next(env, s, e);
            key in s'.jobs && s'.jobs[key] == s.jobs[key] && Of(s'.log, key) == Of(s.log, key)
  {
    if e.Work? {
      WorkHasEffect(env, s, e.key, e.fault);
      assert LaneKept(s, e.key);
      CrashedEffect(s, Next(env, s, e), e.key, key);
    } else {
      CrashedDispatch(env, s, e, key);
      DispatchGrows(env, s, e);
    }
  }

  /** Reads of a key in flight get no content. */
  lemma CrashedAnswersNone(env: Env, s: State, e: Event, key: string, rid: nat)
    requires Invariant(s) && WaitersKept(s) && Enabled(s, e) && key in Next(env, s, e).jobs
    requires rid < |Next(env, s, e).requests| && Next(env, s, e).requests[rid].key == key
    requires rid !in s.answers || s.answers[rid].Closed?
    ensures rid in Next(env, s, e).answers ==> Next(env, s, e).answers[rid].Closed?
  {
    if rid in Next(env, s, e).answers { StepAnswers(env, s, e, rid); }
  }

  /** The path's applier has panicked, and the read has no content. */
  ghost predicate Wedged(s: State, key: string, rid: nat) {
    && key in s.jobs && s.jobs[key].phase.Crashed?
    && (rid < |s.requests| && s.requests[rid].key == key && rid in s.answers ==> s.answers[rid].Closed?)
  }

  lemma WedgedStep(env: Env, s: State, e: Event, key: string, rid: nat)
    requires Invariant(s) && WaitersKept(s) && Enabled(s, e) && Wedged(s, key, rid)
    ensures Wedged(Next(env, s, e), key, rid) && Of(Next(env, s, e).log, key) == Of(s.log, key)
  {
    CrashedStep(env, s, e, key);
    var s' := Next(env, s, e);
    if rid < |s'.requests| && s'.requests[rid].key == key {
      assert rid in s.answers ==> rid < |s.requests|;
      ArrivedGrows(env, s, e);
      CrashedAnswersNone(env, s, e, key, rid);
    }
  }

  lemma WedgedNext(env: Env, files: Files, events: seq<Event>, key: string, rid: nat)
    requires events != [] && Legal(env, files, events)
    requires Wedged(After(env, files, events[..|events| - 1]), key, rid)
    ensures Wedged(After(env, files, events), key, rid)
    ensures Of(After(env, files, events).log, key) == Of(After(env, files, events[..|events| - 1]).log, key)
  {
    var m := |events| - 1;
    EveryRunKeepsOrder(env, files, events[..m]);
    EveryRunKeepsWaiters(env, files, events[..m]);
    WedgedStep(env, After(env, files, events[..m]), events[m], key, rid);
  }

  lemma {:induction false} WedgedFrom(env: Env, files: Files, events: seq<Event>, n: nat, key: string, rid: nat,
      logged: seq<Entry>)
    requires Legal(env, files, events) && n <= |events| && Legal(env, files, events[..n])
    requires Wedged(After(env, files, events[..n]), key, rid)
    requires logged == Of(After(env, files, events[..n]).log, key)
    ensures Wedged(After(env, files, events), key, rid)
    ensures Of(After(env, files, events).log, key) == logged
    decreases |events|
  {
    if n == |events| {
      assert events[..n] == events;
    } else {
      assert events[..|events| - 1][..n] == events[..n];
      WedgedFrom(env, files, events[..|events| - 1], n, key, rid, logged);
      WedgedNext(env, files, events, key, rid);
    }
  }

  /** A panic in an applier wedges its path for good: no later ticket of the path is ever
      applied, and no later read of it ever gets content, only the error of a shutdown. */
  lemma WedgedForever(env: Env, files: Files, events: seq<Event>, n: nat, key: string, rid: nat)
    requires Legal(env, files, events) && n <= |events| && Legal(env, files, events[..n])
    requires var s := After(env, files, events[..n]);
             key in s.jobs && s.jobs[key].phase.Crashed? && |s.requests| <= rid
    ensures Wedged(After(env, files, events), key, rid)
    ensures Of(After(env, files, events).log, key) == Of(After(env, files, events[..n]).log, key)
  {
    WedgedFrom(env, files, events, n, key, rid, Of(After(env, files, events[..n]).log, key));
  }

  // ------------------------------------------------------------- after shutdown

  lemma StoppedStep(env: Env, s: State, e: Event)
    requires !s.running && Enabled(s, e)
    ensures var s' := Next(env, s, e);
            && !s'.running && s'.completed == s.completed && s'.inbox == s.inbox
            && forall id :: id in s.verdicts ==> id in s'.verdicts
  {
    WorkHasEffect(env, s, e.key, e.fault);
  }

  lemma {:induction false} StoppedRun(env: Env, files: Files, events: seq<Event>, n: nat)
    requires Legal(env, files, events) && n <= |events| && Legal(env, files, events[..n])
    requires !After(env, files, events[..n]).running
    ensures var s, s' := After(env, files, events[..n]), After(env, files, events);
            && !s'.running && s'.completed == s.completed && s'.inbox == s.inbox
            && forall id :: id in s.verdicts ==> id in s'.verdicts
    decreases |events|
  {
    if n == |events| {
      assert events[..n] == events;
    } else {
      var m := |events| - 1;
      assert events[..m][..n] == events[..n];
      StoppedRun(env, files, events[..m], n);
      StoppedStep(env, After(env, files, events[..m]), events[m]);
    }
  }

  /** After a shutdown at any point of a run, waiters who had not heard by then hear nothing but
      rejections, though appliers still in flight go on writing; tickets not yet dispatched
      never are; and every waiter whose applier is through has heard. */
  lemma StoppedTellsOnlyRejections(env: Env, files: Files, events: seq<Event>, n: nat, id: nat)
    requires Legal(env, files, events) && n <= |events| && Legal(env, files, events[..n])
    requires !After(env, files, events[..n]).running
    ensures var s, s' := After(env, files, events[..n]), After(env, files, events);
            && (id in s'.verdicts && id !in s.verdicts ==> s'.verdicts[id] == Rejected)
            && s'.inbox == s.inbox
            && (id < |s'.arrived| ==> id in s'.verdicts || id in InProgress(s', s'.arrived[id].key))
  {
    StoppedRun(env, files, events, n);
    EveryRunKeepsWaiters(env, files, events[..n]);
    EveryRunKeepsWaiters(env, files, events);
    var s, s' := After(env, files, events[..n]), After(env, files, events);
    assert ToldKept(s, id) && ToldKept(s', id);
    if id < |s'.arrived| { NobodyIsForgotten(env, files, events, id); }
  }
}
