/** Per-path FIFO: in every reachable state of the write queue, what was logged for a path,
    what is in flight and what waits are that path's tickets in arrival order. */
module QueueOrder {
  import opened Text
  import opened Tickets
  import opened QueueSpec

  function ArrivedIds(arrived: seq<Ticket>, key: string): seq<nat> {
    if arrived == [] then []
    else
      var n := |arrived| - 1;
      ArrivedIds(arrived[..n], key) + (if arrived[n].key == key then [n] else [])
  }

  /** The log entries of one key, in log order. */
  function Of(log: seq<Entry>, key: string): (r: seq<Entry>)
    ensures forall i :: 0 <= i < |r| ==> r[i] in log && r[i].ticket.key == key
  {
    if log == [] then []
    else
      var n := |log| - 1;
      Of(log[..n], key) + (if log[n].ticket.key == key then [log[n]] else [])
  }

  function Ids(entries: seq<Entry>): (r: seq<nat>)
    ensures |r| == |entries|
  {
    seq(|entries|, i requires 0 <= i < |entries| => entries[i].id)
  }

  function QueuedIds(backlog: seq<Queued>): (r: seq<nat>)
    ensures |r| == |backlog|
  {
    seq(|backlog|, i requires 0 <= i < |backlog| => backlog[i].id)
  }

  predicate Unlogged(phase: Phase) {
    phase.Begun? || phase.Planned? || phase.Written?
  }

  /** The ticket being applied for a key, if its outcome is still open. */
  function InProgress(s: State, key: string): seq<nat> {
    if key in s.jobs && Unlogged(s.jobs[key].phase) then [s.jobs[key].id] else []
  }

  function Line(logged: seq<nat>, open: seq<nat>, backlog: seq<nat>): seq<nat> {
    logged + (open + backlog)
  }

  ghost predicate InOrder(s: State, key: string) {
    Line(Ids(Of(s.log, key)), InProgress(s, key), QueuedIds(Backlog(s, key))) == ArrivedIds(s.arrived, key)
  }

  /** `id` is the number a ticket of this key got when it arrived. */
  predicate Genuine(arrived: seq<Ticket>, key: string, id: nat, t: Ticket) {
    id < |arrived| && arrived[id] == t && t.key == key
  }

  predicate AllGenuine(arrived: seq<Ticket>, key: string, backlog: seq<Queued>) {
    forall i :: 0 <= i < |backlog| ==> Genuine(arrived, key, backlog[i].id, backlog[i].ticket)
  }

  /** The outcomes on record: ticket numbers with their verdicts. */
  function Outcomes(log: seq<Entry>): set<(nat, Verdict)> {
    if log == [] then {}
    else
      var n := |log| - 1;
      Outcomes(log[..n]) + {(log[n].id, log[n].verdict)}
  }

  /** The job of a key holds a ticket of that key, and once it is through its outcome is on record. */
  ghost predicate JobKept(s: State, key: string) {
    key in s.jobs ==>
      var job := s.jobs[key];
      && Genuine(s.arrived, key, job.id, job.ticket)
      && (job.phase.Finished? ==> (job.id, job.phase.verdict) in Outcomes(s.log))
  }

  /** `inbox` and `pending_reads` only hold paths in flight, and each path keeps its own. */
  ghost predicate Keyed(s: State, key: string) {
    && (key in s.inbox || key in s.pendingReads ==> key in s.jobs)
    && AllGenuine(s.arrived, key, Backlog(s, key))
  }

  /** Only requests for this key wait under it. */
  ghost predicate WaitingAsked(s: State, key: string) {
    forall i :: 0 <= i < |Waiting(s, key)| ==>
      Waiting(s, key)[i] < |s.requests| && s.requests[Waiting(s, key)[i]].key == key
  }

  ghost predicate LaneKept(s: State, key: string) {
    InOrder(s, key) && Keyed(s, key) && JobKept(s, key) && WaitingAsked(s, key)
  }

  ghost predicate LogGenuine(s: State) {
    forall i :: 0 <= i < |s.log| ==> Genuine(s.arrived, s.log[i].ticket.key, s.log[i].id, s.log[i].ticket)
  }

  /** A read is answered, or it waits among the pending reads of its own key. */
  ghost predicate ReadKept(s: State, rid: nat) {
    rid < |s.requests| ==> rid in s.answers || rid in Waiting(s, s.requests[rid].key)
  }

  ghost predicate AnswersAsked(s: State) {
    forall rid :: rid in s.answers ==> rid < |s.requests|
  }

  ghost predicate Invariant(s: State) {
    && (forall k :: LaneKept(s, k))
    && (forall rid: nat :: ReadKept(s, rid))
    && LogGenuine(s) && AnswersAsked(s)
  }

  // ------------------------------------------------------------- steps

  lemma OfSnoc(log: seq<Entry>, e: Entry, key: string)
    ensures Of(log + [e], key) == Of(log, key) + (if e.ticket.key == key then [e] else [])
    ensures Ids(Of(log + [e], key)) == Ids(Of(log, key)) + (if e.ticket.key == key then [e.id] else [])
  {
    assert (log + [e])[..|log|] == log;
  }

  lemma ArrivedSnoc(arrived: seq<Ticket>, t: Ticket, key: string)
    ensures ArrivedIds(arrived + [t], key) == ArrivedIds(arrived, key) + (if t.key == key then [|arrived|] else [])
  {
    assert (arrived + [t])[..|arrived|] == arrived;
  }

  lemma LineAppend(logged: seq<nat>, open: seq<nat>, backlog: seq<nat>, id: nat)
    ensures Line(logged, open, backlog + [id]) == Line(logged, open, backlog) + [id]
    ensures Line(logged, [id], []) == Line(logged, [], []) + [id]
  {
  }

  lemma LineDispatch(logged: seq<nat>, backlog: seq<nat>)
    requires backlog != []
    ensures Line(logged, [backlog[0]], backlog[1..]) == Line(logged, [], backlog)
  {
  }

  lemma LineLog(logged: seq<nat>, id: nat, backlog: seq<nat>)
    ensures Line(logged + [id], [], backlog) == Line(logged, [id], backlog)
  {
  }

  /** Two states that hold the same for a key. */
  ghost predicate SameLane(s: State, s': State, k: string) {
    && (k in s.jobs <==> k in s'.jobs) && (k in s.jobs ==> s'.jobs[k] == s.jobs[k])
    && (k in s.inbox <==> k in s'.inbox) && Backlog(s', k) == Backlog(s, k)
    && (k in s.pendingReads <==> k in s'.pendingReads) && Waiting(s', k) == Waiting(s, k)
  }

  lemma OtherLane(s: State, s': State, k: string)
    requires LaneKept(s, k) && SameLane(s, s', k)
    requires Ids(Of(s'.log, k)) == Ids(Of(s.log, k)) && ArrivedIds(s'.arrived, k) == ArrivedIds(s.arrived, k)
    requires s.arrived <= s'.arrived && s.requests <= s'.requests && Outcomes(s.log) <= Outcomes(s'.log)
    ensures LaneKept(s', k)
  {
    assert InProgress(s', k) == InProgress(s, k);
    assert forall id, t :: Genuine(s.arrived, k, id, t) ==> Genuine(s'.arrived, k, id, t);
  }

  lemma SubmitToBusyLane(s: State, t: Ticket)
    requires LaneKept(s, t.key) && t.key in s.jobs
    ensures LaneKept(OnSubmit(s, t), t.key)
  {
    var s', id, k := OnSubmit(s, t), |s.arrived|, t.key;
    var backlog := Backlog(s, k);
    ArrivedSnoc(s.arrived, t, k);
    LineAppend(Ids(Of(s.log, k)), InProgress(s, k), QueuedIds(backlog), id);
    assert InProgress(s', k) == InProgress(s, k) && Backlog(s', k) == backlog + [Queued(id, t)];
    assert QueuedIds(Backlog(s', k)) == QueuedIds(backlog) + [id];
    assert Waiting(s', k) == Waiting(s, k);
  }

  lemma SubmitToIdleLane(s: State, t: Ticket)
    requires LaneKept(s, t.key) && t.key !in s.jobs
    ensures LaneKept(OnSubmit(s, t), t.key)
  {
    var s', id, k := OnSubmit(s, t), |s.arrived|, t.key;
    ArrivedSnoc(s.arrived, t, k);
    LineAppend(Ids(Of(s.log, k)), [], [], id);
    assert InProgress(s, k) == [] && QueuedIds(Backlog(s, k)) == [] && Backlog(s', k) == [];
    assert InProgress(s', k) == [id] && Waiting(s', k) == Waiting(s, k);
  }

  lemma SubmitLeavesOthers(s: State, t: Ticket, k: string)
    requires k != t.key
    ensures SameLane(s, OnSubmit(s, t), k)
  {
  }

  lemma ArrivedOther(arrived: seq<Ticket>, t: Ticket, key: string)
    requires t.key != key
    ensures ArrivedIds(arrived + [t], key) == ArrivedIds(arrived, key)
  {
    ArrivedSnoc(arrived, t, key);
  }

  lemma SubmitKeepsLane(s: State, t: Ticket, k: string)
    requires LaneKept(s, k)
    ensures LaneKept(OnSubmit(s, t), k)
  {
    if k == t.key {
      if k in s.jobs { SubmitToBusyLane(s, t); } else { SubmitToIdleLane(s, t); }
    } else {
      SubmitLeavesOthers(s, t, k);
      ArrivedOther(s.arrived, t, k);
      OtherLane(s, OnSubmit(s, t), k);
    }
  }

  lemma DoneKeepsOwnLane(env: Env, s: State, k: string)
    requires LaneKept(s, k) && k in s.jobs && s.jobs[k].phase.Finished?
    ensures LaneKept(OnDone(env, s, k), k)
  {
    var s', backlog := OnDone(env, s, k), Backlog(s, k);
    assert InProgress(s, k) == [];
    if backlog != [] {
      assert QueuedIds(backlog)[1..] == QueuedIds(backlog[1..]);
      LineDispatch(Ids(Of(s.log, k)), QueuedIds(backlog));
      assert InProgress(s', k) == [backlog[0].id] && Backlog(s', k) == backlog[1..];
      assert Waiting(s', k) == Waiting(s, k);
    } else {
      assert InProgress(s', k) == [] && Backlog(s', k) == [] && Waiting(s', k) == [];
    }
  }

  lemma DoneKeepsLane(env: Env, s: State, key: string, k: string)
    requires LaneKept(s, k) && key in s.jobs && s.jobs[key].phase.Finished?
    ensures LaneKept(OnDone(env, s, key), k)
  {
    if k == key { DoneKeepsOwnLane(env, s, key); } else { OtherLane(s, OnDone(env, s, key), k); }
  }

  function Rank(phase: Phase): nat {
    match phase
    case Begun => 0
    case Planned(_, _, _) => 1
    case Written(_, _, _) => 2
    case Finished(_) => 3
    case Crashed => 3
  }

  /** What a step of an applier changes outside the workspace: its own phase, forward, and with
      the last step the log. */
  ghost predicate WorkEffect(s: State, s': State, key: string) {
    && key in s.jobs && key in s'.jobs
    && Unlogged(s.jobs[key].phase) && Rank(s.jobs[key].phase) < Rank(s'.jobs[key].phase)
    && s' == s.(files := s'.files, jobs := s.jobs[key := s.jobs[key].(phase := s'.jobs[key].phase)],
                log := s'.log, verdicts := s'.verdicts)
    && if Unlogged(s'.jobs[key].phase) then s'.log == s.log && s'.verdicts == s.verdicts
       else LogsOutcome(s, s', s.jobs[key], s'.jobs[key].phase)
  }

  ghost predicate LogsOutcome(s: State, s': State, job: Job, phase: Phase) {
    && s'.log != [] && s'.log == s.log + [s'.log[|s'.log| - 1]]
    && var last := s'.log[|s'.log| - 1];
    && last.id == job.id && last.ticket == job.ticket
    && (if phase.Finished? then last.verdict == phase.verdict else last.verdict == Rejected)
    && s'.verdicts == if phase.Finished? && s.running then s.verdicts else s.verdicts[job.id := Rejected]
  }

  lemma FinishHasEffect(s: State, key: string, files: Files, fault: Fault, verdict: Verdict)
    requires key in s.jobs && Unlogged(s.jobs[key].phase)
    ensures WorkEffect(s, Finish(s, key, files, fault, verdict), key)
  {
  }

  lemma DieHasEffect(s: State, key: string, fault: Fault)
    requires key in s.jobs && Unlogged(s.jobs[key].phase)
    ensures WorkEffect(s, Die(s, key, fault), key)
  {
  }

  lemma BegunHasEffect(env: Env, s: State, key: string, fault: Fault)
    requires key in s.jobs && s.jobs[key].phase.Begun? && FaultFits(s.jobs[key].phase, fault)
    ensures WorkEffect(s, OnWork(env, s, key, fault), key)
  {
    FinishHasEffect(s, key, s.files, fault, Rejected);
    DieHasEffect(s, key, fault);
  }

  lemma PlannedHasEffect(env: Env, s: State, key: string, fault: Fault)
    requires key in s.jobs && s.jobs[key].phase.Planned? && FaultFits(s.jobs[key].phase, fault)
    ensures WorkEffect(s, OnWork(env, s, key, fault), key)
  {
    var phase := s.jobs[key].phase;
    var (files, verdict) := Execute(env, s.files, phase.path, phase.plan, fault);
    FinishHasEffect(s, key, files, Blinded(phase.blind, fault), verdict);
  }

  lemma WrittenHasEffect(env: Env, s: State, key: string, fault: Fault)
    requires key in s.jobs && s.jobs[key].phase.Written? && FaultFits(s.jobs[key].phase, fault)
    ensures WorkEffect(s, OnWork(env, s, key, fault), key)
  {
    var phase := s.jobs[key].phase;
    var tmp := env.temp(phase.path);
    FinishHasEffect(s, key, s.files, Blinded(phase.blind, RenameFails), Rejected);
    if tmp in s.files {
      FinishHasEffect(s, key, Move(s.files, tmp, phase.path), Blinded(phase.blind, NoFault), Applied);
    }
  }

  lemma WorkHasEffect(env: Env, s: State, key: string, fault: Fault)
    requires key in s.jobs && FaultFits(s.jobs[key].phase, fault)
    ensures WorkEffect(s, OnWork(env, s, key, fault), key)
  {
    match s.jobs[key].phase
    case Begun => BegunHasEffect(env, s, key, fault);
    case Planned(_, _, _) => PlannedHasEffect(env, s, key, fault);
    case Written(_, _, _) => WrittenHasEffect(env, s, key, fault);
  }

  lemma OutcomesSnoc(log: seq<Entry>, e: Entry)
    ensures Outcomes(log + [e]) == Outcomes(log) + {(e.id, e.verdict)}
  {
    assert (log + [e])[..|log|] == log;
  }

  /** The outcome of the ticket in progress moves from the in-flight slot to the log. */
  lemma WorkKeepsOwnLane(s: State, s': State, k: string)
    requires LaneKept(s, k) && WorkEffect(s, s', k)
    ensures LaneKept(s', k)
  {
    assert Backlog(s', k) == Backlog(s, k) && Waiting(s', k) == Waiting(s, k);
    if s'.log == s.log {
      assert InProgress(s', k) == InProgress(s, k);
    } else {
      var last := s'.log[|s'.log| - 1];
      OfSnoc(s.log, last, k);
      OutcomesSnoc(s.log, last);
      LineLog(Ids(Of(s.log, k)), last.id, QueuedIds(Backlog(s, k)));
      assert InProgress(s, k) == [last.id] && InProgress(s', k) == [];
    }
  }

  lemma WorkKeepsLane(s: State, s': State, key: string, k: string)
    requires LaneKept(s, k) && JobKept(s, key) && WorkEffect(s, s', key)
    ensures LaneKept(s', k)
  {
    if k == key {
      WorkKeepsOwnLane(s, s', k);
    } else {
      if s'.log != s.log {
        var last := s'.log[|s'.log| - 1];
        OfSnoc(s.log, last, k);
        OutcomesSnoc(s.log, last);
        assert Ids(Of(s.log, k)) + [] == Ids(Of(s.log, k));
      }
      OtherLane(s, s', k);
    }
  }

  lemma WorkKeepsInvariant(s: State, s': State, key: string)
    requires Invariant(s) && WorkEffect(s, s', key)
    ensures Invariant(s')
  {
    assert LaneKept(s, key);
    forall k ensures LaneKept(s', k) { WorkKeepsLane(s, s', key, k); }
    forall rid: nat ensures ReadKept(s', rid) { assert ReadKept(s, rid); }
  }

  lemma SubmitKeepsInvariant(s: State, t: Ticket)
    requires Invariant(s)
    ensures Invariant(OnSubmit(s, t))
  {
    var s' := OnSubmit(s, t);
    forall k ensures LaneKept(s', k) { SubmitKeepsLane(s, t, k); }
    forall rid: nat ensures ReadKept(s', rid) { assert ReadKept(s, rid); }
  }

  lemma DoneKeepsLanes(env: Env, s: State, key: string)
    requires (forall k :: LaneKept(s, k)) && key in s.jobs && s.jobs[key].phase.Finished?
    ensures forall k :: LaneKept(OnDone(env, s, key), k)
  {
    forall k ensures LaneKept(OnDone(env, s, key), k) { DoneKeepsLane(env, s, key, k); }
  }

  lemma DoneKeepsReads(env: Env, s: State, key: string)
    requires WaitingAsked(s, key) && AnswersAsked(s) && key in s.jobs && s.jobs[key].phase.Finished?
    requires forall rid: nat :: ReadKept(s, rid)
    ensures AnswersAsked(OnDone(env, s, key)) && forall rid: nat :: ReadKept(OnDone(env, s, key), rid)
  {
    var s' := OnDone(env, s, key);
    forall rid: nat ensures ReadKept(s', rid) { assert ReadKept(s, rid); }
    assert forall rid :: rid in s'.answers ==> rid in s.answers || rid in Waiting(s, key);
  }

  lemma DoneKeepsInvariant(env: Env, s: State, key: string)
    requires Invariant(s) && key in s.jobs && s.jobs[key].phase.Finished?
    ensures Invariant(OnDone(env, s, key))
  {
    assert LaneKept(s, key);
    DoneKeepsLanes(env, s, key);
    DoneKeepsReads(env, s, key);
  }

  lemma ReadKeepsOwnLane(env: Env, s: State, k: string)
    requires LaneKept(s, k) && k in s.jobs
    ensures LaneKept(OnRead(env, s, k), k)
  {
    var s', rid := OnRead(env, s, k), |s.requests|;
    var waiting := Waiting(s, k);
    assert Waiting(s', k) == waiting + [rid];
    assert s'.requests == s.requests + [ReadReq(k, |s.arrived|)];
    assert forall i :: 0 <= i < |waiting| ==> Waiting(s', k)[i] == waiting[i] && waiting[i] < rid;
    assert Backlog(s', k) == Backlog(s, k) && InProgress(s', k) == InProgress(s, k);
  }

  lemma ReadLeavesOthers(env: Env, s: State, key: string, k: string)
    requires Keyed(s, k) && (k != key || k !in s.jobs)
    ensures SameLane(s, OnRead(env, s, key), k)
  {
  }

  lemma ReadLogsNothing(env: Env, s: State, key: string)
    ensures var s' := OnRead(env, s, key);
            s'.log == s.log && s'.arrived == s.arrived && s.requests <= s'.requests
  {
  }

  lemma ReadKeepsOtherLane(env: Env, s: State, s': State, key: string, k: string)
    requires LaneKept(s, k) && (k != key || k !in s.jobs) && s' == OnRead(env, s, key)
    ensures LaneKept(s', k)
  {
    ReadLeavesOthers(env, s, key, k);
    ReadLogsNothing(env, s, key);
    OtherLane(s, s', k);
  }

  lemma ReadKeepsLane(env: Env, s: State, key: string, k: string)
    requires LaneKept(s, k)
    ensures LaneKept(OnRead(env, s, key), k)
  {
    if k == key && k in s.jobs {
      ReadKeepsOwnLane(env, s, k);
    } else {
      ReadKeepsOtherLane(env, s, OnRead(env, s, key), key, k);
    }
  }

  lemma ReadKeepsRead(env: Env, s: State, key: string, rid: nat)
    requires ReadKept(s, rid) && Keyed(s, key)
    ensures ReadKept(OnRead(env, s, key), rid)
  {
    var s' := OnRead(env, s, key);
    if key in s.jobs {
      assert Waiting(s', key) == Waiting(s, key) + [|s.requests|];
      assert Waiting(s', key)[|Waiting(s, key)|] == |s.requests|;
    }
  }

  lemma ReadKeepsLanes(env: Env, s: State, key: string)
    requires forall k :: LaneKept(s, k)
    ensures forall k :: LaneKept(OnRead(env, s, key), k)
  {
    forall k ensures LaneKept(OnRead(env, s, key), k) { ReadKeepsLane(env, s, key, k); }
  }

  lemma ReadKeepsReads(env: Env, s: State, key: string)
    requires Keyed(s, key) && forall rid: nat :: ReadKept(s, rid)
    ensures forall rid: nat :: ReadKept(OnRead(env, s, key), rid)
  {
    forall rid: nat ensures ReadKept(OnRead(env, s, key), rid) { ReadKeepsRead(env, s, key, rid); }
  }

  lemma ReadKeepsInvariant(env: Env, s: State, key: string)
    requires Invariant(s)
    ensures Invariant(OnRead(env, s, key))
  {
    assert LaneKept(s, key);
    ReadKeepsLanes(env, s, key);
    ReadKeepsReads(env, s, key);
  }

  lemma DroppedIsAsked(s: State, rid: nat)
    requires rid in DroppedReads(s) && forall k :: LaneKept(s, k)
    ensures rid < |s.requests|
  {
    var k, i :| k in s.pendingReads && 0 <= i < |s.pendingReads[k]| && s.pendingReads[k][i] == rid;
    assert LaneKept(s, k) && Waiting(s, k)[i] == rid;
  }

  lemma ShutdownKeepsInvariant(s: State)
    requires Invariant(s)
    ensures Invariant(OnShutdown(s))
  {
    var s' := OnShutdown(s);
    forall k ensures LaneKept(s', k) { OtherLane(s, s', k); }
    forall rid | rid in DroppedReads(s) ensures rid < |s.requests| { DroppedIsAsked(s, rid); }
    forall rid: nat ensures ReadKept(s', rid) { assert ReadKept(s, rid); }
  }

  lemma StepKeepsInvariant(env: Env, s: State, e: Event)
    requires Invariant(s) && Enabled(s, e)
    ensures Invariant(Next(env, s, e))
  {
    match e
    case Submit(t) => SubmitKeepsInvariant(s, t);
    case Read(key) => ReadKeepsInvariant(env, s, key);
    case Work(key, fault) =>
      WorkHasEffect(env, s, key, fault);
      WorkKeepsInvariant(s, Next(env, s, e), key);
    case Done(key) => DoneKeepsInvariant(env, s, key);
    case Shutdown => ShutdownKeepsInvariant(s);
  }

  /** Per-path FIFO over every run, whatever the interleaving of dispatcher, appliers,
      readers, I/O failures and a shutdown. */
  lemma {:induction false} EveryRunKeepsOrder(env: Env, files: Files, events: seq<Event>)
    requires Legal(env, files, events)
    ensures Invariant(After(env, files, events))
    decreases |events|
  {
    if events == [] {
      var s := Start(files);
      forall k ensures LaneKept(s, k) { assert Ids(Of(s.log, k)) == [] && Backlog(s, k) == []; }
    } else {
      var n := |events| - 1;
      EveryRunKeepsOrder(env, files, events[..n]);
      StepKeepsInvariant(env, After(env, files, events[..n]), events[n]);
    }
  }

  /** No ticket waits or is still open; `Done` messages may be under way. */
  ghost predicate Settled(s: State) {
    forall k :: InProgress(s, k) == [] && Backlog(s, k) == []
  }

  lemma SettledIsLogged(env: Env, files: Files, events: seq<Event>, key: string)
    requires Legal(env, files, events) && Settled(After(env, files, events))
    ensures var s := After(env, files, events);
            Ids(Of(s.log, key)) == ArrivedIds(s.arrived, key)
  {
    EveryRunKeepsOrder(env, files, events);
    var s := After(env, files, events);
    assert LaneKept(s, key);
    assert InProgress(s, key) == [] && QueuedIds(Backlog(s, key)) == [];
    assert Ids(Of(s.log, key)) + ([] + []) == Ids(Of(s.log, key));
  }

  /** Once a path is no longer in flight, its tickets have been logged once each, in arrival
      order, and its reads are all answered, whatever has become of other paths. */
  lemma DrainedIsComplete(env: Env, files: Files, events: seq<Event>, key: string)
    requires Legal(env, files, events) && key !in After(env, files, events).jobs
    ensures var s := After(env, files, events);
            && Ids(Of(s.log, key)) == ArrivedIds(s.arrived, key)
            && forall rid :: 0 <= rid < |s.requests| && s.requests[rid].key == key ==> rid in s.answers
  {
    EveryRunKeepsOrder(env, files, events);
    IdleIsComplete(After(env, files, events), key);
  }

  lemma IdleIsComplete(s: State, key: string)
    requires Invariant(s) && key !in s.jobs
    ensures Ids(Of(s.log, key)) == ArrivedIds(s.arrived, key)
    ensures forall rid :: 0 <= rid < |s.requests| && s.requests[rid].key == key ==> rid in s.answers
  {
    assert LaneKept(s, key);
    assert InProgress(s, key) == [] && QueuedIds(Backlog(s, key)) == [];
    assert Ids(Of(s.log, key)) + ([] + []) == Ids(Of(s.log, key));
    forall rid | 0 <= rid < |s.requests| && s.requests[rid].key == key ensures rid in s.answers {
      assert ReadKept(s, rid);
    }
  }

  // ------------------------------------------------------------- the log as a whole

  /** Every entry is one of the tickets that arrived. */
  ghost predicate FromArrived(arrived: seq<Ticket>, log: seq<Entry>) {
    forall i :: 0 <= i < |log| ==> log[i].id < |arrived| && arrived[log[i].id] == log[i].ticket
  }

  /** Each key's entries are its first tickets, once each, in arrival order. */
  ghost predicate InArrivalOrder(arrived: seq<Ticket>, log: seq<Entry>) {
    FromArrived(arrived, log) && forall k :: Ids(Of(log, k)) <= ArrivedIds(arrived, k)
  }

  lemma {:induction false} OfContains(log: seq<Entry>, i: nat)
    requires i < |log|
    ensures log[i] in Of(log, log[i].ticket.key)
    decreases |log|
  {
    var n := |log| - 1;
    if i < n {
      OfContains(log[..n], i);
      assert log[..n][i] == log[i];
    }
  }

  predicate NoDuplicates(ids: seq<nat>) {
    forall i, j :: 0 <= i < j < |ids| ==> ids[i] != ids[j]
  }

  lemma {:induction false} ArrivedIdsAscend(arrived: seq<Ticket>, key: string)
    ensures forall i :: 0 <= i < |ArrivedIds(arrived, key)| ==> ArrivedIds(arrived, key)[i] < |arrived|
    ensures forall i, j :: 0 <= i < j < |ArrivedIds(arrived, key)| ==> ArrivedIds(arrived, key)[i] < ArrivedIds(arrived, key)[j]
    ensures NoDuplicates(ArrivedIds(arrived, key))
  {
    if arrived != [] { ArrivedIdsAscend(arrived[..|arrived| - 1], key); }
  }

  lemma {:induction false} OutcomeEntry(log: seq<Entry>, id: nat, verdict: Verdict) returns (i: nat)
    requires (id, verdict) in Outcomes(log)
    ensures i < |log| && log[i].id == id && log[i].verdict == verdict
  {
    var n := |log| - 1;
    if log[n].id == id && log[n].verdict == verdict { return n; }
    i := OutcomeEntry(log[..n], id, verdict);
    assert log[..n][i] == log[i];
  }

  lemma LoggedOnce(arrived: seq<Ticket>, log: seq<Entry>, i: nat, j: nat)
    requires InArrivalOrder(arrived, log) && i < |log| && j < |log| && log[i].id == log[j].id
    ensures log[i] == log[j]
  {
    var k := log[i].ticket.key;
    OfContains(log, i);
    OfContains(log, j);
    ArrivedIdsAscend(arrived, k);
    var x :| 0 <= x < |Of(log, k)| && Of(log, k)[x] == log[i];
    var y :| 0 <= y < |Of(log, k)| && Of(log, k)[y] == log[j];
    assert Ids(Of(log, k)) <= ArrivedIds(arrived, k);
    assert ArrivedIds(arrived, k)[x] == Ids(Of(log, k))[x] == Ids(Of(log, k))[y] == ArrivedIds(arrived, k)[y];
  }

  lemma LinePrefix(logged: seq<nat>, open: seq<nat>, backlog: seq<nat>)
    ensures logged <= Line(logged, open, backlog)
  {
  }

  lemma LogInArrivalOrder(s: State)
    requires Invariant(s)
    ensures InArrivalOrder(s.arrived, s.log)
  {
    forall i | 0 <= i < |s.log| ensures s.log[i].id < |s.arrived| && s.arrived[s.log[i].id] == s.log[i].ticket {
      assert Genuine(s.arrived, s.log[i].ticket.key, s.log[i].id, s.log[i].ticket);
    }
    forall k ensures Ids(Of(s.log, k)) <= ArrivedIds(s.arrived, k) {
      assert LaneKept(s, k);
      LinePrefix(Ids(Of(s.log, k)), InProgress(s, k), QueuedIds(Backlog(s, k)));
    }
  }

  /** An outcome on record is the only one of its ticket. */
  lemma OneOutcome(s: State, i: nat, verdict: Verdict)
    requires Invariant(s) && i < |s.log| && (s.log[i].id, verdict) in Outcomes(s.log)
    ensures verdict == s.log[i].verdict
  {
    var j := OutcomeEntry(s.log, s.log[i].id, verdict);
    LogInArrivalOrder(s);
    LoggedOnce(s.arrived, s.log, i, j);
  }
}
