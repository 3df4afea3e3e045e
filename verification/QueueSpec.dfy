/** The write queue (rolen-orchestrator/src/queue.rs) as a step system: one dispatcher that
    owns `inbox`, `inflight` and `pending_reads`, and one applier thread per in-flight path
    whose file accesses are separate steps. */
module QueueSpec {
  import opened Text
  import opened Tickets

  /** How far an applier thread has come. `Finished` means its `Done` message is under way,
      `Crashed` that the thread panicked and no `Done` will ever come; `blind` that the
      check could not read the file. */
  datatype Phase =
    | Begun
    | Planned(path: Path, plan: Plan, blind: bool)
    | Written(path: Path, text: Content, blind: bool)
    | Finished(verdict: Verdict)
    | Crashed

  datatype Job = Job(id: nat, ticket: Ticket, phase: Phase)
  datatype Queued = Queued(id: nat, ticket: Ticket)

  /** One applied (or rejected) ticket, in the order the appliers got through. */
  datatype Entry = Entry(id: nat, ticket: Ticket, fault: Fault, verdict: Verdict)

  /** A read request, and how many tickets had arrived before it. */
  datatype ReadReq = ReadReq(key: string, after: nat)

  /** An answered read: its content (`None` for an error), and how many tickets had
      arrived and been logged when it was taken; or the error of a closed channel. */
  datatype Answer = Answer(content: Option<Content>, arrivals: nat, logged: nat) | Closed

  /** `verdicts` and `answers` hold what waiters and readers have heard, `completed` the
      tickets whose `Done` message the dispatcher took in. Once it has stopped, `inbox`
      and `pendingReads` stay behind as the record of what it dropped. */

  datatype State = State(
    files: Files,
    inbox: map<string, seq<Queued>>,
    jobs: map<string, Job>,
    pendingReads: map<string, seq<nat>>,
    running: bool,
    verdicts: map<nat, Verdict>,
    completed: set<nat>,
    arrived: seq<Ticket>,
    log: seq<Entry>,
    requests: seq<ReadReq>,
    answers: map<nat, Answer>)

  datatype Event =
    | Submit(ticket: Ticket)
    | Read(key: string)
    | Work(key: string, fault: Fault)
    | Done(key: string)
    | Shutdown

  function Start(files: Files): State {
    State(files, map[], map[], map[], true, map[], {}, [], [], [], map[])
  }

  predicate FaultFits(phase: Phase, fault: Fault) {
    match phase
    case Begun => fault == NoFault || fault == ReadFails(NoFault)
    case Planned(_, plan, _) => !fault.ReadFails? && (plan.Put? ==> fault != RenameFails)
    case Written(_, _, _) => fault.NoFault? || fault.RenameFails?
    case Finished(_) => false
    case Crashed => false
  }

  predicate Enabled(s: State, e: Event) {
    match e
    case Submit(_) => s.running
    case Read(_) => s.running
    case Work(key, fault) => key in s.jobs && FaultFits(s.jobs[key].phase, fault)
    case Done(key) => s.running && key in s.jobs && s.jobs[key].phase.Finished?
    case Shutdown => s.running
  }

  function Backlog(s: State, key: string): seq<Queued> {
    if key in s.inbox then s.inbox[key] else []
  }

  function Waiting(s: State, key: string): seq<nat> {
    if key in s.pendingReads then s.pendingReads[key] else []
  }

  function ReadFile(env: Env, files: Files, key: string): Option<Content> {
    match env.resolve(key) case None => None case Some(p) => Lookup(files, p)
  }

  function AnswerNow(env: Env, s: State, key: string): Answer {
    Answer(ReadFile(env, s.files, key), |s.arrived|, |s.log|)
  }

  /** The same answer to each of the readers, one after the other. */
  function AnswerEach(answers: map<nat, Answer>, readers: seq<nat>, answer: Answer): (r: map<nat, Answer>)
    ensures forall rid: nat :: rid in r <==> rid in answers || rid in readers
    ensures forall rid: nat :: rid in r ==> r[rid] == if rid in readers then answer else answers[rid]
    decreases |readers|
  {
    if readers == [] then answers
    else
      var n := |readers| - 1;
      assert readers == readers[..n] + [readers[n]];
      AnswerEach(answers, readers[..n], answer)[readers[n] := answer]
  }

  function OnSubmit(s: State, t: Ticket): State {
    var id := |s.arrived|;
    var s := s.(arrived := s.arrived + [t]);
    if t.key in s.jobs then s.(inbox := s.inbox[t.key := Backlog(s, t.key) + [Queued(id, t)]])
    else s.(jobs := s.jobs[t.key := Job(id, t, Begun)])
  }

  function OnRead(env: Env, s: State, key: string): State {
    var rid := |s.requests|;
    var s := s.(requests := s.requests + [ReadReq(key, |s.arrived|)]);
    if key in s.jobs || key in s.inbox then
      s.(pendingReads := s.pendingReads[key := Waiting(s, key) + [rid]])
    else s.(answers := s.answers[rid := AnswerNow(env, s, key)])
  }

  function OnDone(env: Env, s: State, key: string): State
    requires key in s.jobs && s.jobs[key].phase.Finished?
  {
    var job := s.jobs[key];
    var s := s.(verdicts := s.verdicts[job.id := job.phase.verdict], completed := s.completed + {job.id});
    var backlog := Backlog(s, key);
    if backlog != [] then
      s.(jobs := s.jobs[key := Job(backlog[0].id, backlog[0].ticket, Begun)],
         inbox := s.inbox[key := backlog[1..]])
    else
      s.(jobs := s.jobs - {key}, inbox := s.inbox - {key}, pendingReads := s.pendingReads - {key},
         answers := AnswerEach(s.answers, Waiting(s, key), AnswerNow(env, s, key)))
  }

  /** The waiters whose channels close when the dispatcher stops: those of its backlog, and
      those whose `Done` lies unread. */
  function Dropped(s: State): set<nat> {
    (set k, i | k in s.inbox && 0 <= i < |s.inbox[k]| :: s.inbox[k][i].id)
    + set k | k in s.jobs && s.jobs[k].phase.Finished? :: s.jobs[k].id
  }

  function DroppedReads(s: State): set<nat> {
    set k, i | k in s.pendingReads && 0 <= i < |s.pendingReads[k]| :: s.pendingReads[k][i]
  }

  /** The dispatcher stops: every waiter and reader it still owes an answer hears that its
      channel has closed, a waiter as a rejection. */
  function OnShutdown(s: State): State {
    s.(running := false,
       verdicts := Reject(s.verdicts, Dropped(s), |s.arrived|), answers := Close(s.answers, DroppedReads(s), |s.requests|))
  }

  /** The tickets below `n` whose channel closes are rejected. */
  function Reject(verdicts: map<nat, Verdict>, dropped: set<nat>, n: nat): (r: map<nat, Verdict>)
    ensures forall id: nat :: id in r <==> id in verdicts || (id < n && id in dropped)
    ensures forall id: nat :: id in r ==> r[id] == if id < n && id in dropped then Rejected else verdicts[id]
  {
    if n == 0 then verdicts
    else if n - 1 in dropped then Reject(verdicts, dropped, n - 1)[n - 1 := Rejected]
    else Reject(verdicts, dropped, n - 1)
  }

  function Close(answers: map<nat, Answer>, dropped: set<nat>, n: nat): (r: map<nat, Answer>)
    ensures forall rid: nat :: rid in r <==> rid in answers || (rid < n && rid in dropped)
    ensures forall rid: nat :: rid in r ==> r[rid] == if rid < n && rid in dropped then Closed else answers[rid]
  {
    if n == 0 then answers
    else if n - 1 in dropped then Close(answers, dropped, n - 1)[n - 1 := Closed]
    else Close(answers, dropped, n - 1)
  }

  function Blinded(blind: bool, fault: Fault): Fault {
    if blind then ReadFails(fault) else fault
  }

  /** The applier of `key` is through: its outcome is logged and its `Done` is under way, or,
      if nobody is there to take it, dropped with the waiter's channel. */
  function Finish(s: State, key: string, files: Files, fault: Fault, verdict: Verdict): State
    requires key in s.jobs
  {
    var job := s.jobs[key];
    s.(files := files, jobs := s.jobs[key := job.(phase := Finished(verdict))],
       verdicts := if s.running then s.verdicts else s.verdicts[job.id := Rejected],
       log := s.log + [Entry(job.id, job.ticket, fault, verdict)])
  }

  /** A panic in the applier: the waiter sees its channel close, the dispatcher nothing. */
  function Die(s: State, key: string, fault: Fault): State
    requires key in s.jobs
  {
    var job := s.jobs[key];
    s.(jobs := s.jobs[key := job.(phase := Crashed)],
       verdicts := s.verdicts[job.id := Rejected],
       log := s.log + [Entry(job.id, job.ticket, fault, Rejected)])
  }

  ghost function OnWork(env: Env, s: State, key: string, fault: Fault): State
    requires key in s.jobs && FaultFits(s.jobs[key].phase, fault)
  {
    var job := s.jobs[key];
    match job.phase
    case Begun =>
      (match env.resolve(job.ticket.key)
       case None => Finish(s, key, s.files, fault, Rejected)
       case Some(p) =>
         match CheckTicket(env, job.ticket, Seen(fault, Lookup(s.files, p)))
         case Refuse => Finish(s, key, s.files, fault, Rejected)
         case Panic => Die(s, key, fault)
         case Go(plan) => s.(jobs := s.jobs[key := job.(phase := Planned(p, plan, fault.ReadFails?))]))
    case Planned(p, plan, blind) =>
      if plan.Put? && fault == NoFault then
        s.(files := s.files[env.temp(p) := plan.text],
           jobs := s.jobs[key := job.(phase := Written(p, plan.text, blind))])
      else
        var (files, verdict) := Execute(env, s.files, p, plan, fault);
        Finish(s, key, files, Blinded(blind, fault), verdict)
    case Written(p, text, blind) =>
      if fault == RenameFails || env.temp(p) !in s.files then
        Finish(s, key, s.files, Blinded(blind, RenameFails), Rejected)
      else Finish(s, key, Move(s.files, env.temp(p), p), Blinded(blind, NoFault), Applied)
  }

  ghost function Next(env: Env, s: State, e: Event): State
    requires Enabled(s, e)
  {
    match e
    case Submit(t) => OnSubmit(s, t)
    case Read(key) => OnRead(env, s, key)
    case Work(key, fault) => OnWork(env, s, key, fault)
    case Done(key) => OnDone(env, s, key)
    case Shutdown => OnShutdown(s)
  }

  // ------------------------------------------------------------- runs

  ghost predicate Legal(env: Env, files: Files, events: seq<Event>)
    decreases |events|, 0
  {
    events == [] ||
    (Legal(env, files, events[..|events| - 1])
     && Enabled(After(env, files, events[..|events| - 1]), events[|events| - 1]))
  }

  /** The state after a run that starts on an idle queue over the workspace `files`. */
  ghost function After(env: Env, files: Files, events: seq<Event>): State
    requires Legal(env, files, events)
    decreases |events|, 1
  {
    if events == [] then Start(files)
    else Next(env, After(env, files, events[..|events| - 1]), events[|events| - 1])
  }
}
