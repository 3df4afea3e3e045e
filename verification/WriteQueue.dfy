/** The write queue as the program runs it (rolen-orchestrator/src/queue.rs): the dispatcher
    reassigns its maps message by message, the appliers work on the shared workspace. Every
    method is one step of `QueueSpec`. */
module WriteQueue {
  import opened Text
  import Patch
  import opened Tickets
  import opened QueueSpec
  import opened QueueOrder
  import opened QueueWaiters

  class Queue {
    const env: Env
    var files: Files
    var inbox: map<string, seq<Queued>>
    var inflight: set<string>
    var appliers: map<string, Job>
    var pendingReads: map<string, seq<nat>>
    var running: bool
    var verdicts: map<nat, Verdict>
    var answers: map<nat, Answer>
    ghost var completed: set<nat>
    ghost var arrived: seq<Ticket>
    ghost var log: seq<Entry>
    ghost var requests: seq<ReadReq>
    var submitted: nat
    var asked: nat
    var applied: nat

    ghost function View(): State
      reads this
    {
      State(files, inbox, appliers, pendingReads, running, verdicts, completed, arrived, log, requests, answers)
    }

    /** The dispatcher's set of busy paths is the set of live appliers, and the counters count. */
    ghost predicate Consistent()
      reads this
    {
      && inflight == appliers.Keys
      && submitted == |arrived| && asked == |requests| && applied == |log|
    }

    ghost predicate Valid()
      reads this
    {
      Consistent() && Invariant(View()) && WaitersKept(View())
    }

    constructor (env: Env, files: Files)
      ensures Valid() && this.env == env && View() == Start(files)
    {
      this.env := env;
      this.files := files;
      inbox, inflight, appliers, pendingReads := map[], {}, map[], map[];
      running, verdicts, answers := true, map[], map[];
      completed, arrived, log, requests := {}, [], [], [];
      submitted, asked, applied := 0, 0, 0;
      new;
      assert Legal(env, files, []);
      EveryRunKeepsOrder(env, files, []);
      EveryRunKeepsWaiters(env, files, []);
    }

    /** `Msg::New`. */
    method ReceiveNew(t: Ticket)
      requires Valid() && running
      modifies this
      ensures Valid() && View() == Next(env, old(View()), Submit(t))
    {
      SubmitKeepsInvariant(View(), t);
      SubmitKeepsWaiters(View(), t);
      Enqueue(t);
    }

    /** A busy path queues the ticket, an idle one gets an applier. */
    method Enqueue(t: Ticket)
      requires Consistent()
      modifies this
      ensures Consistent() && View() == OnSubmit(old(View()), t)
    {
      var id := submitted;
      submitted := submitted + 1;
      arrived := arrived + [t];
      if t.key in inflight {
        var backlog := if t.key in inbox then inbox[t.key] else [];
        inbox := inbox[t.key := backlog + [Queued(id, t)]];
      } else {
        inflight := inflight + {t.key};
        Dispatch(t.key, id, t);
      }
    }

    method Dispatch(key: string, id: nat, t: Ticket)
      modifies this`appliers
      ensures appliers == old(appliers)[key := Job(id, t, Begun)]
    {
      appliers := appliers[key := Job(id, t, Begun)];
    }

    /** `fulfill_read`. */
    method FulfillRead(key: string) returns (answer: Answer)
      requires submitted == |arrived| && applied == |log|
      ensures answer == AnswerNow(env, View(), key)
    {
      var path := env.resolve(key);
      var content: Option<Content> := None;
      if path.Some? && path.value in files { content := Some(files[path.value]); }
      answer := Answer(content, submitted, applied);
    }

    /** `Msg::Read`: behind queued or in-flight writes of the path, else at once. */
    method ReceiveRead(key: string)
      requires Valid() && running
      modifies this
      ensures Valid() && View() == Next(env, old(View()), Read(key))
    {
      ReadKeepsInvariant(env, View(), key);
      ReadKeepsWaiters(env, View(), key);
      DeferOrAnswer(key);
    }

    method DeferOrAnswer(key: string)
      requires Consistent()
      modifies this`pendingReads, this`answers, this`asked, this`requests
      ensures Consistent() && View() == OnRead(env, old(View()), key)
    {
      var rid := asked;
      if key in inflight || key in inbox {
        var waiting := if key in pendingReads then pendingReads[key] else [];
        pendingReads := pendingReads[key := waiting + [rid]];
      } else {
        var answer := FulfillRead(key);
        answers := answers[rid := answer];
      }
      asked := asked + 1;
      requests := requests + [ReadReq(key, |arrived|)];
    }

    /** `Msg::Done`. */
    method ReceiveDone(key: string)
      requires Valid() && running && key in appliers && appliers[key].phase.Finished?
      modifies this
      ensures Valid() && View() == Next(env, old(View()), Done(key))
    {
      DoneKeepsInvariant(env, View(), key);
      DoneKeepsWaiters(env, View(), key);
      Complete(key);
    }

    /** The verdict goes to its waiter, then the path's next ticket is dispatched or the
        path goes idle. */
    method Complete(key: string)
      requires Consistent() && key in appliers && appliers[key].phase.Finished?
      modifies this
      ensures Consistent() && View() == OnDone(env, old(View()), key)
    {
      var job := appliers[key];
      verdicts := verdicts[job.id := job.phase.verdict];
      completed := completed + {job.id};
      var moreWrites := false;
      if key in inbox {
        var backlog := inbox[key];
        if backlog != [] {
          inbox := inbox[key := backlog[1..]];
          Dispatch(key, backlog[0].id, backlog[0].ticket);
          moreWrites := true;
        } else {
          inbox := inbox - {key};
        }
      }
      if !moreWrites { GoIdle(key); }
    }

    /** Nothing waits for the path any more: its deferred reads are answered one by one. */
    method GoIdle(key: string)
      requires Consistent() && key !in inbox
      modifies this`inflight, this`appliers, this`pendingReads, this`answers
      ensures Consistent()
      ensures var s := old(View());
              View() == s.(jobs := s.jobs - {key}, pendingReads := s.pendingReads - {key},
                           answers := AnswerEach(s.answers, Waiting(s, key), AnswerNow(env, s, key)))
    {
      var readers := if key in pendingReads then pendingReads[key] else [];
      inflight, appliers := inflight - {key}, appliers - {key};
      pendingReads := pendingReads - {key};
      AnswerAll(key, readers);
    }

    /** The loop over the readers of a path that went idle. */
    method AnswerAll(key: string, readers: seq<nat>)
      requires submitted == |arrived| && applied == |log|
      modifies this`answers
      ensures answers == AnswerEach(old(answers), readers, AnswerNow(env, old(View()), key))
    {
      var i := 0;
      while i < |readers|
        invariant 0 <= i <= |readers|
        invariant answers == AnswerEach(old(answers), readers[..i], AnswerNow(env, old(View()), key))
      {
        var answer := FulfillRead(key);
        answers := answers[readers[i] := answer];
        assert readers[..i + 1][..i] == readers[..i];
        i := i + 1;
      }
      assert readers[..i] == readers;
    }

    /** `Msg::Shutdown`: the dispatcher's maps are dropped, and with them the channels of its
        backlog and its deferred readers; so are the `Done` messages it never received. */
    method ReceiveShutdown()
      requires Valid() && running
      modifies this
      ensures Valid() && View() == Next(env, old(View()), Shutdown)
    {
      ghost var s := View();
      ShutdownKeepsInvariant(s);
      ShutdownKeepsWaiters(s);
      CloseWaiters();
      CloseReaders();
      running := false;
      assert View() == OnShutdown(s);
    }

    /** A waiter whose channel closes hears a rejection. */
    method CloseWaiters()
      requires submitted == |arrived|
      modifies this`verdicts
      ensures verdicts == Reject(old(verdicts), Dropped(old(View())), |arrived|)
    {
      var unread := set k | k in appliers && appliers[k].phase.Finished? :: appliers[k].id;
      var undispatched := set k, i | k in inbox && 0 <= i < |inbox[k]| :: inbox[k][i].id;
      RejectEach(undispatched + unread);
    }

    method RejectEach(dropped: set<nat>)
      requires submitted == |arrived|
      modifies this`verdicts
      ensures verdicts == Reject(old(verdicts), dropped, |arrived|)
    {
      var id := 0;
      while id < submitted
        invariant 0 <= id <= submitted
        invariant verdicts == Reject(old(verdicts), dropped, id)
      {
        if id in dropped { verdicts := verdicts[id := Rejected]; }
        id := id + 1;
      }
    }

    method CloseReaders()
      requires asked == |requests|
      modifies this`answers
      ensures answers == Close(old(answers), DroppedReads(old(View())), |requests|)
    {
      var deferred := set k, i | k in pendingReads && 0 <= i < |pendingReads[k]| :: pendingReads[k][i];
      CloseEach(deferred);
    }

    method CloseEach(deferred: set<nat>)
      requires asked == |requests|
      modifies this`answers
      ensures answers == Close(old(answers), deferred, |requests|)
    {
      var rid := 0;
      while rid < asked
        invariant 0 <= rid <= asked
        invariant answers == Close(old(answers), deferred, rid)
      {
        if rid in deferred { answers := answers[rid := Closed]; }
        rid := rid + 1;
      }
    }

    /** The version test and the choice of what to do, on the content just read. */
    method Decide(t: Ticket, current: Option<Content>) returns (check: Check)
      ensures check == CheckTicket(env, t, current)
    {
      if t.op != Patch {
        if current.Some? && t.baseHash.Some? && t.baseHash.value != env.hash(current.value) { return Refuse; }
        if current.Some? && t.baseHash.None? && t.op == Create { return Refuse; }
        if current.None? && t.baseHash.Some? { return Refuse; }
      }
      match t.op {
        case Create => return Go(Put(t.payload));
        case Replace => return Go(Put(t.payload));
        case Delete => return Go(Unlink);
        case Rename =>
          var target := env.resolve(t.payload);
          if target.None? { return Refuse; }
          return Go(MoveTo(target.value));
        case Patch =>
          var patched := Patch.RunPatch(if current.Some? then current.value else "", t.payload);
          match patched {
            case Crash => return Panic;
            case Reject => return Refuse;
            case Patched(text) => return Go(Put(text));
          }
      }
    }

    method Settle(key: string, fault: Fault, verdict: Verdict)
      requires key in appliers
      modifies this`appliers, this`log, this`applied, this`verdicts
      ensures View() == Finish(old(View()), key, files, fault, verdict)
      ensures applied == old(applied) + 1
    {
      var job := appliers[key];
      appliers := appliers[key := job.(phase := Finished(verdict))];
      if !running { verdicts := verdicts[job.id := Rejected]; }
      log := log + [Entry(job.id, job.ticket, fault, verdict)];
      applied := applied + 1;
    }

    /** One file access of the applier thread of a path. */
    method ApplierStep(key: string, fault: Fault)
      requires Valid() && key in appliers && FaultFits(appliers[key].phase, fault)
      modifies this
      ensures Valid() && View() == Next(env, old(View()), Work(key, fault))
    {
      WorkHasEffect(env, View(), key, fault);
      WorkKeepsInvariant(View(), OnWork(env, View(), key, fault), key);
      WorkKeepsWaiters(View(), OnWork(env, View(), key, fault), key);
      AccessFiles(key, fault);
    }

    method AccessFiles(key: string, fault: Fault)
      requires Consistent() && key in appliers && FaultFits(appliers[key].phase, fault)
      modifies this
      ensures Consistent() && View() == OnWork(env, old(View()), key, fault)
    {
      match appliers[key].phase {
        case Begun => CheckStep(key, fault);
        case Planned(p, plan, blind) => PlanStep(key, p, plan, blind, fault);
        case Written(p, text, blind) =>
          if fault == RenameFails || env.temp(p) !in files {
            Settle(key, Blinded(blind, RenameFails), Rejected);
          } else {
            files := Move(files, env.temp(p), p);
            Settle(key, Blinded(blind, NoFault), Applied);
          }
      }
    }

    method CheckStep(key: string, fault: Fault)
      requires key in appliers && appliers[key].phase.Begun? && FaultFits(appliers[key].phase, fault)
      requires Consistent()
      modifies this`appliers, this`log, this`applied, this`verdicts
      ensures View() == OnWork(env, old(View()), key, fault)
      ensures Consistent()
    {
      var job := appliers[key];
      var path := env.resolve(job.ticket.key);
      if path.None? {
        Settle(key, fault, Rejected);
        return;
      }
      var p := path.value;
      var check := Decide(job.ticket, if fault.ReadFails? then None else Lookup(files, p));
      match check {
        case Refuse => Settle(key, fault, Rejected);
        case Go(plan) => appliers := appliers[key := job.(phase := Planned(p, plan, fault.ReadFails?))];
        case Panic => Unwind(key, fault);
      }
    }

    /** The applier thread panics: its waiter's channel closes, no `Done` is sent. */
    method Unwind(key: string, fault: Fault)
      requires key in appliers
      modifies this`appliers, this`log, this`applied, this`verdicts
      ensures View() == Die(old(View()), key, fault) && applied == old(applied) + 1
    {
      var job := appliers[key];
      appliers := appliers[key := job.(phase := Crashed)];
      verdicts := verdicts[job.id := Rejected];
      log := log + [Entry(job.id, job.ticket, fault, Rejected)];
      applied := applied + 1;
    }

    method PlanStep(key: string, p: Path, plan: Plan, blind: bool, fault: Fault)
      requires key in appliers && appliers[key].phase == Planned(p, plan, blind) && FaultFits(appliers[key].phase, fault)
      requires Consistent()
      modifies this`appliers, this`log, this`applied, this`files, this`verdicts
      ensures View() == OnWork(env, old(View()), key, fault)
      ensures Consistent()
    {
      if plan.Put? && fault == NoFault {
        files := files[env.temp(p) := plan.text];
        appliers := appliers[key := appliers[key].(phase := Written(p, plan.text, blind))];
        return;
      }
      var verdict := Carry(p, plan, fault);
      Settle(key, Blinded(blind, fault), verdict);
    }

    /** What the file system makes of a plan that is over with this access. */
    method Carry(p: Path, plan: Plan, fault: Fault) returns (verdict: Verdict)
      requires !fault.ReadFails? && (plan.Put? ==> fault.WriteFails?)
      modifies this`files
      ensures (files, verdict) == Execute(env, old(files), p, plan, fault)
    {
      match plan {
        case Put(text) =>
          if fault.residue.Some? { files := files[env.temp(p) := fault.residue.value]; }
          return Rejected;
        case Unlink =>
          if p !in files { return Applied; }
          if fault != NoFault { return Rejected; }
          files := files - {p};
          return Applied;
        case MoveTo(q) =>
          if p !in files || fault != NoFault { return Rejected; }
          files := Move(files, p, q);
          return Applied;
      }
    }
  }
}
