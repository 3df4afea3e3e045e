/** What the appliers' interleaved file accesses amount to: as long as tickets of different
    keys touch different paths, every reachable workspace is the log replayed ticket by ticket. */
module QueueFiles {
  import opened Text
  import opened Tickets
  import opened QueueSpec
  import opened QueueOrder

  /** The log applied one whole ticket after the other. */
  ghost function Replay(env: Env, files: Files, log: seq<Entry>): Files {
    if log == [] then files
    else
      var n := |log| - 1;
      ApplyTicket(env, Replay(env, files, log[..n]), log[n].ticket, log[n].fault).0
  }

  /** Tickets under different keys touch different paths: no aliased keys, no rename into
      another key's path, no temp file in common. */
  ghost predicate Independent(env: Env, arrived: seq<Ticket>) {
    forall i, j :: 0 <= i < |arrived| && 0 <= j < |arrived| && arrived[i].key != arrived[j].key
      ==> Footprint(env, arrived[i]) !! Footprint(env, arrived[j])
  }

  /** Reads under a key see no path that tickets of another key touch. */
  ghost predicate ReadsIndependent(env: Env, s: State) {
    forall r, i :: 0 <= r < |s.requests| && 0 <= i < |s.arrived| && s.requests[r].key != s.arrived[i].key
      && env.resolve(s.requests[r].key).Some?
      ==> env.resolve(s.requests[r].key).value !in Footprint(env, s.arrived[i])
  }

  /** The applier of `k` has written its temp file `q` and not renamed it yet. */
  predicate HoldsTemp(env: Env, s: State, k: string, q: Path) {
    k in s.jobs && s.jobs[k].phase.Written? && env.temp(s.jobs[k].phase.path) == q
  }

  ghost predicate FileKept(env: Env, files: Files, s: State, q: Path) {
    (forall k :: !HoldsTemp(env, s, k, q)) ==> Lookup(s.files, q) == Lookup(Replay(env, files, s.log), q)
  }

  /** What an applier decided earlier is what it would decide now. */
  ghost predicate JobReady(env: Env, files: Files, s: State, k: string) {
    k in s.jobs ==>
      var job := s.jobs[k];
      match job.phase
      case Begun => true
      case Planned(p, plan, blind) =>
        && env.resolve(k) == Some(p)
        && CheckTicket(env, job.ticket, if blind then None else Lookup(Replay(env, files, s.log), p)) == Go(plan)
      case Written(p, text, blind) =>
        && env.resolve(k) == Some(p) && Lookup(s.files, env.temp(p)) == Some(text)
        && CheckTicket(env, job.ticket, if blind then None else Lookup(Replay(env, files, s.log), p)) == Go(Put(text))
      case Finished(_) => true
      case Crashed => true
  }

  /** Every verdict is the one the ticket gets at its place in the replay. */
  ghost predicate VerdictsReplay(env: Env, files: Files, log: seq<Entry>) {
    forall i :: 0 <= i < |log| ==>
      log[i].verdict == ApplyTicket(env, Replay(env, files, log[..i]), log[i].ticket, log[i].fault).1
  }

  ghost predicate Replays(env: Env, files: Files, s: State) {
    && (forall q :: FileKept(env, files, s, q))
    && (forall k :: JobReady(env, files, s, k))
    && VerdictsReplay(env, files, s.log)
  }

  // ------------------------------------------------------------- one applier step

  lemma ReplaySnoc(env: Env, files: Files, log: seq<Entry>, e: Entry)
    ensures Replay(env, files, log + [e]) == ApplyTicket(env, Replay(env, files, log), e.ticket, e.fault).0
  {
    assert (log + [e])[..|log|] == log;
  }

  lemma VerdictsSnoc(env: Env, files: Files, log: seq<Entry>, e: Entry)
    requires VerdictsReplay(env, files, log)
    requires e.verdict == ApplyTicket(env, Replay(env, files, log), e.ticket, e.fault).1
    ensures VerdictsReplay(env, files, log + [e])
  {
    var longer := log + [e];
    forall i | 0 <= i < |longer|
      ensures longer[i].verdict == ApplyTicket(env, Replay(env, files, longer[..i]), longer[i].ticket, longer[i].fault).1
    {
      if i < |log| { assert longer[..i] == log[..i]; } else { assert longer[..i] == log; }
    }
  }

  /** A temp file belongs to the footprint of the ticket that wrote it. */
  lemma TempInFootprint(env: Env, files: Files, s: State, k: string, q: Path)
    requires JobReady(env, files, s, k) && JobKept(s, k) && HoldsTemp(env, s, k, q)
    ensures q in Footprint(env, s.jobs[k].ticket)
  {
  }

  lemma DisjointJobs(env: Env, s: State, k: string, j: string)
    requires Independent(env, s.arrived) && JobKept(s, k) && JobKept(s, j)
    requires k in s.jobs && j in s.jobs && k != j
    ensures Footprint(env, s.jobs[k].ticket) !! Footprint(env, s.jobs[j].ticket)
  {
    assert s.arrived[s.jobs[k].id].key != s.arrived[s.jobs[j].id].key;
  }

  /** A path of an applier that holds no temp file looks as in the replay. */
  lemma OwnPathsAgree(env: Env, files: Files, s: State, k: string)
    requires Invariant(s) && Replays(env, files, s) && Independent(env, s.arrived)
    requires k in s.jobs
    ensures forall q :: q in Footprint(env, s.jobs[k].ticket) && !HoldsTemp(env, s, k, q)
              ==> Lookup(s.files, q) == Lookup(Replay(env, files, s.log), q)
  {
    forall q | q in Footprint(env, s.jobs[k].ticket) && !HoldsTemp(env, s, k, q)
      ensures Lookup(s.files, q) == Lookup(Replay(env, files, s.log), q)
    {
      assert FileKept(env, files, s, q);
      forall j ensures !HoldsTemp(env, s, j, q) {
        assert LaneKept(s, j) && LaneKept(s, k) && JobReady(env, files, s, j);
        if j != k && HoldsTemp(env, s, j, q) {
          TempInFootprint(env, files, s, j, q);
          DisjointJobs(env, s, k, j);
        }
      }
    }
  }

  /** The step changed no path outside the footprint, and if it logged the ticket the
      footprint now looks as in the longer replay. */
  ghost predicate Faithful(env: Env, files: Files, s: State, s': State, key: string) {
    && WorkEffect(s, s', key)
    && (forall q :: q !in Footprint(env, s.jobs[key].ticket) ==> Lookup(s'.files, q) == Lookup(s.files, q))
    && (s'.log != s.log ==>
          var e := s'.log[|s'.log| - 1];
          && e.verdict == ApplyTicket(env, Replay(env, files, s.log), e.ticket, e.fault).1
          && Agree(s'.files, Replay(env, files, s'.log), Footprint(env, e.ticket)))
  }

  lemma FaithfulKeepsFile(env: Env, files: Files, s: State, s': State, key: string, q: Path)
    requires FileKept(env, files, s, q) && JobReady(env, files, s, key) && JobKept(s, key)
    requires Faithful(env, files, s, s', key) && s'.log != s.log
    ensures FileKept(env, files, s', q)
  {
    var e := s'.log[|s'.log| - 1];
    ReplaySnoc(env, files, s.log, e);
    if q !in Footprint(env, e.ticket) {
      TouchesFootprintOnly(env, Replay(env, files, s.log), e.ticket, e.fault, q);
      if forall k :: !HoldsTemp(env, s', k, q) {
        forall k ensures !HoldsTemp(env, s, k, q) {
          assert !HoldsTemp(env, s', k, q);
          if k == key && HoldsTemp(env, s, k, q) { TempInFootprint(env, files, s, k, q); }
        }
      }
    }
  }

  lemma FaithfulKeepsOther(env: Env, files: Files, s: State, s': State, key: string, k: string)
    requires Independent(env, s.arrived) && JobKept(s, key) && JobKept(s, k)
    requires JobReady(env, files, s, k) && Faithful(env, files, s, s', key) && k != key
    ensures JobReady(env, files, s', k)
  {
    if k in s.jobs && (s.jobs[k].phase.Planned? || s.jobs[k].phase.Written?) {
      var p := s.jobs[k].phase.path;
      DisjointJobs(env, s, key, k);
      assert p in Footprint(env, s.jobs[k].ticket);
      if s.jobs[k].phase.Written? { TempInFootprint(env, files, s, k, env.temp(p)); }
      if s'.log != s.log {
        var e := s'.log[|s'.log| - 1];
        ReplaySnoc(env, files, s.log, e);
        TouchesFootprintOnly(env, Replay(env, files, s.log), e.ticket, e.fault, p);
      }
    }
  }

  lemma LoggingReplays(env: Env, files: Files, s: State, s': State, key: string)
    requires Invariant(s) && Replays(env, files, s) && Independent(env, s.arrived)
    requires Faithful(env, files, s, s', key) && s'.log != s.log
    ensures Replays(env, files, s')
  {
    assert LaneKept(s, key) && JobReady(env, files, s, key);
    forall q ensures FileKept(env, files, s', q) {
      assert FileKept(env, files, s, q);
      FaithfulKeepsFile(env, files, s, s', key, q);
    }
    forall k ensures JobReady(env, files, s', k) {
      assert LaneKept(s, k) && JobReady(env, files, s, k);
      if k != key { FaithfulKeepsOther(env, files, s, s', key, k); }
    }
    VerdictsSnoc(env, files, s.log, s'.log[|s'.log| - 1]);
  }

  // ------------------------------------------------------------- the phases

  /** The check reads the same content now as in the replay. */
  lemma CheckAgrees(env: Env, files: Files, s: State, key: string)
    requires Invariant(s) && Replays(env, files, s) && Independent(env, s.arrived)
    requires key in s.jobs && !s.jobs[key].phase.Written? && env.resolve(key).Some?
    ensures Lookup(s.files, env.resolve(key).value) == Lookup(Replay(env, files, s.log), env.resolve(key).value)
  {
    assert LaneKept(s, key);
    OwnPathsAgree(env, files, s, key);
    assert env.resolve(key).value in Footprint(env, s.jobs[key].ticket);
  }

  /** A ticket refused at its check, or lost to a panic, replays as no change. */
  lemma RefusedIsFaithful(env: Env, files: Files, s: State, s': State, key: string)
    requires Invariant(s) && Replays(env, files, s) && Independent(env, s.arrived)
    requires WorkEffect(s, s', key) && !s.jobs[key].phase.Written? && s'.files == s.files && s'.log != s.log
    requires var e := s'.log[|s'.log| - 1];
             e.verdict == Rejected && ApplyTicket(env, Replay(env, files, s.log), e.ticket, e.fault)
               == (Replay(env, files, s.log), Rejected)
    ensures Faithful(env, files, s, s', key)
  {
    var e := s'.log[|s'.log| - 1];
    ReplaySnoc(env, files, s.log, e);
    OwnPathsAgree(env, files, s, key);
    assert forall q :: !HoldsTemp(env, s, key, q);
  }

  /** A step that only records a decision leaves workspace and log alone. */
  lemma PlanningReplays(env: Env, files: Files, s: State, s': State, key: string)
    requires Replays(env, files, s) && key in s.jobs && !s.jobs[key].phase.Written?
    requires s'.files == s.files && s'.log == s.log && key in s'.jobs && s'.jobs[key].phase.Planned?
    requires forall k :: k != key ==> (k in s'.jobs <==> k in s.jobs) && (k in s.jobs ==> s'.jobs[k] == s.jobs[k])
    requires JobReady(env, files, s', key)
    ensures Replays(env, files, s')
  {
    forall q ensures FileKept(env, files, s', q) {
      assert FileKept(env, files, s, q);
      if forall k :: !HoldsTemp(env, s', k, q) {
        forall k ensures !HoldsTemp(env, s, k, q) { assert !HoldsTemp(env, s', k, q); }
      }
    }
    forall k ensures JobReady(env, files, s', k) { assert JobReady(env, files, s, k); }
  }

  lemma BegunPlans(env: Env, files: Files, s: State, key: string, p: Path, plan: Plan, blind: bool)
    requires Invariant(s) && Replays(env, files, s) && Independent(env, s.arrived)
    requires key in s.jobs && s.jobs[key].phase.Begun? && env.resolve(key) == Some(p)
    requires CheckTicket(env, s.jobs[key].ticket, if blind then None else Lookup(s.files, p)) == Go(plan)
    ensures Replays(env, files, s.(jobs := s.jobs[key := s.jobs[key].(phase := Planned(p, plan, blind))]))
  {
    CheckAgrees(env, files, s, key);
    PlanningReplays(env, files, s, s.(jobs := s.jobs[key := s.jobs[key].(phase := Planned(p, plan, blind))]), key);
  }

  ghost predicate Turned(env: Env, files: Files, t: Ticket, fault: Fault) {
    env.resolve(t.key).None? || !CheckTicket(env, t, Seen(fault, Lookup(files, env.resolve(t.key).value))).Go?
  }

  lemma TurnedDownReplays(env: Env, files: Files, s: State, s': State, key: string, fault: Fault)
    requires Invariant(s) && Replays(env, files, s) && Independent(env, s.arrived)
    requires key in s.jobs && s.jobs[key].phase.Begun? && Turned(env, s.files, s.jobs[key].ticket, fault)
    requires s' == Finish(s, key, s.files, fault, Rejected) || s' == Die(s, key, fault)
    ensures Replays(env, files, s')
  {
    assert LaneKept(s, key);
    if env.resolve(key).Some? { CheckAgrees(env, files, s, key); }
    FinishHasEffect(s, key, s.files, fault, Rejected);
    DieHasEffect(s, key, fault);
    RefusedIsFaithful(env, files, s, s', key);
    LoggingReplays(env, files, s, s', key);
  }

  lemma BegunReplays(env: Env, files: Files, s: State, key: string, fault: Fault)
    requires Invariant(s) && Replays(env, files, s) && Independent(env, s.arrived)
    requires key in s.jobs && s.jobs[key].phase.Begun? && FaultFits(s.jobs[key].phase, fault)
    ensures Replays(env, files, OnWork(env, s, key, fault))
  {
    var t := s.jobs[key].ticket;
    assert LaneKept(s, key);
    if Turned(env, s.files, t, fault) {
      TurnedDownReplays(env, files, s, OnWork(env, s, key, fault), key, fault);
    } else {
      var p := env.resolve(t.key).value;
      BegunPlans(env, files, s, key, p, CheckTicket(env, t, Seen(fault, Lookup(s.files, p))).plan, fault.ReadFails?);
    }
  }

  lemma ExecuteBlinded(env: Env, x: Files, p: Path, plan: Plan, blind: bool, fault: Fault)
    requires !fault.ReadFails?
    ensures Execute(env, x, p, plan, Blinded(blind, fault)) == Execute(env, x, p, plan, fault)
  {
  }

  /** Executing a plan on the live workspace is executing it on the replayed one. */
  lemma PlanExecutes(env: Env, files: Files, s: State, key: string, fault: Fault)
    requires Invariant(s) && Replays(env, files, s) && Independent(env, s.arrived)
    requires key in s.jobs && s.jobs[key].phase.Planned? && !fault.ReadFails?
    ensures var job, now := s.jobs[key], Replay(env, files, s.log);
            var (live, verdict) := Execute(env, s.files, job.phase.path, job.phase.plan, fault);
            var whole := ApplyTicket(env, now, job.ticket, Blinded(job.phase.blind, fault));
            && PlanPaths(env, job.phase.path, job.phase.plan) == Footprint(env, job.ticket)
            && verdict == whole.1 && Agree(live, whole.0, Footprint(env, job.ticket))
  {
    var job, now := s.jobs[key], Replay(env, files, s.log);
    var p, plan := job.phase.path, job.phase.plan;
    assert LaneKept(s, key) && JobReady(env, files, s, key);
    OwnPathsAgree(env, files, s, key);
    PlanStaysInFootprint(env, job.ticket, if job.phase.blind then None else Lookup(now, p));
    assert forall q :: !HoldsTemp(env, s, key, q);
    ExecuteLocal(env, s.files, now, p, plan, fault);
    ExecuteBlinded(env, now, p, plan, job.phase.blind, fault);
  }

  lemma ExecutedIsFaithful(env: Env, files: Files, s: State, key: string, fault: Fault)
    requires Invariant(s) && Replays(env, files, s) && Independent(env, s.arrived)
    requires key in s.jobs && s.jobs[key].phase.Planned? && FaultFits(s.jobs[key].phase, fault)
    requires s.jobs[key].phase.plan.Put? ==> fault != NoFault
    ensures Faithful(env, files, s, OnWork(env, s, key, fault), key)
    ensures OnWork(env, s, key, fault).log != s.log
  {
    var job := s.jobs[key];
    var (live, verdict) := Execute(env, s.files, job.phase.path, job.phase.plan, fault);
    PlanExecutes(env, files, s, key, fault);
    forall q | q !in Footprint(env, job.ticket) ensures Lookup(live, q) == Lookup(s.files, q) {
      ExecuteTouchesPlanOnly(env, s.files, job.phase.path, job.phase.plan, fault, q);
    }
    var whole := Blinded(job.phase.blind, fault);
    FinishHasEffect(s, key, live, whole, verdict);
    ReplaySnoc(env, files, s.log, Entry(job.id, job.ticket, whole, verdict));
  }

  /** Writing the temp file: only the temp path departs from the replay, and it is held. */
  lemma TempWriteReplays(env: Env, files: Files, s: State, key: string)
    requires Invariant(s) && Replays(env, files, s) && Independent(env, s.arrived)
    requires key in s.jobs && s.jobs[key].phase.Planned? && s.jobs[key].phase.plan.Put?
    ensures Replays(env, files, OnWork(env, s, key, NoFault))
  {
    var s', job := OnWork(env, s, key, NoFault), s.jobs[key];
    var tmp := env.temp(job.phase.path);
    WorkHasEffect(env, s, key, NoFault);
    assert LaneKept(s, key) && JobReady(env, files, s, key);
    assert HoldsTemp(env, s', key, tmp);
    assert tmp in Footprint(env, job.ticket);
    assert Faithful(env, files, s, s', key);
    forall q ensures FileKept(env, files, s', q) {
      assert FileKept(env, files, s, q);
      if q != tmp && forall k :: !HoldsTemp(env, s', k, q) {
        forall k ensures !HoldsTemp(env, s, k, q) { assert !HoldsTemp(env, s', k, q); }
      }
    }
    forall k ensures JobReady(env, files, s', k) {
      assert LaneKept(s, k) && JobReady(env, files, s, k);
      if k != key { FaithfulKeepsOther(env, files, s, s', key, k); }
    }
  }

  lemma PutOnto(env: Env, x: Files, y: Files, p: Path, text: Content)
    requires Lookup(x, env.temp(p)) == Some(text)
    ensures Agree(Move(x, env.temp(p), p), Execute(env, y, p, Put(text), NoFault).0, {p, env.temp(p)})
    ensures Agree(x, Execute(env, y, p, Put(text), RenameFails).0, {env.temp(p)})
  {
  }

  /** The final rename installs exactly what the whole ticket would have installed. */
  lemma RenameInstalls(env: Env, files: Files, s: State, key: string)
    requires Invariant(s) && Replays(env, files, s) && Independent(env, s.arrived)
    requires key in s.jobs && s.jobs[key].phase.Written?
    ensures var job, now := s.jobs[key], Replay(env, files, s.log);
            var p, tmp, blind := job.phase.path, env.temp(job.phase.path), job.phase.blind;
            && tmp in s.files && Footprint(env, job.ticket) == {p, tmp}
            && var whole := ApplyTicket(env, now, job.ticket, Blinded(blind, NoFault));
            && whole.1 == Applied && Agree(Move(s.files, tmp, p), whole.0, {p, tmp})
            && var failed := ApplyTicket(env, now, job.ticket, Blinded(blind, RenameFails));
            && failed.1 == Rejected && Agree(s.files, failed.0, {p, tmp})
  {
    var job, now := s.jobs[key], Replay(env, files, s.log);
    var p, text := job.phase.path, job.phase.text;
    assert LaneKept(s, key) && JobReady(env, files, s, key);
    OwnPathsAgree(env, files, s, key);
    PlanStaysInFootprint(env, job.ticket, if job.phase.blind then None else Lookup(now, p));
    ExecuteBlinded(env, now, p, Put(text), job.phase.blind, NoFault);
    ExecuteBlinded(env, now, p, Put(text), job.phase.blind, RenameFails);
    assert forall q :: HoldsTemp(env, s, key, q) <==> q == env.temp(p);
    PutOnto(env, s.files, now, p, text);
    assert p in Footprint(env, job.ticket);
  }

  /** The applier's last step. */
  lemma RenameStep(env: Env, s: State, key: string, fault: Fault)
    requires key in s.jobs && s.jobs[key].phase.Written? && FaultFits(s.jobs[key].phase, fault)
    requires env.temp(s.jobs[key].phase.path) in s.files
    ensures var job, s' := s.jobs[key], OnWork(env, s, key, fault);
            && s'.log == s.log + [Entry(job.id, job.ticket, Blinded(job.phase.blind, fault), if fault == NoFault then Applied else Rejected)]
            && s'.files == (if fault == NoFault then Move(s.files, env.temp(job.phase.path), job.phase.path) else s.files)
            && s'.arrived == s.arrived && WorkEffect(s, s', key)
  {
    WorkHasEffect(env, s, key, fault);
  }

  lemma RenameIsFaithful(env: Env, files: Files, s: State, key: string, fault: Fault)
    requires Invariant(s) && Replays(env, files, s) && Independent(env, s.arrived)
    requires key in s.jobs && s.jobs[key].phase.Written? && FaultFits(s.jobs[key].phase, fault)
    ensures Faithful(env, files, s, OnWork(env, s, key, fault), key)
    ensures OnWork(env, s, key, fault).log != s.log
  {
    var s', job := OnWork(env, s, key, fault), s.jobs[key];
    RenameInstalls(env, files, s, key);
    RenameStep(env, s, key, fault);
    var whole := Blinded(job.phase.blind, fault);
    ReplaySnoc(env, files, s.log, Entry(job.id, job.ticket, whole, if fault == NoFault then Applied else Rejected));
  }

  lemma WorkReplays(env: Env, files: Files, s: State, key: string, fault: Fault)
    requires Invariant(s) && Replays(env, files, s) && Independent(env, s.arrived)
    requires key in s.jobs && FaultFits(s.jobs[key].phase, fault)
    ensures Replays(env, files, OnWork(env, s, key, fault))
  {
    var s', phase := OnWork(env, s, key, fault), s.jobs[key].phase;
    if phase.Begun? {
      BegunReplays(env, files, s, key, fault);
    } else if phase.Planned? && phase.plan.Put? && fault == NoFault {
      TempWriteReplays(env, files, s, key);
    } else {
      if phase.Planned? {
        ExecutedIsFaithful(env, files, s, key, fault);
      } else {
        RenameIsFaithful(env, files, s, key, fault);
      }
      LoggingReplays(env, files, s, s', key);
    }
  }

  /** The dispatcher touches no file. */
  lemma DispatcherReplays(env: Env, files: Files, s: State, s': State)
    requires Replays(env, files, s) && s'.files == s.files && s'.log == s.log
    requires forall k :: k in s'.jobs ==> s'.jobs[k].phase.Begun? || (k in s.jobs && s.jobs[k] == s'.jobs[k])
    requires forall k :: k in s.jobs ==>
      s.jobs[k].phase.Finished? || (k in s'.jobs && s'.jobs[k] == s.jobs[k])
    ensures Replays(env, files, s')
  {
    forall q ensures FileKept(env, files, s', q) {
      assert FileKept(env, files, s, q);
      if forall k :: !HoldsTemp(env, s', k, q) {
        forall k ensures !HoldsTemp(env, s, k, q) { assert !HoldsTemp(env, s', k, q); }
      }
    }
    forall k ensures JobReady(env, files, s', k) { assert JobReady(env, files, s, k); }
  }

  lemma SubmitReplays(env: Env, files: Files, s: State, t: Ticket)
    requires Replays(env, files, s)
    ensures Replays(env, files, OnSubmit(s, t))
  {
    DispatcherReplays(env, files, s, OnSubmit(s, t));
  }

  lemma DoneReplays(env: Env, files: Files, s: State, key: string)
    requires Replays(env, files, s) && key in s.jobs && s.jobs[key].phase.Finished?
    ensures Replays(env, files, OnDone(env, s, key))
  {
    DispatcherReplays(env, files, s, OnDone(env, s, key));
  }

  lemma QuietReplays(env: Env, files: Files, s: State, s': State)
    requires Replays(env, files, s) && s'.files == s.files && s'.log == s.log && s'.jobs == s.jobs
    ensures Replays(env, files, s')
  {
    DispatcherReplays(env, files, s, s');
  }

  lemma DispatchReplays(env: Env, files: Files, s: State, e: Event)
    requires Replays(env, files, s) && Enabled(s, e) && !e.Work?
    ensures Replays(env, files, Next(env, s, e))
  {
    match e
    case Submit(t) => SubmitReplays(env, files, s, t);
    case Done(key) => DoneReplays(env, files, s, key);
    case Read(key) => QuietReplays(env, files, s, OnRead(env, s, key));
    case Shutdown => QuietReplays(env, files, s, OnShutdown(s));
  }

  lemma StepReplays(env: Env, files: Files, s: State, e: Event)
    requires Invariant(s) && Replays(env, files, s) && Independent(env, s.arrived) && Enabled(s, e)
    ensures Replays(env, files, Next(env, s, e))
  {
    if e.Work? { WorkReplays(env, files, s, e.key, e.fault); } else { DispatchReplays(env, files, s, e); }
  }

  lemma DispatchGrows(env: Env, s: State, e: Event)
    requires Enabled(s, e) && !e.Work?
    ensures s.arrived <= Next(env, s, e).arrived && s.requests <= Next(env, s, e).requests
    ensures s.log == Next(env, s, e).log
  {
    match e
    case Submit(t) => assert OnSubmit(s, t).log == s.log;
    case Read(key) => assert OnRead(env, s, key).log == s.log;
    case Done(key) => assert OnDone(env, s, key).log == s.log;
    case Shutdown => assert OnShutdown(s).log == s.log;
  }

  lemma ArrivedGrows(env: Env, s: State, e: Event)
    requires Enabled(s, e)
    ensures s.arrived <= Next(env, s, e).arrived && s.requests <= Next(env, s, e).requests
    ensures s.log <= Next(env, s, e).log
  {
    if e.Work? { WorkHasEffect(env, s, e.key, e.fault); } else { DispatchGrows(env, s, e); }
  }

  lemma IndependentPrefix(env: Env, arrived: seq<Ticket>, longer: seq<Ticket>)
    requires arrived <= longer && Independent(env, longer)
    ensures Independent(env, arrived)
  {
    forall i, j | 0 <= i < |arrived| && 0 <= j < |arrived| && arrived[i].key != arrived[j].key
      ensures Footprint(env, arrived[i]) !! Footprint(env, arrived[j])
    {
      assert longer[i].key != longer[j].key;
    }
  }

  /** Whatever the interleaving, the I/O failures and the moment of a shutdown: the
      workspace is the log replayed one whole ticket at a time, but for temp files in use. */
  lemma {:induction false} EveryRunReplays(env: Env, files: Files, events: seq<Event>)
    requires Legal(env, files, events) && Independent(env, After(env, files, events).arrived)
    ensures Replays(env, files, After(env, files, events))
    decreases |events|
  {
    if events == [] {
      var s := Start(files);
      forall q ensures FileKept(env, files, s, q) { }
      forall k ensures JobReady(env, files, s, k) { }
    } else {
      var n := |events| - 1;
      var s := After(env, files, events[..n]);
      ArrivedGrows(env, s, events[n]);
      IndependentPrefix(env, s.arrived, After(env, files, events).arrived);
      EveryRunReplays(env, files, events[..n]);
      EveryRunKeepsOrder(env, files, events[..n]);
      StepReplays(env, files, s, events[n]);
    }
  }
}
