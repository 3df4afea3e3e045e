/** What the waiters and readers of the write queue hear, shutdown included
    (rolen-orchestrator/src/queue.rs:120-128, 190-219, 234-248): everybody hears something,
    and what a waiter hears is its ticket's outcome but in one case. */
module QueueWaiters {
  import opened Text
  import opened Tickets
  import opened QueueSpec
  import opened QueueOrder

  // ------------------------------------------------------------- the invariant

  /** Tickets of a key are completed in the order of their numbers. */
  ghost predicate Ascends(s: State, key: string) {
    key in s.jobs ==>
      var id, backlog := s.jobs[key].id, Backlog(s, key);
      && (forall c :: c in s.completed && c < |s.arrived| && s.arrived[c].key == key ==> c < id)
      && (forall i :: 0 <= i < |backlog| ==> id < backlog[i].id)
      && (forall i, j :: 0 <= i < j < |backlog| ==> backlog[i].id < backlog[j].id)
  }

  /** A waiter whose `Done` came in heard its ticket's outcome; any other that heard something
      heard a rejection, which while the dispatcher runs is the outcome too. */
  ghost predicate ToldKept(s: State, id: nat) {
    && (id in s.completed ==> id < |s.arrived| && id in s.verdicts && (id, s.verdicts[id]) in Outcomes(s.log))
    && (id in s.verdicts && id !in s.completed ==>
          s.verdicts[id] == Rejected && (s.running ==> (id, Rejected) in Outcomes(s.log)))
  }

  /** The ticket is still somewhere on its way to an outcome. */
  ghost predicate Awaited(s: State, key: string, id: nat) {
    && key in s.jobs
    && ((s.jobs[key].id == id && (Unlogged(s.jobs[key].phase) || (s.running && s.jobs[key].phase.Finished?)))
        || (s.running && id in QueuedIds(Backlog(s, key))))
  }

  ghost predicate HearKept(s: State, id: nat) {
    id < |s.arrived| ==> id in s.verdicts || Awaited(s, s.arrived[id].key, id)
  }

  /** Only a stopped dispatcher closes a reader's channel, and then no reader is left waiting. */
  ghost predicate ReadersKept(s: State) {
    && (s.running ==> forall rid :: rid in s.answers ==> s.answers[rid].Answer?)
    && (!s.running ==> forall rid :: 0 <= rid < |s.requests| ==> rid in s.answers)
  }

  /** A deferred read has no answer yet. */
  ghost predicate StillDeferred(s: State, key: string) {
    s.running ==> forall i :: 0 <= i < |Waiting(s, key)| ==> Waiting(s, key)[i] !in s.answers
  }

  ghost predicate WaitersKept(s: State) {
    && (forall k :: Ascends(s, k)) && (forall k :: StillDeferred(s, k))
    && (forall id: nat :: ToldKept(s, id))
    && (forall id: nat :: HearKept(s, id))
    && ReadersKept(s)
  }

  // ------------------------------------------------------------- submissions, reads

  lemma SubmitKeepsWaiters(s: State, t: Ticket)
    requires Invariant(s) && WaitersKept(s) && s.running
    ensures WaitersKept(OnSubmit(s, t))
  {
    var s' := OnSubmit(s, t);
    CompletedHaveArrived(s);
    forall k ensures Ascends(s', k) {
      assert Ascends(s, k) && LaneKept(s, k);
      if k == t.key { SubmitAscends(s, t); } else { SubmitAscendsOther(s, t, k); }
    }
    forall k ensures StillDeferred(s', k) { assert StillDeferred(s, k) && Waiting(s', k) == Waiting(s, k); }
    forall id: nat ensures ToldKept(s', id) { assert ToldKept(s, id); }
    forall id: nat ensures HearKept(s', id) {
      assert HearKept(s, id) && LaneKept(s, t.key);
      SubmitHears(s, t, id);
    }
  }

  lemma CompletedHaveArrived(s: State)
    requires forall id: nat :: ToldKept(s, id)
    ensures forall c: nat :: c in s.completed ==> c < |s.arrived|
  {
    forall c: nat | c in s.completed ensures c < |s.arrived| { assert ToldKept(s, c); }
  }

  lemma SubmitAscendsOther(s: State, t: Ticket, k: string)
    requires Ascends(s, k) && k != t.key && forall c: nat :: c in s.completed ==> c < |s.arrived|
    ensures Ascends(OnSubmit(s, t), k)
  {
    assert Backlog(OnSubmit(s, t), k) == Backlog(s, k);
  }

  lemma SubmitAscends(s: State, t: Ticket)
    requires Ascends(s, t.key) && LaneKept(s, t.key) && forall c: nat :: c in s.completed ==> c < |s.arrived|
    ensures Ascends(OnSubmit(s, t), t.key)
  {
    var s', backlog := OnSubmit(s, t), Backlog(s, t.key);
    if t.key in s.jobs {
      assert Backlog(s', t.key) == backlog + [Queued(|s.arrived|, t)];
      assert forall i :: 0 <= i < |backlog| ==> Genuine(s.arrived, t.key, backlog[i].id, backlog[i].ticket);
    } else {
      assert Backlog(s', t.key) == [];
    }
  }

  lemma SubmitHears(s: State, t: Ticket, id: nat)
    requires HearKept(s, id) && LaneKept(s, t.key) && s.running
    ensures HearKept(OnSubmit(s, t), id)
  {
    var s' := OnSubmit(s, t);
    var backlog := Backlog(s, t.key);
    if t.key in s.jobs {
      assert QueuedIds(Backlog(s', t.key)) == QueuedIds(backlog) + [|s.arrived|];
    }
    if id < |s.arrived| && s.arrived[id].key != t.key {
      assert Backlog(s', s.arrived[id].key) == Backlog(s, s.arrived[id].key);
    }
  }

  /** Nothing about tickets has changed. */
  ghost predicate SameTickets(s: State, s': State) {
    && s'.jobs == s.jobs && s'.inbox == s.inbox && s'.arrived == s.arrived && s'.log == s.log
    && s'.completed == s.completed && s'.verdicts == s.verdicts && s'.running == s.running
  }

  lemma SameTicketsAscend(s: State, s': State, k: string)
    requires SameTickets(s, s') && Ascends(s, k)
    ensures Ascends(s', k)
  {
    assert Backlog(s', k) == Backlog(s, k);
  }

  lemma SameTicketsTold(s: State, s': State, id: nat)
    requires SameTickets(s, s') && ToldKept(s, id) && HearKept(s, id)
    ensures ToldKept(s', id) && HearKept(s', id)
  {
    if id < |s.arrived| { assert Backlog(s', s.arrived[id].key) == Backlog(s, s.arrived[id].key); }
  }

  lemma DeferredStays(s: State, s': State, k: string)
    requires StillDeferred(s, k) && WaitingAsked(s, k) && s'.running == s.running && Waiting(s', k) == Waiting(s, k)
    requires forall rid :: rid in s'.answers ==> rid in s.answers || rid >= |s.requests|
    ensures StillDeferred(s', k)
  {
  }

  lemma DeferredGrows(s: State, s': State, k: string)
    requires StillDeferred(s, k) && AnswersAsked(s) && s'.running == s.running && s'.answers == s.answers
    requires Waiting(s', k) == Waiting(s, k) + [|s.requests|]
    ensures StillDeferred(s', k)
  {
  }

  /** A read is deferred behind its path's tickets ... */
  lemma BusyRead(env: Env, s: State, key: string)
    requires key in s.jobs || key in s.inbox
    ensures var s' := OnRead(env, s, key);
            && s'.answers == s.answers && s'.pendingReads == s.pendingReads[key := Waiting(s, key) + [|s.requests|]]
  {
  }

  /** ... or answered, and nothing else. */
  lemma IdleRead(env: Env, s: State, key: string)
    requires key !in s.jobs && key !in s.inbox
    ensures OnRead(env, s, key).pendingReads == s.pendingReads
    ensures OnRead(env, s, key).answers.Keys == s.answers.Keys + {|s.requests|}
  {
  }

  lemma WaitingGrows(s: State, s': State, key: string, k: string)
    requires s'.pendingReads == s.pendingReads[key := Waiting(s, key) + [|s.requests|]]
    ensures Waiting(s', k) == Waiting(s, k) + (if k == key then [|s.requests|] else [])
  {
  }

  lemma ReadDefers(s: State, s': State, busy: bool, own: bool, k: string)
    requires StillDeferred(s, k) && WaitingAsked(s, k) && AnswersAsked(s) && s'.running == s.running
    requires if busy then s'.answers == s.answers && Waiting(s', k) == Waiting(s, k) + (if own then [|s.requests|] else [])
             else Waiting(s', k) == Waiting(s, k) && s'.answers.Keys == s.answers.Keys + {|s.requests|}
    ensures StillDeferred(s', k)
  {
    if busy && own { DeferredGrows(s, s', k); } else { DeferredStays(s, s', k); }
  }

  lemma ReadKeepsDeferred(env: Env, s: State, key: string, k: string)
    requires Invariant(s) && WaitersKept(s) && s.running
    ensures StillDeferred(OnRead(env, s, key), k)
  {
    var s', busy := OnRead(env, s, key), key in s.jobs || key in s.inbox;
    assert StillDeferred(s, k) && LaneKept(s, k);
    if busy {
      BusyRead(env, s, key);
      WaitingGrows(s, s', key, k);
    } else {
      IdleRead(env, s, key);
    }
    ReadDefers(s, s', busy, k == key, k);
  }

  lemma ReadKeepsWaiters(env: Env, s: State, key: string)
    requires Invariant(s) && WaitersKept(s) && s.running
    ensures WaitersKept(OnRead(env, s, key))
  {
    var s' := OnRead(env, s, key);
    assert SameTickets(s, s');
    forall k ensures Ascends(s', k) {
      assert Ascends(s, k);
      SameTicketsAscend(s, s', k);
    }
    forall k ensures StillDeferred(s', k) { ReadKeepsDeferred(env, s, key, k); }
    forall id: nat ensures ToldKept(s', id) && HearKept(s', id) {
      assert ToldKept(s, id) && HearKept(s, id);
      SameTicketsTold(s, s', id);
    }
  }

  // ------------------------------------------------------------- appliers

  /** A ticket still in progress has not been completed. */
  lemma OpenIsNotCompleted(s: State, key: string)
    requires Ascends(s, key) && JobKept(s, key) && key in s.jobs
    ensures s.jobs[key].id !in s.completed
  {
  }

  lemma WorkTells(s: State, s': State, key: string, id: nat)
    requires ToldKept(s, id) && Ascends(s, key) && LaneKept(s, key) && WorkEffect(s, s', key)
    ensures ToldKept(s', id)
  {
    OpenIsNotCompleted(s, key);
    if s'.log != s.log { OutcomesSnoc(s.log, s'.log[|s'.log| - 1]); }
  }

  lemma WorkHears(s: State, s': State, key: string, id: nat)
    requires HearKept(s, id) && JobKept(s, key) && WorkEffect(s, s', key)
    ensures HearKept(s', id)
  {
    if id < |s.arrived| {
      var k := s.arrived[id].key;
      assert Backlog(s', k) == Backlog(s, k);
    }
  }

  lemma WorkKeepsWaiters(s: State, s': State, key: string)
    requires Invariant(s) && WaitersKept(s) && WorkEffect(s, s', key)
    ensures WaitersKept(s')
  {
    assert LaneKept(s, key) && Ascends(s, key);
    forall k ensures Ascends(s', k) {
      assert Ascends(s, k);
      assert Backlog(s', k) == Backlog(s, k);
    }
    forall k ensures StillDeferred(s', k) { assert StillDeferred(s, k) && Waiting(s', k) == Waiting(s, k); }
    forall id: nat ensures ToldKept(s', id) {
      assert ToldKept(s, id);
      WorkTells(s, s', key, id);
    }
    forall id: nat ensures HearKept(s', id) {
      assert HearKept(s, id);
      WorkHears(s, s', key, id);
    }
  }

  // ------------------------------------------------------------- completions

  lemma DoneAscends(env: Env, s: State, key: string, k: string)
    requires key in s.jobs && s.jobs[key].phase.Finished? && JobKept(s, key)
    requires Ascends(s, k)
    ensures Ascends(OnDone(env, s, key), k)
  {
    var s' := OnDone(env, s, key);
    if k != key {
      assert Backlog(s', k) == Backlog(s, k);
    } else if Backlog(s, k) != [] {
      assert Backlog(s', k) == Backlog(s, k)[1..];
    }
  }

  lemma DoneTells(env: Env, s: State, key: string, id: nat)
    requires key in s.jobs && s.jobs[key].phase.Finished? && JobKept(s, key)
    requires ToldKept(s, id)
    ensures ToldKept(OnDone(env, s, key), id)
  {
  }

  lemma DoneHears(env: Env, s: State, key: string, id: nat)
    requires key in s.jobs && s.jobs[key].phase.Finished?
    requires HearKept(s, id) && s.running
    ensures HearKept(OnDone(env, s, key), id)
  {
    var s', backlog := OnDone(env, s, key), Backlog(s, key);
    if id < |s.arrived| && id !in s.verdicts {
      var k := s.arrived[id].key;
      if k != key {
        assert Backlog(s', k) == Backlog(s, k);
      } else if id != s.jobs[key].id {
        var i :| 0 <= i < |backlog| && QueuedIds(backlog)[i] == id;
        if i > 0 { assert QueuedIds(Backlog(s', k))[i - 1] == id; }
      }
    }
  }

  lemma DoneDefers(env: Env, s: State, key: string, k: string)
    requires key in s.jobs && s.jobs[key].phase.Finished?
    requires StillDeferred(s, k) && WaitingAsked(s, k) && WaitingAsked(s, key)
    ensures StillDeferred(OnDone(env, s, key), k)
  {
    var s' := OnDone(env, s, key);
    if k == key {
      assert Waiting(s', k) == [] || (Waiting(s', k) == Waiting(s, k) && s'.answers == s.answers);
    } else {
      assert Waiting(s', k) == Waiting(s, k);
      forall i | 0 <= i < |Waiting(s, k)| ensures Waiting(s, k)[i] !in Waiting(s, key) {
        assert s.requests[Waiting(s, k)[i]].key == k;
      }
    }
  }

  lemma DoneKeepsWaiters(env: Env, s: State, key: string)
    requires Invariant(s) && WaitersKept(s) && s.running && key in s.jobs && s.jobs[key].phase.Finished?
    ensures WaitersKept(OnDone(env, s, key))
  {
    var s' := OnDone(env, s, key);
    assert LaneKept(s, key);
    forall k ensures Ascends(s', k) {
      assert Ascends(s, k);
      DoneAscends(env, s, key, k);
    }
    forall k ensures StillDeferred(s', k) {
      assert StillDeferred(s, k) && LaneKept(s, k);
      DoneDefers(env, s, key, k);
    }
    forall id: nat ensures ToldKept(s', id) {
      assert ToldKept(s, id);
      DoneTells(env, s, key, id);
    }
    forall id: nat ensures HearKept(s', id) {
      assert HearKept(s, id);
      DoneHears(env, s, key, id);
    }
  }

  // ------------------------------------------------------------- shutdown

  /** Nobody whose `Done` came in is told again. */
  lemma DroppedIsNotCompleted(s: State, id: nat)
    requires Invariant(s) && id in Dropped(s) && forall k :: Ascends(s, k)
    ensures id !in s.completed
  {
    if k :| k in s.jobs && s.jobs[k].phase.Finished? && s.jobs[k].id == id {
      assert LaneKept(s, k) && Ascends(s, k);
      OpenIsNotCompleted(s, k);
    } else {
      var k, i :| k in s.inbox && 0 <= i < |s.inbox[k]| && s.inbox[k][i].id == id;
      assert LaneKept(s, k) && Ascends(s, k);
      assert Backlog(s, k)[i].id == id && Genuine(s.arrived, k, id, Backlog(s, k)[i].ticket);
    }
  }

  lemma ShutdownTells(s: State, id: nat)
    requires Invariant(s) && ToldKept(s, id) && forall k :: Ascends(s, k)
    ensures ToldKept(OnShutdown(s), id)
  {
    if id in Dropped(s) { DroppedIsNotCompleted(s, id); }
  }

  lemma ShutdownHears(s: State, id: nat)
    requires HearKept(s, id)
    ensures HearKept(OnShutdown(s), id)
  {
    if id < |s.arrived| && id !in s.verdicts {
      var k := s.arrived[id].key;
      if id in QueuedIds(Backlog(s, k)) {
        var i :| 0 <= i < |Backlog(s, k)| && QueuedIds(Backlog(s, k))[i] == id;
        assert s.inbox[k][i].id == id;
        assert id in Dropped(s);
      }
    }
  }

  lemma ShutdownAnswers(s: State, rid: nat)
    requires ReadKept(s, rid) && rid < |s.requests|
    ensures rid in OnShutdown(s).answers
  {
    if rid !in s.answers {
      var k := s.requests[rid].key;
      var i :| 0 <= i < |Waiting(s, k)| && Waiting(s, k)[i] == rid;
      assert s.pendingReads[k][i] == rid;
      assert rid in DroppedReads(s);
    }
  }

  lemma ShutdownKeepsWaiters(s: State)
    requires Invariant(s) && WaitersKept(s)
    ensures WaitersKept(OnShutdown(s))
  {
    var s' := OnShutdown(s);
    forall k ensures Ascends(s', k) {
      assert Ascends(s, k);
      assert Backlog(s', k) == Backlog(s, k);
    }
    forall id: nat ensures ToldKept(s', id) {
      assert ToldKept(s, id);
      ShutdownTells(s, id);
    }
    forall id: nat ensures HearKept(s', id) {
      assert HearKept(s, id);
      ShutdownHears(s, id);
    }
    forall rid | 0 <= rid < |s'.requests| ensures rid in s'.answers {
      assert ReadKept(s, rid);
      ShutdownAnswers(s, rid);
    }
  }

  // ------------------------------------------------------------- runs

  lemma StepKeepsWaiters(env: Env, s: State, e: Event)
    requires Invariant(s) && WaitersKept(s) && Enabled(s, e)
    ensures WaitersKept(Next(env, s, e))
  {
    match e
    case Submit(t) => SubmitKeepsWaiters(s, t);
    case Read(key) => ReadKeepsWaiters(env, s, key);
    case Work(key, fault) =>
      WorkHasEffect(env, s, key, fault);
      WorkKeepsWaiters(s, Next(env, s, e), key);
    case Done(key) => DoneKeepsWaiters(env, s, key);
    case Shutdown => ShutdownKeepsWaiters(s);
  }

  lemma {:induction false} EveryRunKeepsWaiters(env: Env, files: Files, events: seq<Event>)
    requires Legal(env, files, events)
    ensures WaitersKept(After(env, files, events))
    decreases |events|
  {
    if events != [] {
      var n := |events| - 1;
      EveryRunKeepsOrder(env, files, events[..n]);
      EveryRunKeepsWaiters(env, files, events[..n]);
      StepKeepsWaiters(env, After(env, files, events[..n]), events[n]);
    }
  }

  /** In every reachable state: while the dispatcher runs, a ticket nobody has been told about
      is queued, in progress or about to be reported; once it has stopped, every waiter whose
      applier is through has heard something, and every reader has. */
  lemma NobodyIsForgotten(env: Env, files: Files, events: seq<Event>, id: nat)
    requires Legal(env, files, events) && id < |After(env, files, events).arrived|
    ensures var s := After(env, files, events);
            id in s.verdicts || Awaited(s, s.arrived[id].key, id)
    ensures var s := After(env, files, events);
            !s.running ==>
              && (id in s.verdicts || id in InProgress(s, s.arrived[id].key))
              && forall rid :: 0 <= rid < |s.requests| ==> rid in s.answers
  {
    EveryRunKeepsWaiters(env, files, events);
    assert HearKept(After(env, files, events), id);
  }

  /** A waiter that hears `Applied` had its ticket applied, also across a shutdown. */
  lemma AppliedMeansApplied(env: Env, files: Files, events: seq<Event>, id: nat)
    requires Legal(env, files, events)
    requires id in After(env, files, events).verdicts && After(env, files, events).verdicts[id] == Applied
    ensures (id, Applied) in Outcomes(After(env, files, events).log)
  {
    EveryRunKeepsWaiters(env, files, events);
    assert ToldKept(After(env, files, events), id);
  }

  /** A logged ticket's waiter hears something else than its outcome exactly when the ticket
      was applied and the dispatcher stopped before its `Done` came in. */
  lemma ToldWrongExactly(env: Env, files: Files, events: seq<Event>, i: nat)
    requires Legal(env, files, events) && i < |After(env, files, events).log|
    requires After(env, files, events).log[i].id in After(env, files, events).verdicts
    ensures var s := After(env, files, events);
            var e := s.log[i];
            s.verdicts[e.id] != e.verdict <==> e.verdict == Applied && !s.running && e.id !in s.completed
  {
    EveryRunKeepsOrder(env, files, events);
    EveryRunKeepsWaiters(env, files, events);
    ToldOrDropped(After(env, files, events), i);
  }

  lemma ToldOrDropped(s: State, i: nat)
    requires Invariant(s) && WaitersKept(s) && i < |s.log| && s.log[i].id in s.verdicts
    ensures s.verdicts[s.log[i].id] != s.log[i].verdict
       <==> s.log[i].verdict == Applied && !s.running && s.log[i].id !in s.completed
  {
    var e := s.log[i];
    assert ToldKept(s, e.id);
    if (e.id, s.verdicts[e.id]) in Outcomes(s.log) { OneOutcome(s, i, s.verdicts[e.id]); }
  }

  lemma StepCompletes(env: Env, s: State, e: Event, id: nat)
    requires Enabled(s, e)
    ensures id in Next(env, s, e).completed <==> id in s.completed || (e.Done? && s.jobs[e.key].id == id)
  {
    if e.Work? { WorkHasEffect(env, s, e.key, e.fault); }
  }

  lemma CompletesSnoc(env: Env, files: Files, events: seq<Event>, id: nat)
    requires events != []
    ensures Completes(env, files, events, id)
       <==> Completes(env, files, events[..|events| - 1], id) || CompletedAt(env, files, events, |events| - 1, id)
  {
    var n := |events| - 1;
    forall m: nat | m < n
      ensures CompletedAt(env, files, events, m, id) <==> CompletedAt(env, files, events[..n], m, id)
    {
      SamePrefix(env, files, events, m, id);
    }
  }

  lemma SamePrefix(env: Env, files: Files, events: seq<Event>, m: nat, id: nat)
    requires m < |events| - 1
    ensures CompletedAt(env, files, events, m, id) <==> CompletedAt(env, files, events[..|events| - 1], m, id)
  {
    assert events[..|events| - 1][..m] == events[..m];
  }

  /** `completed` is what it says: a `Done` of that very ticket was taken in. */
  lemma {:induction false} CompletedExactly(env: Env, files: Files, events: seq<Event>, id: nat)
    requires Legal(env, files, events)
    ensures id in After(env, files, events).completed <==> Completes(env, files, events, id)
    decreases |events|
  {
    if events != [] {
      var n := |events| - 1;
      CompletedExactly(env, files, events[..n], id);
      StepCompletes(env, After(env, files, events[..n]), events[n], id);
      CompletesSnoc(env, files, events, id);
    }
  }

  /** Event `m` is the `Done` of ticket `id`. */
  ghost predicate CompletedAt(env: Env, files: Files, events: seq<Event>, m: nat, id: nat) {
    && m < |events| && events[m].Done? && Legal(env, files, events[..m])
    && var s := After(env, files, events[..m]); events[m].key in s.jobs && s.jobs[events[m].key].id == id
  }

  ghost predicate Completes(env: Env, files: Files, events: seq<Event>, id: nat) {
    exists m :: 0 <= m < |events| && CompletedAt(env, files, events, m, id)
  }

  // ------------------------------------------------------------- a run that tells it wrong

  lemma LegalSnoc(env: Env, files: Files, events: seq<Event>, e: Event)
    requires Legal(env, files, events) && Enabled(After(env, files, events), e)
    ensures Legal(env, files, events + [e])
    ensures After(env, files, events + [e]) == Next(env, After(env, files, events), e)
  {
    assert (events + [e])[..|events|] == events && (events + [e])[|events|] == e;
  }

  /** A stopped queue with one applier at work. */
  function Stopped(files: Files, t: Ticket, phase: Phase): State {
    State(files, map[], map[t.key := Job(0, t, phase)], map[], false, map[], {}, [t], [], [], map[])
  }

  lemma ShutdownLeavesApplier(files: Files, t: Ticket)
    ensures OnShutdown(OnSubmit(Start(files), t)) == Stopped(files, t, Begun)
  {
    var s := OnSubmit(Start(files), t);
    assert s.jobs[t.key].phase == Begun && Dropped(s) == {} && DroppedReads(s) == {};
    assert Reject(map[], {}, 1) == map[] && Close(map[], {}, 0) == map[];
  }

  lemma StoppedWork(env: Env, files: Files, t: Ticket)
    requires t.op == Replace && t.baseHash == None && env.resolve(t.key).Some?
    ensures var p := env.resolve(t.key).value;
            var held := files[env.temp(p) := t.payload];
            && OnWork(env, Stopped(files, t, Begun), t.key, NoFault) == Stopped(files, t, Planned(p, Put(t.payload), false))
            && OnWork(env, Stopped(files, t, Planned(p, Put(t.payload), false)), t.key, NoFault)
                 == Stopped(held, t, Written(p, t.payload, false))
            && OnWork(env, Stopped(held, t, Written(p, t.payload, false)), t.key, NoFault)
                 == Stopped(Move(held, env.temp(p), p), t, Finished(Applied)).(
                      verdicts := map[0 := Rejected], log := [Entry(0, t, NoFault, Applied)])
  {
  }

  /** One full write, a shutdown while it is in flight: the file is written, the waiter hears
      a rejection, and nothing on the path can happen any more. */
  lemma ShutdownTellsWrong(env: Env, files: Files, t: Ticket) returns (events: seq<Event>)
    requires t.op == Replace && t.baseHash == None && env.resolve(t.key).Some?
    ensures Legal(env, files, events)
    ensures var s := After(env, files, events);
            && s.log == [Entry(0, t, NoFault, Applied)] && s.verdicts == map[0 := Rejected]
            && Lookup(s.files, env.resolve(t.key).value) == Some(t.payload)
            && !Enabled(s, Done(t.key)) && forall fault :: !Enabled(s, Work(t.key, fault))
  {
    var work := Work(t.key, NoFault);
    ShutdownLeavesApplier(files, t);
    StoppedWork(env, files, t);
    LegalSnoc(env, files, [], Submit(t));
    LegalSnoc(env, files, [Submit(t)], Shutdown);
    var two := [Submit(t)] + [Shutdown];
    LegalSnoc(env, files, two, work);
    LegalSnoc(env, files, two + [work], work);
    LegalSnoc(env, files, two + [work] + [work], work);
    assert [] + [Submit(t)] == [Submit(t)];
    events := two + [work] + [work] + [work];
  }
}
