/** Reads through the queue see earlier writes, and writes never overwrite a version their
    author has not seen. */
module QueueReads {
  import opened Text
  import opened Tickets
  import opened QueueSpec
  import opened QueueOrder
  import opened QueueWaiters
  import opened QueueFiles
  import opened QueueTheorems
  import opened TicketEffects
  import P = Patch

  /** The answer is the workspace at a moment when exactly the path's tickets that had
      arrived were logged, none of the earlier ones missing. */
  ghost predicate AnswerSound(env: Env, files: Files, s: State, rid: nat) {
    rid in s.answers && rid < |s.requests| && s.answers[rid].Answer? ==>
      var a, r := s.answers[rid], s.requests[rid];
      && r.after <= a.arrivals <= |s.arrived| && a.logged <= |s.log|
      && a.content == ReadFile(env, Replay(env, files, s.log[..a.logged]), r.key)
      && Ids(Of(s.log[..a.logged], r.key)) == ArrivedIds(s.arrived[..a.arrivals], r.key)
  }

  ghost predicate RequestsTimed(s: State) {
    forall r :: 0 <= r < |s.requests| ==> s.requests[r].after <= |s.arrived|
  }

  ghost predicate ReadsSound(env: Env, files: Files, s: State) {
    RequestsTimed(s) && forall rid: nat :: AnswerSound(env, files, s, rid)
  }

  /** Older answers stay sound as the run goes on. */
  lemma OldAnswer(env: Env, files: Files, s: State, s': State, rid: nat)
    requires AnswerSound(env, files, s, rid) && AnswersAsked(s)
    requires s.log <= s'.log && s.arrived <= s'.arrived && s.requests <= s'.requests
    requires rid in s.answers && rid in s'.answers && s'.answers[rid] == s.answers[rid]
    requires s.answers[rid].Answer?
    ensures AnswerSound(env, files, s', rid)
  {
    var a := s.answers[rid];
    assert s'.log[..a.logged] == s.log[..a.logged] && s'.arrived[..a.arrivals] == s.arrived[..a.arrivals];
  }

  /** No applier holds a temp file where a read under another key looks. */
  lemma ReadPathKept(env: Env, files: Files, s: State, rid: nat, p: Path)
    requires Invariant(s) && Replays(env, files, s) && ReadsIndependent(env, s)
    requires rid < |s.requests| && s.requests[rid].key !in s.jobs && env.resolve(s.requests[rid].key) == Some(p)
    ensures Lookup(s.files, p) == Lookup(Replay(env, files, s.log), p)
  {
    assert FileKept(env, files, s, p);
    forall k ensures !HoldsTemp(env, s, k, p) {
      assert LaneKept(s, k) && JobReady(env, files, s, k);
      if HoldsTemp(env, s, k, p) {
        TempInFootprint(env, files, s, k, p);
      }
    }
  }

  lemma NewAnswer(env: Env, files: Files, s: State, rid: nat)
    requires Invariant(s) && Replays(env, files, s) && ReadsIndependent(env, s) && RequestsTimed(s)
    requires rid < |s.requests| && s.requests[rid].key !in s.jobs
    requires rid in s.answers && s.answers[rid] == AnswerNow(env, s, s.requests[rid].key)
    ensures AnswerSound(env, files, s, rid)
  {
    var key := s.requests[rid].key;
    assert LaneKept(s, key);
    assert InProgress(s, key) == [] && QueuedIds(Backlog(s, key)) == [];
    assert Ids(Of(s.log, key)) + ([] + []) == Ids(Of(s.log, key));
    assert s.log[..|s.log|] == s.log && s.arrived[..|s.arrived|] == s.arrived;
    if env.resolve(key).Some? { ReadPathKept(env, files, s, rid, env.resolve(key).value); }
  }

  /** Where an answer of the next state comes from: an older one, which stays; one taken just
      now for a key that is not in flight; or a shutdown that closes the reader's channel. */
  ghost predicate AnswerComes(env: Env, s: State, s': State, rid: nat) {
    && rid in s'.answers
    && (rid in s.answers ==> s'.answers[rid] == s.answers[rid])
    && (rid !in s.answers ==>
          && (s'.answers[rid].Closed? ==> s.running && !s'.running)
          && (s'.answers[rid].Answer? ==>
                rid < |s'.requests| && s'.requests[rid].key !in s'.jobs
                && s'.answers[rid] == AnswerNow(env, s', s'.requests[rid].key)))
  }

  lemma DoneAnswers(env: Env, s: State, key: string, rid: nat)
    requires LaneKept(s, key) && StillDeferred(s, key) && s.running
    requires key in s.jobs && s.jobs[key].phase.Finished? && rid in OnDone(env, s, key).answers
    ensures AnswerComes(env, s, OnDone(env, s, key), rid)
  {
    if Backlog(s, key) == [] && rid in Waiting(s, key) {
      var i :| 0 <= i < |Waiting(s, key)| && Waiting(s, key)[i] == rid;
      assert s.requests[rid].key == key;
    }
  }

  lemma ReadAnswers(env: Env, s: State, key: string, rid: nat)
    requires LaneKept(s, key) && AnswersAsked(s) && rid in OnRead(env, s, key).answers
    ensures AnswerComes(env, s, OnRead(env, s, key), rid)
  {
    var s' := OnRead(env, s, key);
    if key in s.jobs || key in s.inbox {
      assert s'.answers == s.answers;
    } else {
      assert s'.requests[|s.requests|].key == key && s'.jobs == s.jobs;
      assert AnswerNow(env, s', key) == AnswerNow(env, s, key);
    }
  }

  lemma ShutdownAnswersOnce(env: Env, s: State, rid: nat)
    requires s.running && rid in OnShutdown(s).answers && forall k :: StillDeferred(s, k)
    ensures AnswerComes(env, s, OnShutdown(s), rid)
  {
    if rid in DroppedReads(s) {
      var k, i :| k in s.pendingReads && 0 <= i < |s.pendingReads[k]| && s.pendingReads[k][i] == rid;
      assert StillDeferred(s, k) && Waiting(s, k)[i] == rid;
    }
  }

  /** An answer once given stays, and a new one comes from where it should. */
  lemma StepAnswers(env: Env, s: State, e: Event, rid: nat)
    requires Invariant(s) && WaitersKept(s) && Enabled(s, e) && rid in Next(env, s, e).answers
    ensures AnswerComes(env, s, Next(env, s, e), rid)
  {
    match e
    case Submit(_) =>
    case Shutdown => ShutdownAnswersOnce(env, s, rid);
    case Work(key, fault) => WorkHasEffect(env, s, key, fault);
    case Read(key) =>
      assert LaneKept(s, key);
      ReadAnswers(env, s, key, rid);
    case Done(key) =>
      assert LaneKept(s, key) && StillDeferred(s, key);
      DoneAnswers(env, s, key, rid);
  }

  lemma StepTimed(env: Env, s: State, e: Event)
    requires RequestsTimed(s) && Enabled(s, e)
    ensures RequestsTimed(Next(env, s, e))
  {
    if e.Work? { WorkHasEffect(env, s, e.key, e.fault); }
  }

  lemma ReadsIndependentEarlier(env: Env, s: State, s': State)
    requires ReadsIndependent(env, s') && s.arrived <= s'.arrived && s.requests <= s'.requests
    ensures ReadsIndependent(env, s)
  {
    forall r, i | 0 <= r < |s.requests| && 0 <= i < |s.arrived| && s.requests[r].key != s.arrived[i].key
      && env.resolve(s.requests[r].key).Some?
      ensures env.resolve(s.requests[r].key).value !in Footprint(env, s.arrived[i])
    {
      assert s'.requests[r] == s.requests[r] && s'.arrived[i] == s.arrived[i];
    }
  }

  lemma {:induction false} EveryReadSound(env: Env, files: Files, events: seq<Event>)
    requires Legal(env, files, events)
    requires var s := After(env, files, events); Independent(env, s.arrived) && ReadsIndependent(env, s)
    ensures ReadsSound(env, files, After(env, files, events))
    decreases |events|
  {
    if events != [] {
      var n := |events| - 1;
      var s, s' := After(env, files, events[..n]), After(env, files, events);
      ArrivedGrows(env, s, events[n]);
      IndependentPrefix(env, s.arrived, s'.arrived);
      ReadsIndependentEarlier(env, s, s');
      EveryReadSound(env, files, events[..n]);
      EveryRunKeepsOrder(env, files, events[..n]);
      EveryRunKeepsWaiters(env, files, events[..n]);
      EveryRunKeepsOrder(env, files, events);
      EveryRunReplays(env, files, events);
      StepTimed(env, s, events[n]);
      forall rid: nat ensures AnswerSound(env, files, s', rid) {
        if rid in s'.answers && rid < |s'.requests| && s'.answers[rid].Answer? {
          StepAnswers(env, s, events[n], rid);
          if rid in s.answers { OldAnswer(env, files, s, s', rid); } else { NewAnswer(env, files, s', rid); }
        }
      }
    }
  }

  /** Read your writes: a read is answered with what its path's own tickets, up to some
      moment not before the read was asked, make of the initial workspace. Only a shutdown
      leaves it without content. */
  lemma ReadYourWrites(env: Env, files: Files, events: seq<Event>, rid: nat)
    requires Legal(env, files, events)
    requires var s := After(env, files, events);
             Independent(env, s.arrived) && ReadsIndependent(env, s) && rid in s.answers
    ensures var s := After(env, files, events);
            rid < |s.requests| && (s.answers[rid].Closed? ==> !s.running)
    ensures After(env, files, events).answers[rid].Answer? ==> SeesOwnWrites(env, files, After(env, files, events), rid)
  {
    var s := After(env, files, events);
    EveryRunKeepsOrder(env, files, events);
    EveryRunKeepsWaiters(env, files, events);
    EveryReadSound(env, files, events);
    assert AnswerSound(env, files, s, rid);
    if s.answers[rid].Answer? { SoundSeesOwn(env, files, s, rid); }
  }

  ghost predicate SeesOwnWrites(env: Env, files: Files, s: State, rid: nat)
    requires rid < |s.requests| && rid in s.answers && s.answers[rid].Answer?
  {
    var a, r := s.answers[rid], s.requests[rid];
    && r.after <= a.arrivals <= |s.arrived| && a.logged <= |s.log|
    && var mine := Of(s.log[..a.logged], r.key);
    && Ids(mine) == ArrivedIds(s.arrived[..a.arrivals], r.key)
    && a.content == ReadFile(env, Replay(env, files, mine), r.key)
  }

  lemma SoundSeesOwn(env: Env, files: Files, s: State, rid: nat)
    requires Invariant(s) && Independent(env, s.arrived) && ReadsIndependent(env, s)
    requires rid in s.answers && rid < |s.requests| && s.answers[rid].Answer? && AnswerSound(env, files, s, rid)
    ensures SeesOwnWrites(env, files, s, rid)
  {
    var a, r := s.answers[rid], s.requests[rid];
    var seen := s.log[..a.logged];
    LogFromArrived(s, a.logged);
    if env.resolve(r.key).Some? {
      var p := env.resolve(r.key).value;
      forall i | 0 <= i < |seen| && seen[i].ticket.key != r.key ensures p !in Footprint(env, seen[i].ticket) {
        assert s.arrived[seen[i].id] == seen[i].ticket;
      }
      ReplayProjects(env, files, s.arrived, seen, r.key, p);
    }
  }

  lemma LogFromArrived(s: State, n: nat)
    requires Invariant(s) && n <= |s.log|
    ensures FromArrived(s.arrived, s.log[..n])
  {
    forall i | 0 <= i < n
      ensures s.log[..n][i].id < |s.arrived| && s.arrived[s.log[..n][i].id] == s.log[..n][i].ticket
    {
      assert Genuine(s.arrived, s.log[i].ticket.key, s.log[i].id, s.log[i].ticket);
    }
  }

  // ------------------------------------------------------------- the last change is read

  /** What an applied ticket makes of the content `before` of its path: a full write leaves its
      payload, a patch the patched text, a delete or a rename to another path nothing. */
  ghost predicate Made(env: Env, e: Entry, p: Path, before: Option<Content>, after: Option<Content>) {
    match e.ticket.op
    case Create => after == Some(e.ticket.payload)
    case Replace => after == Some(e.ticket.payload)
    case Delete => after == None
    case Rename => after == if env.resolve(e.ticket.payload) == Some(p) then before else None
    case Patch =>
      var start := if e.fault.ReadFails? || before.None? then "" else before.value;
      after.Some? && P.ApplyPatch(start, e.ticket.payload) == P.Patched(after.value)
  }

  lemma AppliedMakes(env: Env, x: Files, e: Entry, p: Path)
    requires env.resolve(e.ticket.key) == Some(p) && ApplyTicket(env, x, e.ticket, e.fault).1 == Applied
    ensures Made(env, e, p, Lookup(x, p), Lookup(ApplyTicket(env, x, e.ticket, e.fault).0, p))
  {
    match e.ticket.op
    case Create => FullWriteExactly(env, x, e.ticket, e.fault, p);
    case Replace => FullWriteExactly(env, x, e.ticket, e.fault, p);
    case Delete => DeleteExactly(env, x, e.ticket, e.fault, p);
    case Rename => RenameExactly(env, x, e.ticket, e.fault, p);
    case Patch => PatchExactly(env, x, e.ticket, e.fault, p);
  }

  ghost predicate Grounded(env: Env, files: Files, arrived: seq<Ticket>, log: seq<Entry>) {
    Independent(env, arrived) && InArrivalOrder(arrived, log) && VerdictsReplay(env, files, log)
  }

  /** Entry `j` of a key comes, in the whole log, after the key's entries before it. */
  lemma PlaceOf(arrived: seq<Ticket>, log: seq<Entry>, key: string, j: nat) returns (i: nat)
    requires InArrivalOrder(arrived, log) && j < |Of(log, key)|
    ensures i < |log| && log[i] == Of(log, key)[j] && log[i].ticket.key == key
    ensures Of(log[..i], key) == Of(log, key)[..j]
  {
    var mine := Of(log, key);
    i := PositionOf(log, mine[j]);
    PlaceInKey(log, i, key);
    assert mine[..j] + [mine[j]] <= mine;
    ArrivedIdsAscend(arrived, key);
    assert Ids(mine) <= ArrivedIds(arrived, key);
    assert NoDuplicates(Ids(mine)) by {
      assert forall x :: 0 <= x < |mine| ==> Ids(mine)[x] == ArrivedIds(arrived, key)[x];
    }
    SamePlace(Of(log[..i], key), mine[..j], mine, mine[j]);
  }

  lemma ProjectedEntry(env: Env, files: Files, arrived: seq<Ticket>, log: seq<Entry>, i: nat)
    requires Grounded(env, files, arrived, log) && i < |log|
    ensures var e := log[i];
            e.verdict == ApplyTicket(env, Replay(env, files, Of(log[..i], e.ticket.key)), e.ticket, e.fault).1
  {
    var e, mine := log[i], Of(log[..i], log[i].ticket.key);
    FromPrefix(arrived, log, i);
    EntryProjects(env, files, arrived, log[..i], e);
    DependsOnFootprintOnly(env, Replay(env, files, log[..i]), Replay(env, files, mine), e.ticket, e.fault);
  }

  /** A key's entries have, among themselves, the verdicts they have in the whole log. */
  lemma ProjectedVerdicts(env: Env, files: Files, arrived: seq<Ticket>, log: seq<Entry>, key: string)
    requires Grounded(env, files, arrived, log)
    ensures VerdictsReplay(env, files, Of(log, key))
  {
    var mine := Of(log, key);
    forall j | 0 <= j < |mine|
      ensures mine[j].verdict == ApplyTicket(env, Replay(env, files, mine[..j]), mine[j].ticket, mine[j].fault).1
    {
      var i := PlaceOf(arrived, log, key, j);
      ProjectedEntry(env, files, arrived, log, i);
    }
  }

  lemma VerdictsPrefix(env: Env, files: Files, log: seq<Entry>)
    requires VerdictsReplay(env, files, log) && log != []
    ensures VerdictsReplay(env, files, log[..|log| - 1])
    ensures log[|log| - 1].verdict
         == ApplyTicket(env, Replay(env, files, log[..|log| - 1]), log[|log| - 1].ticket, log[|log| - 1].fault).1
  {
    var init := log[..|log| - 1];
    forall i | 0 <= i < |init|
      ensures init[i].verdict == ApplyTicket(env, Replay(env, files, init[..i]), init[i].ticket, init[i].fault).1
    {
      assert init[..i] == log[..i];
    }
  }

  /** The last applied entry is number `i`. */
  predicate LastApplied(mine: seq<Entry>, i: nat) {
    && i < |mine| && mine[i].verdict == Applied
    && forall j :: i < j < |mine| ==> mine[j].verdict == Rejected
  }

  /** Rejected tickets leave the path alone: it is not its own temp file, or nothing failed
      after their checks. */
  predicate RejectsHarmless(env: Env, mine: seq<Entry>, i: nat, p: Path) {
    env.temp(p) != p || forall j :: i < j < |mine| ==> Later(mine[j].fault) == NoFault
  }

  lemma RejectedStep(env: Env, files: Files, init: seq<Entry>, e: Entry, p: Path)
    requires VerdictsReplay(env, files, init + [e]) && e.verdict == Rejected
    requires env.resolve(e.ticket.key) == Some(p) && (env.temp(p) != p || Later(e.fault) == NoFault)
    ensures VerdictsReplay(env, files, init)
    ensures Lookup(Replay(env, files, init + [e]), p) == Lookup(Replay(env, files, init), p)
  {
    VerdictsPrefix(env, files, init + [e]);
    assert (init + [e])[..|init|] == init;
    ReplaySnoc(env, files, init, e);
    RejectedChangesNothing(env, Replay(env, files, init), e.ticket, e.fault, p);
  }

  lemma AppliedStep(env: Env, files: Files, init: seq<Entry>, e: Entry, p: Path)
    requires VerdictsReplay(env, files, init + [e]) && e.verdict == Applied && env.resolve(e.ticket.key) == Some(p)
    ensures Made(env, e, p, Lookup(Replay(env, files, init), p), Lookup(Replay(env, files, init + [e]), p))
  {
    VerdictsPrefix(env, files, init + [e]);
    assert (init + [e])[..|init|] == init;
    ReplaySnoc(env, files, init, e);
    AppliedMakes(env, Replay(env, files, init), e, p);
  }

  /** The rejected entries `rest` leave the path as it was after `init`. */
  lemma {:induction false} RejectedStand(env: Env, files: Files, init: seq<Entry>, rest: seq<Entry>, p: Path)
    requires VerdictsReplay(env, files, init + rest)
    requires forall j :: 0 <= j < |rest| ==> rest[j].verdict == Rejected && env.resolve(rest[j].ticket.key) == Some(p)
    requires forall j :: 0 <= j < |rest| ==> env.temp(p) != p || Later(rest[j].fault) == NoFault
    ensures VerdictsReplay(env, files, init)
    ensures Lookup(Replay(env, files, init + rest), p) == Lookup(Replay(env, files, init), p)
    decreases |rest|
  {
    if rest == [] {
      assert init + rest == init;
    } else {
      var shorter, e := rest[..|rest| - 1], rest[|rest| - 1];
      assert init + rest == (init + shorter) + [e];
      RejectedStep(env, files, init + shorter, e, p);
      RejectedStand(env, files, init, shorter, p);
    }
  }

  lemma {:induction false} LastChangeStands(env: Env, files: Files, init: seq<Entry>, e: Entry, rest: seq<Entry>, p: Path)
    requires VerdictsReplay(env, files, (init + [e]) + rest) && e.verdict == Applied
    requires env.resolve(e.ticket.key) == Some(p)
    requires forall j :: 0 <= j < |rest| ==> rest[j].verdict == Rejected && env.resolve(rest[j].ticket.key) == Some(p)
    requires forall j :: 0 <= j < |rest| ==> env.temp(p) != p || Later(rest[j].fault) == NoFault
    ensures Made(env, e, p, Lookup(Replay(env, files, init), p), Lookup(Replay(env, files, (init + [e]) + rest), p))
  {
    RejectedStand(env, files, init + [e], rest, p);
    AppliedStep(env, files, init, e, p);
  }

  lemma SplitAt(mine: seq<Entry>, i: nat)
    requires i < |mine|
    ensures mine == (mine[..i] + [mine[i]]) + mine[i + 1..]
  {
  }

  lemma {:induction false} LastChangeOf(env: Env, files: Files, mine: seq<Entry>, i: nat, key: string, p: Path)
    requires VerdictsReplay(env, files, mine) && LastApplied(mine, i) && RejectsHarmless(env, mine, i, p)
    requires env.resolve(key) == Some(p) && forall j :: 0 <= j < |mine| ==> mine[j].ticket.key == key
    ensures Made(env, mine[i], p, Lookup(Replay(env, files, mine[..i]), p), Lookup(Replay(env, files, mine), p))
  {
    var init, e, rest := mine[..i], mine[i], mine[i + 1..];
    SplitAt(mine, i);
    forall j | 0 <= j < |rest|
      ensures rest[j].verdict == Rejected && rest[j].ticket.key == key
      ensures env.temp(p) != p || Later(rest[j].fault) == NoFault
    {
      assert rest[j] == mine[i + 1 + j];
    }
    LastChangeStands(env, files, init, e, rest, p);
  }

  /** The entries of the read's path that were logged when its answer was taken. */
  ghost function SeenOwn(s: State, rid: nat): seq<Entry>
    requires rid < |s.requests| && rid in s.answers && s.answers[rid].Answer? && s.answers[rid].logged <= |s.log|
  {
    Of(s.log[..s.answers[rid].logged], s.requests[rid].key)
  }

  /** The read was answered, and entry `i` is the last change its answer can show. */
  ghost predicate LastSeen(env: Env, s: State, rid: nat, i: nat) {
    && rid < |s.requests| && rid in s.answers && s.answers[rid].Answer? && s.answers[rid].logged <= |s.log|
    && LastApplied(SeenOwn(s, rid), i) && env.resolve(s.requests[rid].key).Some?
    && RejectsHarmless(env, SeenOwn(s, rid), i, env.resolve(s.requests[rid].key).value)
  }

  /** The read shows what its entry `i` made of what the path's earlier tickets left. */
  ghost predicate Shows(env: Env, files: Files, s: State, rid: nat, i: nat)
    requires LastSeen(env, s, rid, i)
  {
    var mine, p := SeenOwn(s, rid), env.resolve(s.requests[rid].key).value;
    Made(env, mine[i], p, Lookup(Replay(env, files, mine[..i]), p), s.answers[rid].content)
  }

  /** What the last applied ticket of a path made of it is what an answered read of it returns,
      whatever was rejected since. */
  lemma LastChangeIsRead(env: Env, files: Files, events: seq<Event>, rid: nat, i: nat)
    requires Legal(env, files, events) && LastSeen(env, After(env, files, events), rid, i)
    requires var s := After(env, files, events); Independent(env, s.arrived) && ReadsIndependent(env, s)
    ensures Shows(env, files, After(env, files, events), rid, i)
  {
    EveryRunKeepsOrder(env, files, events);
    EveryRunReplays(env, files, events);
    ReadYourWrites(env, files, events, rid);
    ReadsLastChange(env, files, After(env, files, events), rid, i);
  }

  lemma EarlierVerdicts(env: Env, files: Files, seen: seq<Entry>, all: seq<Entry>)
    requires VerdictsReplay(env, files, all) && seen <= all
    ensures VerdictsReplay(env, files, seen)
  {
    forall i | 0 <= i < |seen|
      ensures seen[i].verdict == ApplyTicket(env, Replay(env, files, seen[..i]), seen[i].ticket, seen[i].fault).1
    {
      assert seen[..i] == all[..i];
    }
  }

  lemma {:induction false} ReadsLastChange(env: Env, files: Files, s: State, rid: nat, i: nat)
    requires Invariant(s) && Replays(env, files, s) && Independent(env, s.arrived)
    requires LastSeen(env, s, rid, i) && SeesOwnWrites(env, files, s, rid)
    ensures Shows(env, files, s, rid, i)
  {
    var key, mine := s.requests[rid].key, SeenOwn(s, rid);
    LogInArrivalOrder(s);
    ProjectedVerdicts(env, files, s.arrived, s.log, key);
    OfPrefix(s.log, s.answers[rid].logged, key);
    EarlierVerdicts(env, files, mine, Of(s.log, key));
    LastChangeOf(env, files, mine, i, key, env.resolve(key).value);
  }

  // ------------------------------------------------------------- lost updates

  ghost predicate CollisionFree(env: Env) {
    forall x, y :: env.hash(x) == env.hash(y) ==> x == y
  }

  /** No lost updates: a ticket that names the version it is based on is applied only on
      top of that version, as its path's earlier tickets left it. */
  lemma NoLostUpdate(env: Env, files: Files, events: seq<Event>, i: nat)
    requires Legal(env, files, events) && Independent(env, After(env, files, events).arrived)
    requires var log := After(env, files, events).log;
             && i < |log| && log[i].verdict == Applied
             && log[i].ticket.op != Patch && log[i].ticket.baseHash.Some?
    ensures var log := After(env, files, events).log;
            var t := log[i].ticket;
            && env.resolve(t.key).Some?
            && var base := Lookup(Replay(env, files, Of(log[..i], t.key)), env.resolve(t.key).value);
            && base.Some? && env.hash(base.value) == t.baseHash.value
            && forall seen :: CollisionFree(env) && env.hash(seen) == t.baseHash.value ==> base == Some(seen)
  {
    EveryRunKeepsOrder(env, files, events);
    EveryRunReplays(env, files, events);
    LoggedOnBase(env, files, After(env, files, events), i);
  }

  lemma LoggedAgrees(env: Env, files: Files, s: State, i: nat)
    requires Invariant(s) && Independent(env, s.arrived) && i < |s.log|
    ensures var t := s.log[i].ticket;
            Agree(Replay(env, files, s.log[..i]), Replay(env, files, Of(s.log[..i], t.key)), Footprint(env, t))
  {
    LogFromArrived(s, i + 1);
    assert s.log[..i + 1] == s.log[..i] + [s.log[i]];
    EntryProjects(env, files, s.arrived, s.log[..i], s.log[i]);
  }

  lemma LoggedOnBase(env: Env, files: Files, s: State, i: nat)
    requires Invariant(s) && Replays(env, files, s) && Independent(env, s.arrived) && i < |s.log|
    requires s.log[i].verdict == Applied && s.log[i].ticket.op != Patch && s.log[i].ticket.baseHash.Some?
    ensures var t := s.log[i].ticket;
            && env.resolve(t.key).Some?
            && var base := Lookup(Replay(env, files, Of(s.log[..i], t.key)), env.resolve(t.key).value);
            && base.Some? && env.hash(base.value) == t.baseHash.value
  {
    var e := s.log[i];
    LoggedAgrees(env, files, s, i);
    AppliedOnBase(env, Replay(env, files, s.log[..i]), Replay(env, files, Of(s.log[..i], e.ticket.key)), e.ticket, e.fault);
  }

  /** A ticket applied to `x` named the version that `y`, equal on its footprint, holds. */
  lemma AppliedOnBase(env: Env, x: Files, y: Files, t: Ticket, fault: Fault)
    requires ApplyTicket(env, x, t, fault).1 == Applied && t.op != Patch && t.baseHash.Some?
    requires Agree(x, y, Footprint(env, t))
    ensures env.resolve(t.key).Some?
    ensures var base := Lookup(y, env.resolve(t.key).value); base.Some? && env.hash(base.value) == t.baseHash.value
  {
    assert env.resolve(t.key).value in Footprint(env, t);
  }
}
