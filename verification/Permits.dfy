/** Provider permits (rolen-runtime/src/limit.rs:45-83) as a step system over any number of
    sessions and providers under one fixed non-zero cap, and the same steps on the counters
    in place. A migration (rolen-runtime/src/agent.rs:421-425) is a Release and then an Acquire. */
module Permits {

  /** Where a session is: without a permit, holding one, asleep in `cv.wait`, or notified
      but not yet back at the check. */
  datatype Phase = Idle | Holding(p: string) | Sleeping(p: string) | Woken(p: string)

  datatype State = State(phases: seq<Phase>, active: map<string, nat>)

  /** The sleeper that `notify_one` picks, if there is one. */
  datatype Wake = Nobody | Session(k: nat)

  datatype Event =
    | Acquire(k: nat, p: string)
    | Recheck(k: nat)
    | Release(k: nat, wake: Wake)
    | Spurious(k: nat)

  function Active(active: map<string, nat>, p: string): nat {
    if p in active then active[p] else 0
  }

  predicate Is(s: State, k: nat, ph: Phase) {
    k < |s.phases| && s.phases[k] == ph
  }

  predicate Enabled(s: State, e: Event) {
    match e
    case Acquire(k, _) => Is(s, k, Idle)
    case Recheck(k) => k < |s.phases| && s.phases[k].Woken?
    case Release(k, wake) => k < |s.phases| && s.phases[k].Holding? && Notifies(s, s.phases[k].p, wake)
    case Spurious(k) => k < |s.phases| && s.phases[k].Sleeping?
  }

  predicate Notifies(s: State, p: string, wake: Wake) {
    match wake
    case Nobody => forall j :: 0 <= j < |s.phases| ==> s.phases[j] != Sleeping(p)
    case Session(j) => Is(s, j, Sleeping(p))
  }

  /** The loop head of `acquire_with_cap`: take the permit or go to sleep. */
  function Check(cap: nat, s: State, k: nat, p: string): State
    requires k < |s.phases|
  {
    if Active(s.active, p) < cap then State(s.phases[k := Holding(p)], s.active[p := Active(s.active, p) + 1])
    else State(s.phases[k := Sleeping(p)], s.active)
  }

  function Next(cap: nat, s: State, e: Event): State
    requires Enabled(s, e)
  {
    match e
    case Acquire(k, p) => Check(cap, s, k, p)
    case Recheck(k) => Check(cap, s, k, s.phases[k].p)
    case Release(k, wake) =>
      var p := s.phases[k].p;
      var freed := s.active[p := if Active(s.active, p) > 0 then Active(s.active, p) - 1 else 0];
      var phases := s.phases[k := Idle];
      State(if wake.Session? then phases[wake.k := Woken(p)] else phases, freed)
    case Spurious(k) => s.(phases := s.phases[k := Woken(s.phases[k].p)])
  }

  // ------------------------------------------------------------- the invariant

  function At(phases: seq<Phase>, ph: Phase): set<nat> {
    set k: nat | k < |phases| && phases[k] == ph
  }

  ghost predicate SlotOk(cap: nat, s: State, p: string) {
    && Active(s.active, p) == |At(s.phases, Holding(p))| <= cap
    && (At(s.phases, Sleeping(p)) != {} ==> Active(s.active, p) + |At(s.phases, Woken(p))| >= cap)
  }

  ghost predicate Invariant(cap: nat, s: State) {
    forall p :: SlotOk(cap, s, p)
  }

  lemma AtChanged(phases: seq<Phase>, k: nat, to: Phase, ph: Phase)
    requires k < |phases|
    ensures At(phases[k := to], ph) == if ph == to then At(phases, ph) + {k} else At(phases, ph) - {k}
  {
    forall j: nat ensures j in At(phases[k := to], ph) <==> j < |phases| && (if j == k then to else phases[j]) == ph {
    }
  }

  lemma OneMoreOrLess(at: set<nat>, k: nat)
    ensures |at + {k}| == if k in at then |at| else |at| + 1
    ensures |at - {k}| == if k in at then |at| - 1 else |at|
  {
    if k in at { assert at + {k} == at; } else { assert at - {k} == at; }
  }

  lemma AtUpdate(phases: seq<Phase>, k: nat, to: Phase, ph: Phase)
    requires k < |phases|
    ensures At(phases[k := to], ph) == if ph == to then At(phases, ph) + {k} else At(phases, ph) - {k}
    ensures |At(phases[k := to], ph)| == |At(phases, ph)| + (if ph == to then 1 else 0) - (if ph == phases[k] then 1 else 0)
  {
    AtChanged(phases, k, to, ph);
    OneMoreOrLess(At(phases, ph), k);
    assert k in At(phases, ph) <==> ph == phases[k];
  }

  lemma CheckKeeps(cap: nat, s: State, k: nat, p: string, q: string)
    requires Invariant(cap, s) && k < |s.phases| && (s.phases[k] == Idle || s.phases[k] == Woken(p))
    ensures SlotOk(cap, Check(cap, s, k, p), q)
  {
    assert SlotOk(cap, s, q);
    var to := if Active(s.active, p) < cap then Holding(p) else Sleeping(p);
    AtUpdate(s.phases, k, to, Holding(q));
    AtUpdate(s.phases, k, to, Sleeping(q));
    AtUpdate(s.phases, k, to, Woken(q));
  }

  lemma ReleaseKeeps(cap: nat, s: State, k: nat, wake: Wake, q: string)
    requires Invariant(cap, s) && Enabled(s, Release(k, wake))
    ensures SlotOk(cap, Next(cap, s, Release(k, wake)), q)
  {
    assert SlotOk(cap, s, q);
    var p := s.phases[k].p;
    assert k in At(s.phases, Holding(p));
    AtUpdate(s.phases, k, Idle, Holding(q));
    AtUpdate(s.phases, k, Idle, Sleeping(q));
    AtUpdate(s.phases, k, Idle, Woken(q));
    var phases := s.phases[k := Idle];
    if wake.Session? {
      AtUpdate(phases, wake.k, Woken(p), Holding(q));
      AtUpdate(phases, wake.k, Woken(p), Sleeping(q));
      AtUpdate(phases, wake.k, Woken(p), Woken(q));
    } else {
      assert At(s.phases, Sleeping(p)) == {};
    }
  }

  lemma SpuriousKeeps(cap: nat, s: State, k: nat, q: string)
    requires Invariant(cap, s) && Enabled(s, Spurious(k))
    ensures SlotOk(cap, Next(cap, s, Spurious(k)), q)
  {
    assert SlotOk(cap, s, q);
    var to := Woken(s.phases[k].p);
    AtUpdate(s.phases, k, to, Holding(q));
    AtUpdate(s.phases, k, to, Sleeping(q));
    AtUpdate(s.phases, k, to, Woken(q));
  }

  lemma StepKeepsInvariant(cap: nat, s: State, e: Event)
    requires Invariant(cap, s) && Enabled(s, e)
    ensures Invariant(cap, Next(cap, s, e))
  {
    forall q ensures SlotOk(cap, Next(cap, s, e), q) {
      match e
      case Acquire(k, p) => CheckKeeps(cap, s, k, p, q);
      case Recheck(k) => CheckKeeps(cap, s, k, s.phases[k].p, q);
      case Release(k, wake) => ReleaseKeeps(cap, s, k, wake, q);
      case Spurious(k) => SpuriousKeeps(cap, s, k, q);
    }
  }

  // ------------------------------------------------------------- runs

  predicate Legal(cap: nat, s: State, run: seq<Event>)
    decreases run
  {
    run == [] || (Enabled(s, run[0]) && Legal(cap, Next(cap, s, run[0]), run[1..]))
  }

  function After(cap: nat, s: State, run: seq<Event>): State
    requires Legal(cap, s, run)
    decreases run
  {
    if run == [] then s else After(cap, Next(cap, s, run[0]), run[1..])
  }

  function Begin(n: nat): State {
    State(seq(n, _ => Idle), map[])
  }

  lemma BeginIsSound(n: nat, cap: nat)
    ensures Invariant(cap, Begin(n))
  {
    forall p ensures SlotOk(cap, Begin(n), p) {
      assert At(Begin(n).phases, Holding(p)) == {} && At(Begin(n).phases, Sleeping(p)) == {};
    }
  }

  lemma {:induction false} RunKeepsInvariant(cap: nat, s: State, run: seq<Event>)
    requires Invariant(cap, s) && Legal(cap, s, run)
    ensures Invariant(cap, After(cap, s, run)) && |After(cap, s, run).phases| == |s.phases|
    decreases run
  {
    if run != [] {
      StepKeepsInvariant(cap, s, run[0]);
      RunKeepsInvariant(cap, Next(cap, s, run[0]), run[1..]);
    }
  }

  /** In every reachable state each counter is the number of live permits, at most the cap;
      releasing a permit finds its counter above zero; and where a session sleeps, the cap is
      used up by holders and by sessions already notified. */
  lemma EveryRunCountsPermits(n: nat, cap: nat, run: seq<Event>, p: string)
    requires Legal(cap, Begin(n), run)
    ensures var s := After(cap, Begin(n), run);
      && Active(s.active, p) == |At(s.phases, Holding(p))| <= cap
      && (forall k :: Is(s, k, Holding(p)) ==> Active(s.active, p) > 0)
      && (forall k :: Is(s, k, Sleeping(p)) ==> Active(s.active, p) + |At(s.phases, Woken(p))| >= cap)
  {
    BeginIsSound(n, cap);
    RunKeepsInvariant(cap, Begin(n), run);
    var s := After(cap, Begin(n), run);
    assert SlotOk(cap, s, p);
    forall k: nat | Is(s, k, Holding(p)) ensures Active(s.active, p) > 0 { assert k in At(s.phases, Holding(p)); }
    forall k: nat | Is(s, k, Sleeping(p)) ensures At(s.phases, Sleeping(p)) != {} { assert k in At(s.phases, Sleeping(p)); }
  }

  // ------------------------------------------------------------- nobody waits in vain

  lemma Awake(cap: nat, s: State, k: nat, p: string) returns (j: nat)
    requires cap > 0 && SlotOk(cap, s, p) && Is(s, k, Sleeping(p))
    ensures Is(s, j, Holding(p)) || Is(s, j, Woken(p))
    ensures Active(s.active, p) > 0 ==> Is(s, j, Holding(p))
  {
    assert k in At(s.phases, Sleeping(p));
    if Active(s.active, p) > 0 {
      assert |At(s.phases, Holding(p))| > 0;
      j :| j in At(s.phases, Holding(p));
    } else {
      assert |At(s.phases, Woken(p))| > 0;
      j :| j in At(s.phases, Woken(p));
    }
  }

  /** Some session is always out of `wait`: sessions of any providers are never all asleep. */
  lemma NeverAllAsleep(n: nat, cap: nat, run: seq<Event>)
    requires n > 0 && cap > 0 && Legal(cap, Begin(n), run)
    ensures |After(cap, Begin(n), run).phases| == n
    ensures exists j :: 0 <= j < n && !After(cap, Begin(n), run).phases[j].Sleeping?
  {
    BeginIsSound(n, cap);
    RunKeepsInvariant(cap, Begin(n), run);
    var s := After(cap, Begin(n), run);
    if s.phases[0].Sleeping? {
      assert SlotOk(cap, s, s.phases[0].p);
      var j := Awake(cap, s, 0, s.phases[0].p);
      assert !s.phases[j].Sleeping?;
    }
  }

  /** No wake-up is lost: without any spurious one, a sleeper can still be served. */
  lemma SleeperCanBeServed(cap: nat, s: State, k: nat, p: string) returns (run: seq<Event>)
    requires cap > 0 && Invariant(cap, s) && Is(s, k, Sleeping(p))
    ensures Legal(cap, s, run) && Is(After(cap, s, run), k, Holding(p))
    ensures forall e :: e in run ==> !e.Spurious? && !e.Acquire?
  {
    assert SlotOk(cap, s, p);
    var j := Awake(cap, s, k, p);
    if Is(s, j, Holding(p)) {
      run := ServeAfter(cap, s, j, k, p);
    } else {
      var s1 := Next(cap, s, Recheck(j));
      StepKeepsInvariant(cap, s, Recheck(j));
      assert Is(s1, j, Holding(p)) && Is(s1, k, Sleeping(p));
      var rest := ServeAfter(cap, s1, j, k, p);
      run := [Recheck(j)] + rest;
      assert run[1..] == rest;
    }
  }

  /** A holder releases, the sleeper is notified and takes the place. */
  lemma ServeAfter(cap: nat, s: State, j: nat, k: nat, p: string) returns (run: seq<Event>)
    requires cap > 0 && Invariant(cap, s) && Is(s, j, Holding(p)) && Is(s, k, Sleeping(p))
    ensures Legal(cap, s, run) && Is(After(cap, s, run), k, Holding(p))
    ensures forall e :: e in run ==> !e.Spurious? && !e.Acquire?
  {
    assert SlotOk(cap, s, p) && j in At(s.phases, Holding(p));
    var s1 := Next(cap, s, Release(j, Session(k)));
    assert Is(s1, k, Woken(p)) && Active(s1.active, p) < cap;
    run := [Release(j, Session(k)), Recheck(k)];
    var s2 := Next(cap, s1, Recheck(k));
    assert Is(s2, k, Holding(p));
    assert run[1..] == [Recheck(k)] && run[1..][1..] == [];
    assert After(cap, s1, run[1..]) == After(cap, s2, []);
  }

  // ------------------------------------------------------------- in place

  class Limiter {
    const cap: nat
    var active: map<string, nat>
    var phases: seq<Phase>

    constructor (n: nat, cap: nat)
      ensures this.cap == cap && View() == Begin(n)
    {
      this.cap := cap;
      active := map[];
      phases := seq(n, _ => Idle);
    }

    function View(): State
      reads this
    {
      State(phases, active)
    }

    /** The critical section of `acquire_with_cap` up to its return or its wait. */
    method TryAcquire(k: nat, p: string) returns (got: bool)
      requires Enabled(View(), Acquire(k, p)) || (Enabled(View(), Recheck(k)) && phases[k].p == p)
      modifies this
      ensures View() == Check(cap, old(View()), k, p)
      ensures got <==> phases[k] == Holding(p)
    {
      if Active(active, p) >= cap {
        phases := phases[k := Sleeping(p)];
        return false;
      }
      active := active[p := Active(active, p) + 1];
      phases := phases[k := Holding(p)];
      got := true;
    }

    /** `Drop`: the saturating decrement, then `notify_one`. */
    method Drop(k: nat, wake: Wake)
      requires Enabled(View(), Release(k, wake))
      modifies this
      ensures View() == Next(cap, old(View()), Release(k, wake))
    {
      var p := phases[k].p;
      var count := Active(active, p);
      active := active[p := if count > 0 then count - 1 else 0];
      phases := phases[k := Idle];
      if wake.Session? { phases := phases[wake.k := Woken(p)]; }
    }
  }
}
