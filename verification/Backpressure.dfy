/** The queue's backpressure (rolen-orchestrator/src/queue.rs:65-83, 110-114): submitters
    check `depth` and count it up in two separate steps. */
module Backpressure {

  /** `depth`, and the submitters that have passed the check but not counted yet. */
  datatype State = State(depth: nat, passed: set<nat>)

  datatype Event = Pass(k: nat) | CountUp(k: nat) | WaitDone

  const Empty := State(0, {})

  predicate Enabled(n: nat, cap: nat, s: State, e: Event) {
    match e
    case Pass(k) => k < n && k !in s.passed && (cap == 0 || s.depth < cap)
    case CountUp(k) => k in s.passed
    case WaitDone => s.depth > 0
  }

  function Next(n: nat, cap: nat, s: State, e: Event): State
    requires Enabled(n, cap, s, e)
  {
    match e
    case Pass(k) => s.(passed := s.passed + {k})
    case CountUp(k) => State(s.depth + 1, s.passed - {k})
    case WaitDone => s.(depth := s.depth - 1)
  }

  predicate Legal(n: nat, cap: nat, s: State, run: seq<Event>)
    decreases run
  {
    run == [] || (Enabled(n, cap, s, run[0]) && Legal(n, cap, Next(n, cap, s, run[0]), run[1..]))
  }

  function After(n: nat, cap: nat, s: State, run: seq<Event>): State
    requires Legal(n, cap, s, run)
    decreases run
  {
    if run == [] then s else After(n, cap, Next(n, cap, s, run[0]), run[1..])
  }

  ghost predicate Reachable(n: nat, cap: nat, s: State) {
    exists run :: Legal(n, cap, Empty, run) && After(n, cap, Empty, run) == s
  }

  // ------------------------------------------------------------- the bound

  predicate Bounded(n: nat, cap: nat, s: State) {
    (forall k :: k in s.passed ==> k < n) && s.depth + |s.passed| <= cap - 1 + n
  }

  lemma {:induction false} FewBelow(n: nat, s: set<nat>)
    requires forall k :: k in s ==> k < n
    ensures |s| <= n
  {
    if n > 0 { FewBelow(n - 1, s - {n - 1}); }
  }

  lemma {:induction false} RunIsBounded(n: nat, cap: nat, s: State, run: seq<Event>)
    requires cap > 0 && Bounded(n, cap, s) && Legal(n, cap, s, run)
    ensures Bounded(n, cap, After(n, cap, s, run))
    decreases run
  {
    if run != [] {
      var s' := Next(n, cap, s, run[0]);
      FewBelow(n, s'.passed);
      RunIsBounded(n, cap, s', run[1..]);
    }
  }

  // ------------------------------------------------------------- the bound is met

  lemma {:induction false} RunOn(n: nat, cap: nat, s: State, run: seq<Event>, e: Event)
    requires Legal(n, cap, s, run) && Enabled(n, cap, After(n, cap, s, run), e)
    ensures Legal(n, cap, s, run + [e]) && After(n, cap, s, run + [e]) == Next(n, cap, After(n, cap, s, run), e)
    decreases run
  {
    if run == [] {
      assert [e][1..] == [];
      assert Legal(n, cap, Next(n, cap, s, e), [e][1..]);
    } else {
      assert (run + [e])[1..] == run[1..] + [e];
      RunOn(n, cap, Next(n, cap, s, run[0]), run[1..], e);
    }
  }

  lemma Extend(n: nat, cap: nat, s: State, e: Event)
    requires Reachable(n, cap, s) && Enabled(n, cap, s, e)
    ensures Reachable(n, cap, Next(n, cap, s, e))
  {
    var run :| Legal(n, cap, Empty, run) && After(n, cap, Empty, run) == s;
    RunOn(n, cap, Empty, run, e);
    assert After(n, cap, Empty, run + [e]) == Next(n, cap, s, e);
  }

  lemma {:induction false} FillUp(n: nat, cap: nat, d: nat)
    requires n > 0 && d <= cap
    ensures Reachable(n, cap, State(d, {}))
  {
    if d == 0 {
      assert Legal(n, cap, Empty, []) && After(n, cap, Empty, []) == State(0, {});
    } else {
      FillUp(n, cap, d - 1);
      Extend(n, cap, State(d - 1, {}), Pass(0));
      Extend(n, cap, State(d - 1, {0}), CountUp(0));
      assert State(d - 1, {} + {0}) == State(d - 1, {0}) && State(d, {0} - {0}) == State(d, {});
    }
  }

  function Below(m: nat): (r: set<nat>)
    ensures forall k: nat :: k in r <==> k < m
  {
    if m == 0 then {} else Below(m - 1) + {m - 1}
  }

  /** With one place left, `m` submitters pass the check before any of them counts. */
  lemma {:induction false} AllPass(n: nat, cap: nat, m: nat)
    requires n > 0 && cap > 0 && m <= n
    ensures Reachable(n, cap, State(cap - 1, Below(m)))
  {
    if m == 0 {
      FillUp(n, cap, cap - 1);
      assert Below(0) == {};
    } else {
      AllPass(n, cap, m - 1);
      Extend(n, cap, State(cap - 1, Below(m - 1)), Pass(m - 1));
      assert Below(m) == Below(m - 1) + {m - 1};
    }
  }

  lemma {:induction false} AllCount(n: nat, cap: nat, m: nat)
    requires n > 0 && cap > 0 && m <= n
    ensures Reachable(n, cap, State(cap - 1 + n - m, Below(m)))
    decreases n - m
  {
    if m == n {
      AllPass(n, cap, n);
    } else {
      AllCount(n, cap, m + 1);
      Extend(n, cap, State(cap - 1 + n - (m + 1), Below(m + 1)), CountUp(m));
      assert Below(m + 1) - {m} == Below(m);
    }
  }

  /** Which depths `n` submitters can reach under a cap: those up to `cap - 1 + n`. */
  lemma DepthsExactly(n: nat, cap: nat, d: nat)
    requires n > 0 && cap > 0
    ensures (exists s :: Reachable(n, cap, s) && s.depth == d) <==> d <= cap - 1 + n
  {
    if d <= cap - 1 + n {
      if d < cap {
        FillUp(n, cap, d);
      } else {
        AllCount(n, cap, cap - 1 + n - d);
        assert State(d, Below(cap - 1 + n - d)).depth == d;
      }
    }
    forall s | Reachable(n, cap, s) ensures s.depth <= cap - 1 + n {
      var run :| Legal(n, cap, Empty, run) && After(n, cap, Empty, run) == s;
      RunIsBounded(n, cap, Empty, run);
    }
  }

  /** So the documented limit holds exactly with a single submitter. */
  lemma CapHoldsExactlyAlone(n: nat, cap: nat)
    requires n > 0 && cap > 0
    ensures (forall s :: Reachable(n, cap, s) ==> s.depth <= cap) <==> n == 1
  {
    DepthsExactly(n, cap, cap + 1);
    forall s | n == 1 && Reachable(n, cap, s) ensures s.depth <= cap {
      DepthsExactly(n, cap, s.depth);
    }
  }

  /** Cap 0 is no limit: any depth can be reached. */
  lemma {:induction false} ZeroIsUnlimited(n: nat, d: nat)
    requires n > 0
    ensures Reachable(n, 0, State(d, {}))
  {
    if d == 0 {
      assert Legal(n, 0, Empty, []) && After(n, 0, Empty, []) == State(0, {});
    } else {
      ZeroIsUnlimited(n, d - 1);
      Extend(n, 0, State(d - 1, {}), Pass(0));
      Extend(n, 0, State(d - 1, {0}), CountUp(0));
      assert State(d - 1, {} + {0}) == State(d - 1, {0}) && State(d, {0} - {0}) == State(d, {});
    }
  }
}
