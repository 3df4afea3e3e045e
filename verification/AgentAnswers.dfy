/** What a session does with each answer of the model, and what its end says about the answers
    it got (rolen-runtime/src/agent.rs:331-551). */
module AgentAnswers {
  import opened Text
  import opened AgentSpec
  import opened AgentRuns

  // ------------------------------------------------------------- one model call

  /** The model calls `lo` up to `hi` met a busy provider. */
  predicate Waited(w: World, lo: nat, hi: nat) {
    forall n :: lo <= n < hi ==> w.chat(n) == Busy
  }

  predicate Rerouted(w: World, lo: nat, hi: nat) {
    forall m :: lo <= m < hi ==> w.reroutes(m)
  }

  /** `tries` calls reach the provider that `moves` migrations lead to: four for each before. */
  predicate Within(tries: int, moves: int) {
    4 * moves < tries <= 4 * moves + 4
  }

  /** The call is given up: it failed for good; or the last provider allowed was tried four
      times; or there was no other to go to. */
  predicate GivenUp(w: World, cfg: Config, tries: nat, lo: nat, hi: nat, last: Reply)
    requires lo <= hi
  {
    || (last == Broken && Rerouted(w, lo, hi) && Within(tries, hi - lo))
    || (last == Busy && Rerouted(w, lo, hi) && tries == 4 * (hi - lo) + 4 && (hi == MaxMigrations || cfg.pinned))
    || (last == Busy && lo < hi && Rerouted(w, lo, hi - 1) && !w.reroutes(hi - 1) && tries == 4 * (hi - lo))
  }

  /** This call is the last of them. */
  predicate Last(w: World, cfg: Config, attempt: nat, migrations: nat, calls: nat) {
    !w.chat(calls).Busy? || (attempt >= MaxRetries && (migrations >= MaxMigrations || cfg.pinned || !w.reroutes(migrations)))
  }

  lemma AskMoves(w: World, cfg: Config, attempt: nat, migrations: nat, calls: nat)
    requires attempt <= MaxRetries && migrations <= MaxMigrations && !Last(w, cfg, attempt, migrations, calls)
    ensures attempt < MaxRetries ==> Ask(w, cfg, attempt, migrations, calls) == Ask(w, cfg, attempt + 1, migrations, calls + 1)
    ensures attempt == MaxRetries ==>
      migrations < MaxMigrations && !cfg.pinned && w.reroutes(migrations)
      && Ask(w, cfg, attempt, migrations, calls) == Ask(w, cfg, 0, migrations + 1, calls + 1)
  {
  }

  /** `r` comes of some calls that met busy providers and one more. */
  ghost predicate Waits(w: World, cfg: Config, migrations: nat, calls: nat, r: (Option<Reply>, nat, nat)) {
    && migrations <= r.1 <= MaxMigrations && (cfg.pinned ==> r.1 == migrations)
    && calls < r.2 && Waited(w, calls, r.2 - 1)
  }

  /** If `r` is an answer it is that of the last call, on the provider that the tries lead to. */
  ghost predicate Answered(w: World, attempt: nat, migrations: nat, calls: nat, r: (Option<Reply>, nat, nat)) {
    && calls < r.2 && (r.0.Some? <==> w.chat(r.2 - 1).Answer?)
    && (r.0.Some? ==>
          && r.0.value == w.chat(r.2 - 1) && migrations <= r.1 && Rerouted(w, migrations, r.1)
          && Within(r.2 - calls + attempt, r.1 - migrations))
  }

  /** If `r` is no answer the tries were given up. */
  ghost predicate GaveUp(w: World, cfg: Config, attempt: nat, migrations: nat, calls: nat, r: (Option<Reply>, nat, nat)) {
    r.0.None? ==> calls < r.2 && migrations <= r.1 && GivenUp(w, cfg, r.2 - calls + attempt, migrations, r.1, w.chat(r.2 - 1))
  }

  ghost predicate Asked(w: World, cfg: Config, attempt: nat, migrations: nat, calls: nat, r: (Option<Reply>, nat, nat)) {
    && Waits(w, cfg, migrations, calls, r) && Answered(w, attempt, migrations, calls, r)
    && GaveUp(w, cfg, attempt, migrations, calls, r)
  }

  lemma AskedHere(w: World, cfg: Config, attempt: nat, migrations: nat, calls: nat)
    requires attempt <= MaxRetries && migrations <= MaxMigrations && Last(w, cfg, attempt, migrations, calls)
    ensures Asked(w, cfg, attempt, migrations, calls, Ask(w, cfg, attempt, migrations, calls))
  {
  }

  lemma AskedAfterRetry(w: World, cfg: Config, attempt: nat, migrations: nat, calls: nat, r: (Option<Reply>, nat, nat))
    requires w.chat(calls).Busy? && Asked(w, cfg, attempt + 1, migrations, calls + 1, r)
    ensures Asked(w, cfg, attempt, migrations, calls, r)
  {
  }

  lemma GivenUpLater(w: World, cfg: Config, tries: nat, lo: nat, hi: nat, last: Reply)
    requires lo < hi && w.reroutes(lo) && GivenUp(w, cfg, tries, lo + 1, hi, last)
    ensures GivenUp(w, cfg, tries + 4, lo, hi, last)
  {
  }

  lemma AskedAfterMove(w: World, cfg: Config, migrations: nat, calls: nat, r: (Option<Reply>, nat, nat))
    requires w.chat(calls).Busy? && w.reroutes(migrations) && !cfg.pinned && Asked(w, cfg, 0, migrations + 1, calls + 1, r)
    ensures Asked(w, cfg, 3, migrations, calls, r)
  {
    if r.0.None? { GivenUpLater(w, cfg, r.2 - calls - 1, migrations, r.1, w.chat(r.2 - 1)); }
  }

  lemma {:induction false} AskIsAsked(w: World, cfg: Config, attempt: nat, migrations: nat, calls: nat)
    requires attempt <= MaxRetries && migrations <= MaxMigrations
    ensures Asked(w, cfg, attempt, migrations, calls, Ask(w, cfg, attempt, migrations, calls))
    decreases MaxMigrations - migrations, MaxRetries - attempt
  {
    if Last(w, cfg, attempt, migrations, calls) {
      AskedHere(w, cfg, attempt, migrations, calls);
    } else {
      AskMoves(w, cfg, attempt, migrations, calls);
      if attempt < MaxRetries {
        AskIsAsked(w, cfg, attempt + 1, migrations, calls + 1);
        AskedAfterRetry(w, cfg, attempt, migrations, calls, Ask(w, cfg, attempt + 1, migrations, calls + 1));
      } else {
        AskIsAsked(w, cfg, 0, migrations + 1, calls + 1);
        AskedAfterMove(w, cfg, migrations, calls, Ask(w, cfg, 0, migrations + 1, calls + 1));
      }
    }
  }

  /** A model call waits for busy providers, four tries each, moves on only to where routing
      leads, never when the provider is pinned, and ends with the first reply that is not busy. */
  lemma AskExactly(w: World, cfg: Config, migrations: nat, calls: nat)
    requires migrations <= MaxMigrations
    ensures var (answer, m, c) := Ask(w, cfg, 0, migrations, calls);
      && migrations <= m <= MaxMigrations && (cfg.pinned ==> m == migrations)
      && calls < c && Waited(w, calls, c - 1)
      && (answer.Some? <==> w.chat(c - 1).Answer?)
      && if answer.Some?
         then answer.value == w.chat(c - 1) && Rerouted(w, migrations, m) && Within(c - calls, m - migrations)
         else GivenUp(w, cfg, c - calls, migrations, m, w.chat(c - 1))
  {
    AskIsAsked(w, cfg, 0, migrations, calls);
  }

  // ------------------------------------------------------------- one answer

  /** The calls of an answer, or those found in its text if it has none. */
  function Used(w: World, answer: Reply): seq<Call>
    requires answer.Answer?
  {
    if answer.calls != [] then answer.calls else w.salvage(answer.text)
  }

  predicate Submits(calls: seq<Call>) {
    exists k :: 0 <= k < |calls| && calls[k].name == "submit_write"
  }

  lemma {:induction false} WritesPositive(calls: seq<Call>)
    ensures Writes(calls) > 0 <==> Submits(calls)
  {
    if calls != [] {
      WritesPositive(calls[1..]);
      if Submits(calls[1..]) {
        var k :| 0 <= k < |calls[1..]| && calls[1..][k].name == "submit_write";
        assert calls[k + 1].name == "submit_write";
      }
      if Submits(calls) {
        var k :| 0 <= k < |calls| && calls[k].name == "submit_write";
        if k > 0 { assert calls[1..][k - 1].name == "submit_write"; }
      }
    }
  }

  lemma {:induction false} ExecutePointwise(w: World, step: nat, at: nat, calls: seq<Call>)
    ensures |Execute(w, step, at, calls)| == |calls|
    ensures forall k :: 0 <= k < |calls| ==>
      Execute(w, step, at, calls)[k] == Result(calls[k].id, w.tool(step, at + k, calls[k]).0, w.tool(step, at + k, calls[k]).1)
    decreases calls
  {
    if calls != [] { ExecutePointwise(w, step, at + 1, calls[1..]); }
  }

  /** The session has something left to do: an expected file is missing, or none is expected
      and nothing was written. */
  predicate Unfinished(cfg: Config, writes: nat, files: set<string>) {
    (cfg.expected == [] && writes == 0) || exists p :: p in cfg.expected && p !in files
  }

  lemma NeedsWorkExactly(cfg: Config, s: Session, files: set<string>)
    ensures NeedsWork(cfg, s, files) <==> Unfinished(cfg, s.writes, files)
  {
    forall p ensures p in Missing(cfg.expected, files) <==> p in cfg.expected && p !in files {
      MissingExactly(cfg.expected, files, p);
    }
    var missing := Missing(cfg.expected, files);
    if missing != [] { assert missing[0] in missing; }
  }

  /** `missing` lists the expected files that do not exist, in order; `at` are their places. */
  ghost predicate Picked(expected: seq<string>, files: set<string>, missing: seq<string>, at: seq<nat>) {
    && |at| == |missing| && (forall m, n :: 0 <= m < n < |at| ==> at[m] < at[n])
    && (forall n :: 0 <= n < |at| ==> at[n] < |expected| && missing[n] == expected[at[n]])
    && (forall k :: 0 <= k < |expected| ==> (k in at <==> expected[k] !in files))
  }

  lemma Moved(at: seq<nat>) returns (moved: seq<nat>)
    ensures |moved| == |at| && forall n :: 0 <= n < |at| ==> moved[n] == at[n] + 1
    ensures forall k: nat :: k in moved <==> k > 0 && k - 1 in at
  {
    moved := seq(|at|, n requires 0 <= n < |at| => at[n] + 1);
    forall k: nat | k > 0 && k - 1 in at ensures k in moved {
      var n :| 0 <= n < |at| && at[n] == k - 1;
      assert moved[n] == k;
    }
  }

  lemma PickedOn(expected: seq<string>, files: set<string>, missing: seq<string>, at: seq<nat>, moved: seq<nat>)
    requires expected != [] && expected[0] in files && Picked(expected[1..], files, missing, at)
    requires |moved| == |at| && forall n :: 0 <= n < |at| ==> moved[n] == at[n] + 1
    requires forall k: nat :: k in moved <==> k > 0 && k - 1 in at
    ensures Picked(expected, files, missing, moved)
  {
    forall k | 0 < k < |expected| ensures k in moved <==> expected[k] !in files {
      assert expected[k] == expected[1..][k - 1];
    }
  }

  lemma PickedFirst(expected: seq<string>, files: set<string>, missing: seq<string>, moved: seq<nat>)
    requires expected != [] && expected[0] !in files && |moved| == |missing|
    requires forall m, n :: 0 <= m < n < |moved| ==> moved[m] < moved[n]
    requires forall n :: 0 <= n < |moved| ==> 0 < moved[n] < |expected| && missing[n] == expected[moved[n]]
    requires forall k :: 0 < k < |expected| ==> (k in moved <==> expected[k] !in files)
    ensures Picked(expected, files, [expected[0]] + missing, [0] + moved)
  {
  }

  lemma PickedCons(expected: seq<string>, files: set<string>, missing: seq<string>, at: seq<nat>, moved: seq<nat>)
    requires expected != [] && expected[0] !in files && Picked(expected[1..], files, missing, at)
    requires |moved| == |at| && forall n :: 0 <= n < |at| ==> moved[n] == at[n] + 1
    requires forall k: nat :: k in moved <==> k > 0 && k - 1 in at
    ensures Picked(expected, files, [expected[0]] + missing, [0] + moved)
  {
    forall k | 0 < k < |expected| ensures k in moved <==> expected[k] !in files {
      assert expected[k] == expected[1..][k - 1];
    }
    PickedFirst(expected, files, missing, moved);
  }

  lemma {:induction false} MissingPicks(expected: seq<string>, files: set<string>) returns (at: seq<nat>)
    ensures Picked(expected, files, Missing(expected, files), at)
  {
    at := [];
    if expected != [] {
      var rest := MissingPicks(expected[1..], files);
      var moved := Moved(rest);
      var missing := Missing(expected[1..], files);
      if expected[0] in files {
        PickedOn(expected, files, missing, rest, moved);
        assert Missing(expected, files) == missing;
        at := moved;
      } else {
        PickedCons(expected, files, missing, rest, moved);
        assert Missing(expected, files) == [expected[0]] + missing;
        at := [0] + moved;
      }
    }
  }

  /** A nudge answers the model with the files that are still missing. */
  ghost predicate Nudged(w: World, cfg: Config, s: Session, s': Session, text: string) {
    && s'.nudges == s.nudges + 1 && s'.writes == s.writes
    && exists missing, at ::
         Picked(cfg.expected, w.files(s.steps), missing, at)
         && s'.history == s.history + [Assistant(text, []), User(cfg.nudge(missing))]
  }

  /** A tool round adds the answer with its calls, then one result for each call: that of the
      tool, under the call's id. */
  ghost predicate RanTools(w: World, s: Session, s': Session, text: string, calls: seq<Call>) {
    && s'.nudges == s.nudges && s'.writes >= s.writes && (s'.writes > s.writes <==> Submits(calls))
    && exists results: seq<Result> ::
         && s'.history == s.history + [Assistant(text, calls), ToolResults(results)]
         && |results| == |calls|
         && forall k :: 0 <= k < |calls| ==>
              results[k] == Result(calls[k].id, w.tool(s.steps, k, calls[k]).0, w.tool(s.steps, k, calls[k]).1)
  }

  /** What the answer of the last model call made of the session. */
  ghost predicate ActedOn(w: World, cfg: Config, s: Session, s': Session, stop: Option<Stop>)
    requires s'.calls > 0 && w.chat(s'.calls - 1).Answer?
  {
    var answer := w.chat(s'.calls - 1);
    var calls := Used(w, answer);
    if calls != [] then stop.None? && RanTools(w, s, s', answer.text, calls)
    else if Unfinished(cfg, s.writes, w.files(s.steps)) && s.nudges < 3 then stop.None? && Nudged(w, cfg, s, s', answer.text)
    else stop == Some(Finished(answer.text)) && s'.history == s.history && s'.nudges == s.nudges && s'.writes == s.writes
  }

  lemma DigestActs(w: World, cfg: Config, s: Session, answer: Reply)
    requires answer.Answer? && s.calls > 0 && w.chat(s.calls - 1) == answer
    ensures var (s', stop) := Digest(w, cfg, s, answer); s'.calls == s.calls && ActedOn(w, cfg, s, s', stop)
  {
    var calls := Used(w, answer);
    if calls != [] {
      WritesPositive(calls);
      ExecutePointwise(w, s.steps, 0, calls);
    } else {
      NeedsWorkExactly(cfg, s, w.files(s.steps));
      var at := MissingPicks(cfg.expected, w.files(s.steps));
    }
  }

  /** The part of a turn after its compaction: the model is asked, and its answer has exactly the
      effect that its calls, or the lack of any, call for. */
  lemma TalkExactly(w: World, cfg: Config, s: Session)
    requires s.migrations <= MaxMigrations
    ensures var (s', stop) := Talk(w, cfg, s);
      && s'.calls > s.calls && Waited(w, s.calls, s'.calls - 1) && (cfg.pinned ==> s'.migrations == s.migrations)
      && (stop == Some(ProviderFailed) <==> !w.chat(s'.calls - 1).Answer?)
      && (stop == Some(ProviderFailed) ==> s' == s.(migrations := s'.migrations, calls := s'.calls))
      && (w.chat(s'.calls - 1).Answer? ==> ActedOn(w, cfg, s, s', stop))
  {
    AskExactly(w, cfg, s.migrations, s.calls);
    var (answer, migrations, calls) := Ask(w, cfg, 0, s.migrations, s.calls);
    if answer.Some? { DigestActs(w, cfg, s.(migrations := migrations, calls := calls), answer.value); }
  }

  // ------------------------------------------------------------- whole sessions

  /** Of the first `n` replies, the answers that ask for no tool. */
  function IdleAnswers(w: World, n: nat): nat {
    if n == 0 then 0
    else IdleAnswers(w, n - 1) + (if w.chat(n - 1).Answer? && Used(w, w.chat(n - 1)) == [] then 1 else 0)
  }

  /** One of the first `n` replies asks for a write. */
  ghost predicate AskedToWrite(w: World, n: nat) {
    exists k :: 0 <= k < n && w.chat(k).Answer? && Submits(Used(w, w.chat(k)))
  }

  lemma {:induction false} BusyIsNoAnswer(w: World, lo: nat, hi: nat)
    requires lo <= hi && Waited(w, lo, hi)
    ensures IdleAnswers(w, hi) == IdleAnswers(w, lo) && (AskedToWrite(w, hi) <==> AskedToWrite(w, lo))
    decreases hi
  {
    if lo < hi { BusyIsNoAnswer(w, lo, hi - 1); }
  }

  lemma OneMore(w: World, n: nat)
    requires w.chat(n).Answer?
    ensures IdleAnswers(w, n + 1) == IdleAnswers(w, n) + if Used(w, w.chat(n)) == [] then 1 else 0
    ensures AskedToWrite(w, n + 1) <==> AskedToWrite(w, n) || Submits(Used(w, w.chat(n)))
  {
    if AskedToWrite(w, n) {
      var k :| 0 <= k < n && w.chat(k).Answer? && Submits(Used(w, w.chat(k)));
      assert 0 <= k < n + 1;
    }
    if Submits(Used(w, w.chat(n))) { assert 0 <= n < n + 1; }
  }

  /** The counters of a session under way tell what the model has answered. */
  ghost predicate Tallied(w: World, cfg: Config, s: Session) {
    && s.migrations <= MaxMigrations && (cfg.pinned ==> s.migrations == 0)
    && s.nudges == IdleAnswers(w, s.calls) && (s.writes > 0 <==> AskedToWrite(w, s.calls))
    && forall n :: 1 <= n <= s.steps ==> !w.cancelled(n)
  }

  /** All the session was asked for is there: the expected files, or, if none is expected, some
      write. */
  ghost predicate Complete(w: World, cfg: Config, s: Session) {
    if cfg.expected == [] then AskedToWrite(w, s.calls) else forall p :: p in cfg.expected ==> p in w.files(s.steps)
  }

  /** How a session that ends says what it has met. */
  ghost predicate EndsFor(w: World, cfg: Config, s: Session, stop: Stop) {
    && s.steps > 0 && (cfg.pinned ==> s.migrations == 0)
    && (stop.StepLimit? <==> s.steps == cfg.maxSteps + 1)
    && (forall n :: 1 <= n < s.steps ==> !w.cancelled(n))
    && (stop.Cancelled? <==> s.steps <= cfg.maxSteps && w.cancelled(s.steps))
    && (stop.ProviderFailed? ==> s.calls > 0 && !w.chat(s.calls - 1).Answer?)
    && (stop.Finished? ==>
          && s.calls > 0 && w.chat(s.calls - 1) == Answer(stop.text, []) && w.salvage(stop.text) == []
          && IdleAnswers(w, s.calls) == s.nudges + 1
          && (Complete(w, cfg, s) || IdleAnswers(w, s.calls) == 4))
  }

  /** An answer after some busy replies moves the tally on by one. */
  lemma CountsOn(w: World, lo: nat, hi: nat)
    requires lo < hi && Waited(w, lo, hi - 1) && w.chat(hi - 1).Answer?
    ensures IdleAnswers(w, hi) == IdleAnswers(w, lo) + if Used(w, w.chat(hi - 1)) == [] then 1 else 0
    ensures AskedToWrite(w, hi) <==> AskedToWrite(w, lo) || Submits(Used(w, w.chat(hi - 1)))
  {
    BusyIsNoAnswer(w, lo, hi - 1);
    OneMore(w, hi - 1);
  }

  /** What the talk did to the counters. */
  ghost predicate Counted(w: World, cfg: Config, s: Session, s': Session, stop: Option<Stop>)
    requires s'.calls > 0
  {
    var last := w.chat(s'.calls - 1);
    && s'.steps == s.steps && s'.migrations <= MaxMigrations && (cfg.pinned ==> s'.migrations == s.migrations)
    && if !last.Answer? then stop == Some(ProviderFailed) && s'.nudges == s.nudges
       else if Used(w, last) != [] then
         stop.None? && s'.nudges == s.nudges && s'.writes >= s.writes && (s'.writes > s.writes <==> Submits(Used(w, last)))
       else if Unfinished(cfg, s.writes, w.files(s.steps)) && s.nudges < 3 then
         stop.None? && s'.nudges == s.nudges + 1 && s'.writes == s.writes
       else stop == Some(Finished(last.text)) && s'.nudges == s.nudges && s'.writes == s.writes
  }

  lemma TalkCounts(w: World, cfg: Config, s: Session)
    requires s.migrations <= MaxMigrations
    ensures var (s', stop) := Talk(w, cfg, s);
      && s'.calls > s.calls && Waited(w, s.calls, s'.calls - 1) && Counted(w, cfg, s, s', stop)
  {
    TalkExactly(w, cfg, s);
  }

  lemma CountedTallies(w: World, cfg: Config, s: Session, s': Session, stop: Option<Stop>)
    requires Tallied(w, cfg, s) && s.nudges <= 3
    requires s'.calls > s.calls && Waited(w, s.calls, s'.calls - 1) && Counted(w, cfg, s, s', stop)
    ensures s'.nudges <= 3 && (stop.None? ==> Tallied(w, cfg, s'))
  {
    if w.chat(s'.calls - 1).Answer? { CountsOn(w, s.calls, s'.calls); }
    assert !Submits([]);
  }

  lemma CountedEnds(w: World, cfg: Config, s: Session, s': Session, stop: Option<Stop>)
    requires Tallied(w, cfg, s) && s.nudges <= 3 && 0 < s.steps <= cfg.maxSteps
    requires s'.calls > s.calls && Waited(w, s.calls, s'.calls - 1) && Counted(w, cfg, s, s', stop)
    ensures stop.Some? ==> EndsFor(w, cfg, s', stop.value)
  {
    if w.chat(s'.calls - 1).Answer? { CountsOn(w, s.calls, s'.calls); }
    assert !Submits([]);
  }

  lemma TalkTallies(w: World, cfg: Config, s: Session)
    requires Tallied(w, cfg, s) && s.nudges <= 3
    ensures var (s', stop) := Talk(w, cfg, s);
      && s'.nudges <= 3
      && (stop.None? ==> Tallied(w, cfg, s'))
      && (stop.Some? && 0 < s.steps <= cfg.maxSteps ==> EndsFor(w, cfg, s', stop.value))
  {
    TalkCounts(w, cfg, s);
    var (s', stop) := Talk(w, cfg, s);
    CountedTallies(w, cfg, s, s', stop);
    if 0 < s.steps <= cfg.maxSteps { CountedEnds(w, cfg, s, s', stop); }
  }

  /** The turn comes to its model call. */
  predicate Talks(w: World, cfg: Config, s: Session) {
    s.steps < cfg.maxSteps && !w.cancelled(s.steps + 1) && Compact(w, s.history, s.steps + 1).Some?
  }

  lemma TurnStops(w: World, cfg: Config, s: Session)
    requires Tallied(w, cfg, s) && s.steps <= cfg.maxSteps && !Talks(w, cfg, s)
    ensures var (s', stop) := Turn(w, cfg, s);
      s'.nudges == s.nudges && stop.Some? && EndsFor(w, cfg, s', stop.value)
  {
  }

  lemma TurnTalks(w: World, cfg: Config, s: Session) returns (s1: Session)
    requires Tallied(w, cfg, s) && s.steps <= cfg.maxSteps && Talks(w, cfg, s)
    ensures s1.nudges == s.nudges && s1.steps == s.steps + 1 && Tallied(w, cfg, s1) && Turn(w, cfg, s) == Talk(w, cfg, s1)
  {
    s1 := s.(steps := s.steps + 1, history := Compact(w, s.history, s.steps + 1).value);
  }

  lemma TurnTallies(w: World, cfg: Config, s: Session)
    requires Tallied(w, cfg, s) && s.nudges <= 3 && s.steps <= cfg.maxSteps
    ensures var (s', stop) := Turn(w, cfg, s);
      && s'.nudges <= 3
      && (stop.None? ==> Tallied(w, cfg, s'))
      && (stop.Some? ==> EndsFor(w, cfg, s', stop.value))
  {
    if Talks(w, cfg, s) {
      var s1 := TurnTalks(w, cfg, s);
      TalkTallies(w, cfg, s1);
    } else {
      TurnStops(w, cfg, s);
    }
  }

  lemma {:induction false} LoopEnds(w: World, cfg: Config, s: Session)
    requires Tallied(w, cfg, s) && s.nudges <= 3 && s.steps <= cfg.maxSteps
    ensures EndsFor(w, cfg, Loop(w, cfg, s).0, Loop(w, cfg, s).1)
    decreases cfg.maxSteps - s.steps
  {
    TurnTallies(w, cfg, s);
    if Turn(w, cfg, s).1.None? { LoopEnds(w, cfg, Turn(w, cfg, s).0); }
  }

  /** How every session ends. The text of one that ends well is that of the last answer, which
      has no calls, written out or in its text; and either all is there that it was asked for, or
      this was its fourth answer without calls. It runs into its step limit or a cancellation
      exactly when it comes to them; a pinned one never migrates. */
  lemma SessionEndsFor(w: World, cfg: Config, history: seq<Message>)
    ensures var (s, stop) := Run(w, cfg, history); EndsFor(w, cfg, s, stop)
  {
    LoopEnds(w, cfg, Fresh(history));
  }

  // ------------------------------------------------------------- what is estimated

  function ArgText(calls: seq<Call>): string {
    if calls == [] then "" else calls[0].args + ArgText(calls[1..])
  }

  function ResultText(results: seq<Result>): string {
    if results == [] then "" else results[0].content + ResultText(results[1..])
  }

  /** Everything written in a history, end to end. */
  function AllText(h: seq<Message>): string {
    if h == [] then ""
    else
      (match h[0]
       case System(text) => text
       case User(text) => text
       case Assistant(text, calls) => text + ArgText(calls)
       case ToolResults(results) => ResultText(results))
      + AllText(h[1..])
  }

  function CallCount(h: seq<Message>): nat {
    if h == [] then 0 else (if h[0].Assistant? then |h[0].calls| else 0) + CallCount(h[1..])
  }

  function ResultCount(h: seq<Message>): nat {
    if h == [] then 0 else (if h[0].ToolResults? then |h[0].results| else 0) + ResultCount(h[1..])
  }

  lemma {:induction false} ArgsWeigh(calls: seq<Call>)
    ensures ArgChars(calls) == |ArgText(calls)| + 32 * |calls|
  {
    if calls != [] { ArgsWeigh(calls[1..]); }
  }

  lemma {:induction false} ResultsWeigh(results: seq<Result>)
    ensures ResultChars(results) == |ResultText(results)| + 16 * |results|
  {
    if results != [] { ResultsWeigh(results[1..]); }
  }

  /** The estimate counts a token for every four characters of all that is written, where a call
      weighs 32 characters and a result 16 beyond its text. */
  lemma {:induction false} EstimateCounts(h: seq<Message>)
    ensures AllChars(h) == |AllText(h)| + 32 * CallCount(h) + 16 * ResultCount(h)
    ensures Estimate(h) >= CompactAt <==> |AllText(h)| + 32 * CallCount(h) + 16 * ResultCount(h) >= 96000
  {
    if h != [] {
      EstimateCounts(h[1..]);
      match h[0]
      case System(_) =>
      case User(_) =>
      case Assistant(_, calls) => ArgsWeigh(calls);
      case ToolResults(results) => ResultsWeigh(results);
    }
  }
}
