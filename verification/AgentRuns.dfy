/** What every run of the agent loop keeps. */
module AgentRuns {
  import opened Text
  import opened AgentSpec

  // ------------------------------------------------------------- how many calls

  lemma {:induction false} AskCost(w: World, cfg: Config, attempt: nat, migrations: nat, calls: nat)
    requires attempt <= MaxRetries && migrations <= MaxMigrations
    ensures var (_, m, c) := Ask(w, cfg, attempt, migrations, calls);
      calls < c && c + attempt + 4 * migrations <= calls + 4 + 4 * m
    decreases MaxMigrations - migrations, MaxRetries - attempt
  {
    if w.chat(calls).Busy? {
      if attempt < MaxRetries {
        AskCost(w, cfg, attempt + 1, migrations, calls + 1);
      } else if migrations < MaxMigrations && !cfg.pinned && w.reroutes(migrations) {
        AskCost(w, cfg, 0, migrations + 1, calls + 1);
      }
    }
  }

  /** Four calls for each step and four more for each migration. */
  predicate Paid(cfg: Config, s: Session) {
    s.migrations <= MaxMigrations && s.calls <= 4 * (if s.steps <= cfg.maxSteps then s.steps else cfg.maxSteps) + 4 * s.migrations
  }

  lemma TurnIsPaid(w: World, cfg: Config, s: Session)
    requires s.steps <= cfg.maxSteps && Paid(cfg, s)
    ensures Paid(cfg, Turn(w, cfg, s).0)
  {
    AskCost(w, cfg, 0, s.migrations, s.calls);
  }

  lemma {:induction false} LoopIsPaid(w: World, cfg: Config, s: Session)
    requires s.steps <= cfg.maxSteps && Paid(cfg, s)
    ensures Paid(cfg, Loop(w, cfg, s).0)
    decreases cfg.maxSteps - s.steps
  {
    TurnIsPaid(w, cfg, s);
    if Turn(w, cfg, s).1.None? { LoopIsPaid(w, cfg, Turn(w, cfg, s).0); }
  }

  /** Whatever fails when, a session makes at most 4 * (max_steps + 2) model calls. */
  lemma CallsAreBounded(w: World, cfg: Config, history: seq<Message>)
    ensures Run(w, cfg, history).0.calls <= 4 * (cfg.maxSteps + 2)
  {
    LoopIsPaid(w, cfg, Fresh(history));
  }

  /** What the model answers in a busy step: nothing at first, which earns it a nudge, then a
      tool call. */
  function Round(step: nat): seq<Call> {
    if step < MaxNudges then [] else [Call("", "", "")]
  }

  /** A world that is as busy as can be: the fourth try of each step succeeds, the last step
      exhausts three providers but for one try. */
  function BusyWorld(steps: nat): World
    requires steps > 0
  {
    World(
      (n: nat) => if n < 4 * (steps - 1) then (if n % 4 == 3 then Answer("", Round(n / 4)) else Busy)
           else if n == 4 * (steps - 1) + 11 then Answer("", Round(steps - 1)) else Busy,
      n => true, n => false, (n, m) => "", (n, at, c) => ("", false), n => {}, t => [])
  }

  function BusyConfig(steps: nat): Config {
    Config(steps, [], false, missing => "")
  }

  lemma BusyStep(w: World, cfg: Config, calls: nat)
    requires w.chat(calls) == w.chat(calls + 1) == w.chat(calls + 2) == Busy && w.chat(calls + 3).Answer?
    ensures Ask(w, cfg, 0, 0, calls) == (Some(w.chat(calls + 3)), 0, calls + 4)
  {
    assert Ask(w, cfg, 3, 0, calls + 3) == (Some(w.chat(calls + 3)), 0, calls + 4);
    assert Ask(w, cfg, 2, 0, calls + 2) == Ask(w, cfg, 3, 0, calls + 3);
  }

  lemma BusyProvider(w: World, cfg: Config, migrations: nat, calls: nat)
    requires migrations < MaxMigrations && !cfg.pinned && w.reroutes(migrations)
    requires forall n :: calls <= n < calls + 4 ==> w.chat(n) == Busy
    ensures Ask(w, cfg, 0, migrations, calls) == Ask(w, cfg, 0, migrations + 1, calls + 4)
  {
    assert Ask(w, cfg, 3, migrations, calls + 3) == Ask(w, cfg, 0, migrations + 1, calls + 4);
    assert Ask(w, cfg, 2, migrations, calls + 2) == Ask(w, cfg, 3, migrations, calls + 3);
  }

  lemma BusyLast(w: World, cfg: Config, calls: nat)
    requires !cfg.pinned && w.reroutes(0) && w.reroutes(1)
    requires forall n :: calls <= n < calls + 11 ==> w.chat(n) == Busy
    requires w.chat(calls + 11).Answer?
    ensures Ask(w, cfg, 0, 0, calls) == (Some(w.chat(calls + 11)), 2, calls + 12)
  {
    BusyProvider(w, cfg, 0, calls);
    BusyProvider(w, cfg, 1, calls + 4);
    assert Ask(w, cfg, 3, 2, calls + 11) == (Some(w.chat(calls + 11)), 2, calls + 12);
    assert Ask(w, cfg, 2, 2, calls + 10) == Ask(w, cfg, 3, 2, calls + 11);
  }

  lemma {:induction false} CharsMore(h: seq<Message>, a: Message, b: Message)
    ensures AllChars(h + [a, b]) == AllChars(h) + Chars(a) + Chars(b)
  {
    if h == [] {
      assert h + [a, b] == [a, b] && [a, b][1..] == [b] && [b][1..] == [];
    } else {
      assert (h + [a, b])[1..] == h[1..] + [a, b];
      CharsMore(h[1..], a, b);
    }
  }

  /** The step whose compaction a large history of this length cannot pass. */
  function Critical(length: nat): nat {
    if length >= 5 then 0 else (6 - length) / 2
  }

  /** Too large, too short, and more steps to go than it can take. */
  predicate Doomed(history: seq<Message>, maxSteps: nat) {
    Estimate(history) >= CompactAt && |history| <= 7 && maxSteps > Critical(|history|)
  }

  /** A busy session that started from `h`: long enough never to crash, or no larger than `h`. */
  ghost predicate AllBusy(h: seq<Message>, maxSteps: nat, s: Session) {
    && s.steps < maxSteps && s.migrations == 0 && s.calls == 4 * s.steps && s.writes == 0
    && s.nudges == (if s.steps < MaxNudges then s.steps else MaxNudges)
    && (|s.history| >= 8 || (|s.history| == |h| + 2 * s.steps && AllChars(s.history) == AllChars(h)))
  }

  lemma BusyCompacts(h: seq<Message>, maxSteps: nat, s: Session, w: World)
    requires AllBusy(h, maxSteps, s) && !Doomed(h, maxSteps)
    ensures var c := Compact(w, s.history, s.steps + 1);
      && c.Some? && (|c.value| >= 8 || c.value == s.history)
  {
    CompactExactly(w, s.history, s.steps + 1);
  }

  /** What one answer of the busy world does. */
  lemma BusyDigest(maxSteps: nat, s: Session)
    requires 0 < s.steps <= maxSteps && s.writes == 0
    requires s.nudges == if s.steps - 1 < MaxNudges then s.steps - 1 else MaxNudges
    ensures var (s', stop) := Digest(BusyWorld(maxSteps), BusyConfig(maxSteps), s, Answer("", Round(s.steps - 1)));
      && stop.None? && s' == s.(history := s'.history, nudges := s'.nudges)
      && s'.nudges == (if s.steps < MaxNudges then s.steps else MaxNudges)
      && |s'.history| == |s.history| + 2
      && (s.steps <= MaxNudges ==> AllChars(s'.history) == AllChars(s.history))
  {
    CharsMore(s.history, Assistant("", []), User(""));
    assert ArgChars([]) == 0;
    assert Writes([Call("", "", "")]) == Writes([]);
  }

  lemma BusyTurnOn(h: seq<Message>, maxSteps: nat, s: Session)
    requires AllBusy(h, maxSteps, s) && !Doomed(h, maxSteps) && s.steps + 1 < maxSteps
    ensures var (s', stop) := Turn(BusyWorld(maxSteps), BusyConfig(maxSteps), s);
      stop.None? && s'.steps == s.steps + 1 && AllBusy(h, maxSteps, s')
  {
    var w := BusyWorld(maxSteps);
    BusyCompacts(h, maxSteps, s, w);
    BusyStep(w, BusyConfig(maxSteps), s.calls);
    assert w.chat(s.calls + 3) == Answer("", Round(s.steps));
    var c := Compact(w, s.history, s.steps + 1).value;
    BusyDigest(maxSteps, s.(steps := s.steps + 1, history := c, calls := s.calls + 4));
  }

  lemma BusyLastTurn(h: seq<Message>, maxSteps: nat, s: Session)
    requires AllBusy(h, maxSteps, s) && !Doomed(h, maxSteps) && s.steps + 1 == maxSteps
    ensures var (s', stop) := Turn(BusyWorld(maxSteps), BusyConfig(maxSteps), s);
      stop.None? && s'.steps == maxSteps && s'.calls == 4 * (maxSteps + 2)
  {
    var w := BusyWorld(maxSteps);
    BusyCompacts(h, maxSteps, s, w);
    assert w.chat(s.calls + 11) == Answer("", Round(s.steps));
    BusyLast(w, BusyConfig(maxSteps), s.calls);
    var c := Compact(w, s.history, s.steps + 1).value;
    BusyDigest(maxSteps, s.(steps := s.steps + 1, history := c, calls := s.calls + 12, migrations := 2));
  }

  lemma {:induction false} BusyLoop(h: seq<Message>, maxSteps: nat, s: Session)
    requires AllBusy(h, maxSteps, s) && !Doomed(h, maxSteps)
    ensures Loop(BusyWorld(maxSteps), BusyConfig(maxSteps), s).0.calls == 4 * (maxSteps + 2)
    decreases maxSteps - s.steps
  {
    var w, cfg := BusyWorld(maxSteps), BusyConfig(maxSteps);
    var s' := Turn(w, cfg, s).0;
    if s.steps + 1 < maxSteps {
      BusyTurnOn(h, maxSteps, s);
      BusyLoop(h, maxSteps, s');
    } else {
      BusyLastTurn(h, maxSteps, s);
      assert Loop(w, cfg, s') == (s'.(steps := s'.steps + 1), StepLimit);
    }
  }

  /** A session on its way to the step that it cannot pass. */
  ghost predicate Doom(cfg: Config, h: seq<Message>, s: Session) {
    && |h| <= 7 && cfg.maxSteps > Critical(|h|) && s.steps <= Critical(|h|)
    && |s.history| == |h| + 2 * s.steps && Estimate(s.history) >= CompactAt && Paid(cfg, s)
  }

  /** Each turn makes the history of such a session longer. */
  lemma DoomedTurn(w: World, cfg: Config, h: seq<Message>, s: Session)
    requires Doom(cfg, h, s)
    ensures var (s', stop) := Turn(w, cfg, s);
      && s'.calls <= 4 * Critical(|h|) + 4 * MaxMigrations
      && (stop.None? ==> s.steps < Critical(|h|) && Doom(cfg, h, s'))
  {
    TurnIsPaid(w, cfg, s);
    var s1 := s.(steps := s.steps + 1);
    CompactExactly(w, s1.history, s1.steps);
    if s.steps < Critical(|h|) {
      assert Compact(w, s1.history, s1.steps) == Some(s.history);
      var (answer, migrations, calls) := Ask(w, cfg, 0, s1.migrations, s1.calls);
      if answer.Some? {
        DigestLengthens(w, cfg, s1.(migrations := migrations, calls := calls), answer.value);
      }
    }
  }

  lemma DigestLengthens(w: World, cfg: Config, s: Session, answer: Reply)
    requires answer.Answer?
    ensures var (s', stop) := Digest(w, cfg, s, answer);
      stop.None? ==> |s'.history| == |s.history| + 2 && AllChars(s'.history) >= AllChars(s.history)
  {
    var calls := Effective(w, answer);
    CharsMore(s.history, Assistant(answer.text, []), User(cfg.nudge(Missing(cfg.expected, w.files(s.steps)))));
    CharsMore(s.history, Assistant(answer.text, calls), ToolResults(Execute(w, s.steps, 0, calls)));
  }

  lemma {:induction false} DoomedLoop(w: World, cfg: Config, h: seq<Message>, s: Session)
    requires Doom(cfg, h, s)
    ensures Loop(w, cfg, s).0.calls <= 4 * Critical(|h|) + 4 * MaxMigrations
    decreases cfg.maxSteps - s.steps
  {
    DoomedTurn(w, cfg, h, s);
    var (s', stop) := Turn(w, cfg, s);
    if stop.None? { DoomedLoop(w, cfg, h, s'); }
  }

  ghost predicate MeetsBound(history: seq<Message>, maxSteps: nat) {
    exists w: World, cfg: Config :: cfg.maxSteps == maxSteps && Run(w, cfg, history).0.calls == 4 * (maxSteps + 2)
  }

  /** Some pattern of failures meets the bound, from whatever history a session starts and for
      whatever number of steps, exactly when compaction does not end every such session first. */
  lemma BoundIsTight(maxSteps: nat, history: seq<Message>)
    requires maxSteps > 0
    ensures MeetsBound(history, maxSteps) <==> !Doomed(history, maxSteps)
  {
    if Doomed(history, maxSteps) {
      forall w: World, cfg: Config | cfg.maxSteps == maxSteps
        ensures Run(w, cfg, history).0.calls != 4 * (maxSteps + 2)
      {
        DoomedLoop(w, cfg, history, Fresh(history));
      }
    } else {
      BusyLoop(history, maxSteps, Fresh(history));
      assert Run(BusyWorld(maxSteps), BusyConfig(maxSteps), history).0.calls == 4 * (maxSteps + 2);
    }
  }

  // ------------------------------------------------------------- the shape of the history

  /** The results answer exactly these calls, in order. */
  predicate Answers(calls: seq<Call>, results: seq<Result>) {
    |calls| == |results| && forall k :: 0 <= k < |calls| ==> results[k].id == calls[k].id
  }

  /** An Assistant message and what follows it: the results of its calls, or a nudge if it made none. */
  predicate Pair(a: Message, b: Message) {
    a.Assistant? && if a.calls == [] then b.User? else b.ToolResults? && Answers(a.calls, b.results)
  }

  predicate Pairs(h: seq<Message>) {
    |h| % 2 == 0 && forall k :: 0 <= k < |h| / 2 ==> Pair(h[2 * k], h[2 * k + 1])
  }

  /** System, task, perhaps a note, then pairs. */
  predicate Shaped(h: seq<Message>) {
    && |h| >= 2 && h[0].System? && h[1].User?
    && (Pairs(h[2..]) || (|h| >= 3 && h[2].System? && Pairs(h[3..])))
  }

  /** Where the pairs begin. */
  function Body(h: seq<Message>): nat
    requires Shaped(h)
  {
    if Pairs(h[2..]) then 2 else 3
  }

  lemma PairsSuffix(h: seq<Message>, cut: nat)
    requires Pairs(h) && cut <= |h| && (|h| - cut) % 2 == 0
    ensures Pairs(h[cut..])
  {
    var s := h[cut..];
    forall k | 0 <= k < |s| / 2 ensures Pair(s[2 * k], s[2 * k + 1]) {
      assert Pair(h[2 * (k + cut / 2)], h[2 * (k + cut / 2) + 1]);
    }
  }

  lemma PairsMore(h: seq<Message>, a: Message, b: Message)
    requires Pairs(h) && Pair(a, b)
    ensures Pairs(h + [a, b])
  {
    var s := h + [a, b];
    forall k | 0 <= k < |s| / 2 ensures Pair(s[2 * k], s[2 * k + 1]) {
      if k < |h| / 2 { assert Pair(h[2 * k], h[2 * k + 1]); }
    }
  }

  lemma ShapedMore(h: seq<Message>, a: Message, b: Message)
    requires Shaped(h) && Pair(a, b)
    ensures Shaped(h + [a, b])
  {
    var n := Body(h);
    PairsMore(h[n..], a, b);
    assert (h + [a, b])[n..] == h[n..] + [a, b];
  }

  lemma {:induction false} ExecuteAnswers(w: World, step: nat, at: nat, calls: seq<Call>)
    ensures Answers(calls, Execute(w, step, at, calls))
    decreases calls
  {
    if calls != [] { ExecuteAnswers(w, step, at + 1, calls[1..]); }
  }

  /** Compaction fails exactly on a large history of five to seven messages; it cuts exactly a
      large one of nine or more, keeping its first two and last six messages around one note made
      of those between; any other it leaves alone. */
  lemma CompactExactly(w: World, h: seq<Message>, step: nat)
    ensures Compact(w, h, step).None? <==> 5 <= |h| <= 7 && Estimate(h) >= CompactAt
    ensures Compact(w, h, step).Some? && (Estimate(h) < 24000 || |h| <= 8) ==> Compact(w, h, step).value == h
    ensures Estimate(h) >= 24000 && |h| >= 9 ==>
      var c := Compact(w, h, step).value;
      && Compact(w, h, step).Some? && |c| == 9 && c[..2] == h[..2]
      && c[2] == System(w.note(step, h[2..|h| - 6])) && c[3..] == h[|h| - 6..]
  {
  }

  lemma CompactKeepsShape(w: World, h: seq<Message>, step: nat)
    requires Shaped(h) && Compact(w, h, step).Some?
    ensures Shaped(Compact(w, h, step).value) && Compact(w, h, step).value[..2] == h[..2]
  {
    CompactExactly(w, h, step);
    var c := Compact(w, h, step).value;
    if c != h {
      var n := Body(h);
      PairsSuffix(h[n..], |h| - 6 - n);
      assert h[n..][|h| - 6 - n..] == h[|h| - 6..];
      assert c[0] == c[..2][0] == h[..2][0] && c[1] == c[..2][1] == h[..2][1];
    }
  }

  /** A turn keeps the shape, the system prompt and the task. */
  lemma TurnKeepsShape(w: World, cfg: Config, s: Session)
    requires s.migrations <= MaxMigrations && s.steps <= cfg.maxSteps && Shaped(s.history)
    ensures Shaped(Turn(w, cfg, s).0.history) && Turn(w, cfg, s).0.history[..2] == s.history[..2]
  {
    var step := s.steps + 1;
    TurnHistory(w, cfg, s);
    if step <= cfg.maxSteps && !w.cancelled(step) && Compact(w, s.history, step).Some? {
      CompactKeepsShape(w, s.history, step);
      TalkKeepsShape(w, cfg, s.(steps := step, history := Compact(w, s.history, step).value));
    }
  }

  lemma TurnHistory(w: World, cfg: Config, s: Session)
    requires s.migrations <= MaxMigrations && s.steps <= cfg.maxSteps
    ensures var step := s.steps + 1;
      var c := Compact(w, s.history, step);
      Turn(w, cfg, s).0.history ==
        if step <= cfg.maxSteps && !w.cancelled(step) && c.Some?
        then Talk(w, cfg, s.(steps := step, history := c.value)).0.history else s.history
  {
  }

  lemma TalkKeepsShape(w: World, cfg: Config, s: Session)
    requires s.migrations <= MaxMigrations && Shaped(s.history)
    ensures Shaped(Talk(w, cfg, s).0.history) && Talk(w, cfg, s).0.history[..2] == s.history[..2]
  {
    var (answer, migrations, calls) := Ask(w, cfg, 0, s.migrations, s.calls);
    if answer.Some? { DigestKeepsShape(w, cfg, s.(migrations := migrations, calls := calls), answer.value); }
  }

  lemma DigestKeepsShape(w: World, cfg: Config, s: Session, answer: Reply)
    requires answer.Answer? && Shaped(s.history)
    ensures Shaped(Digest(w, cfg, s, answer).0.history) && Digest(w, cfg, s, answer).0.history[..2] == s.history[..2]
  {
    var calls := Effective(w, answer);
    ExecuteAnswers(w, s.steps, 0, calls);
    if calls == [] {
      ShapedMore(s.history, Assistant(answer.text, []), User(cfg.nudge(Missing(cfg.expected, w.files(s.steps)))));
    } else {
      ShapedMore(s.history, Assistant(answer.text, calls), ToolResults(Execute(w, s.steps, 0, calls)));
    }
  }

  lemma {:induction false} LoopKeepsShape(w: World, cfg: Config, s: Session)
    requires s.migrations <= MaxMigrations && s.steps <= cfg.maxSteps && Shaped(s.history)
    ensures Shaped(Loop(w, cfg, s).0.history) && Loop(w, cfg, s).0.history[..2] == s.history[..2]
    decreases cfg.maxSteps - s.steps
  {
    TurnKeepsShape(w, cfg, s);
    if Turn(w, cfg, s).1.None? { LoopKeepsShape(w, cfg, Turn(w, cfg, s).0); }
  }

  /** Sessions resumed one after another, each from the snapshot of the one before. */
  function Resumed(history: seq<Message>, sessions: seq<(World, Config)>): seq<Message>
    decreases |sessions|
  {
    if sessions == [] then history
    else Resumed(Run(sessions[0].0, sessions[0].1, history).0.history, sessions[1..])
  }

  lemma {:induction false} ResumingKeepsShape(history: seq<Message>, sessions: seq<(World, Config)>)
    requires Shaped(history)
    ensures Shaped(Resumed(history, sessions)) && Resumed(history, sessions)[..2] == history[..2]
    decreases |sessions|
  {
    if sessions != [] {
      LoopKeepsShape(sessions[0].0, sessions[0].1, Fresh(history));
      ResumingKeepsShape(Run(sessions[0].0, sessions[0].1, history).0.history, sessions[1..]);
    }
  }

  /** Over any chain of sessions the history is system, task, perhaps a note, then pairs, and
      prompt and task are never lost. */
  lemma HistoryKeepsShape(prompt: string, task: string, sessions: seq<(World, Config)>)
    ensures var h := Resumed(Opening(prompt, task), sessions);
      Shaped(h) && h[0] == System(prompt) && h[1] == User(task)
  {
    var o := Opening(prompt, task);
    ResumingKeepsShape(o, sessions);
    var h := Resumed(o, sessions);
    assert h[0] == h[..2][0] == o[..2][0] && h[1] == h[..2][1] == o[..2][1];
  }

  /** Every ToolResults directly follows the Assistant message whose calls it answers, in order. */
  lemma ResultsFollowTheirCalls(h: seq<Message>, k: nat)
    requires Shaped(h) && k < |h| && h[k].ToolResults?
    ensures k > 0 && h[k - 1].Assistant? && h[k - 1].calls != [] && Answers(h[k - 1].calls, h[k].results)
  {
    var n := Body(h);
    assert k >= n;
    var j := (k - n) / 2;
    assert Pair(h[n..][2 * j], h[n..][2 * j + 1]);
  }

  // ------------------------------------------------------------- crashes

  /** A session that started with `n` messages has two more for each step, until it has eight. */
  predicate Grown(n: nat, s: Session) {
    |s.history| == n + 2 * s.steps || (|s.history| >= 8 && n + 2 * s.steps >= 8)
  }

  /** A turn that goes on adds one pair to the compacted history; it crashes exactly when
      compaction does. */
  lemma TurnAppends(w: World, cfg: Config, s: Session)
    requires s.migrations <= MaxMigrations && s.steps <= cfg.maxSteps
    ensures var (s', stop) := Turn(w, cfg, s); var c := Compact(w, s.history, s.steps + 1);
      && (stop.None? ==> c.Some? && |s'.history| == |c.value| + 2)
      && (stop == Some(Crashed) <==> s.steps < cfg.maxSteps && !w.cancelled(s.steps + 1) && c.None?)
      && (stop == Some(Crashed) ==> s' == s.(steps := s.steps + 1))
  {
  }

  /** The next turn of the session crashes. */
  predicate CrashesNext(w: World, cfg: Config, n: nat, s: Session) {
    && s.steps < cfg.maxSteps && !w.cancelled(s.steps + 1)
    && 5 <= n + 2 * s.steps <= 7 && Estimate(s.history) >= CompactAt
  }

  lemma TurnGrows(w: World, cfg: Config, n: nat, s: Session)
    requires s.migrations <= MaxMigrations && s.steps <= cfg.maxSteps && Grown(n, s)
    ensures Turn(w, cfg, s).1.None? ==> Grown(n, Turn(w, cfg, s).0)
    ensures Turn(w, cfg, s).1 == Some(Crashed) <==> CrashesNext(w, cfg, n, s)
  {
    TurnAppends(w, cfg, s);
    CompactExactly(w, s.history, s.steps + 1);
  }

  /** The session after `k` turns, if all of them went on. */
  function SessionAt(w: World, cfg: Config, history: seq<Message>, k: nat): (r: Option<Session>)
    ensures r.Some? ==> r.value.migrations <= MaxMigrations && r.value.steps == k <= cfg.maxSteps
  {
    if k == 0 then Some(Fresh(history))
    else
      match SessionAt(w, cfg, history, k - 1)
      case None => None
      case Some(s) => var (s', stop) := Turn(w, cfg, s); if stop.None? then Some(s') else None
  }

  lemma {:induction false} NoLaterSession(w: World, cfg: Config, history: seq<Message>, k: nat, j: nat)
    requires k <= j && SessionAt(w, cfg, history, k).None?
    ensures SessionAt(w, cfg, history, j).None?
    decreases j
  {
    if k < j { NoLaterSession(w, cfg, history, k, j - 1); }
  }

  ghost predicate CrashesAfter(w: World, cfg: Config, history: seq<Message>, k: nat) {
    var s := SessionAt(w, cfg, history, k);
    s.Some? && CrashesNext(w, cfg, |history|, s.value)
  }

  ghost predicate CrashesFrom(w: World, cfg: Config, history: seq<Message>, k: nat) {
    exists j :: k <= j && CrashesAfter(w, cfg, history, j)
  }

  lemma CrashesNowOrLater(w: World, cfg: Config, history: seq<Message>, k: nat)
    ensures CrashesFrom(w, cfg, history, k) <==> CrashesAfter(w, cfg, history, k) || CrashesFrom(w, cfg, history, k + 1)
  {
    if j :| k <= j && CrashesAfter(w, cfg, history, j) {
      assert j == k || k + 1 <= j;
    }
  }

  lemma NeverAfterStop(w: World, cfg: Config, history: seq<Message>, k: nat)
    requires SessionAt(w, cfg, history, k).None?
    ensures !CrashesFrom(w, cfg, history, k)
  {
    forall j: nat | k <= j ensures !CrashesAfter(w, cfg, history, j) { NoLaterSession(w, cfg, history, k, j); }
  }

  lemma SessionStep(w: World, cfg: Config, history: seq<Message>, k: nat, s: Session)
    requires SessionAt(w, cfg, history, k) == Some(s) && Grown(|history|, s)
    ensures var (s', stop) := Turn(w, cfg, s);
      && SessionAt(w, cfg, history, k + 1) == (if stop.None? then Some(s') else None)
      && (CrashesAfter(w, cfg, history, k) <==> stop == Some(Crashed))
      && (stop.None? ==> Grown(|history|, s'))
  {
    TurnGrows(w, cfg, |history|, s);
  }

  lemma {:induction false} LoopCrashes(w: World, cfg: Config, history: seq<Message>, k: nat, s: Session)
    requires SessionAt(w, cfg, history, k) == Some(s) && Grown(|history|, s)
    ensures Loop(w, cfg, s).1.Crashed? <==> CrashesFrom(w, cfg, history, k)
    decreases cfg.maxSteps - s.steps
  {
    SessionStep(w, cfg, history, k, s);
    CrashesNowOrLater(w, cfg, history, k);
    var next := SessionAt(w, cfg, history, k + 1);
    if next.Some? {
      LoopCrashes(w, cfg, history, k + 1, next.value);
    } else {
      NeverAfterStop(w, cfg, history, k + 1);
    }
  }

  /** Started or resumed from any history, a session crashes exactly when after some number of
      turns it has 24000 estimated tokens in five to seven messages, a step left, and is not
      cancelled. */
  lemma CrashesExactly(w: World, cfg: Config, history: seq<Message>)
    ensures Run(w, cfg, history).1.Crashed? <==> exists k :: 0 <= k && CrashesAfter(w, cfg, history, k)
  {
    LoopCrashes(w, cfg, history, 0, Fresh(history));
  }

  lemma {:induction false} CrashStep(w: World, cfg: Config, n: nat, s: Session)
    requires s.migrations <= MaxMigrations && s.steps <= cfg.maxSteps && Grown(n, s)
    ensures var (s', stop) := Loop(w, cfg, s);
      stop.Crashed? ==>
        && s'.steps > 0 && |s'.history| == n + 2 * (s'.steps - 1)
        && 5 <= |s'.history| <= 7 && Estimate(s'.history) >= CompactAt
    decreases cfg.maxSteps - s.steps
  {
    TurnGrows(w, cfg, n, s);
    TurnAppends(w, cfg, s);
    var (s', stop) := Turn(w, cfg, s);
    if stop.None? { CrashStep(w, cfg, n, s'); }
  }

  /** A session that starts anew can crash in compaction only at its third step. */
  lemma CrashOnlyInThirdStep(w: World, cfg: Config, prompt: string, task: string)
    ensures var (s, stop) := Run(w, cfg, Opening(prompt, task));
      stop.Crashed? ==> s.steps == 3 && |s.history| == 6 && Estimate(s.history) >= CompactAt
  {
    CrashStep(w, cfg, 2, Fresh(Opening(prompt, task)));
  }

  /** A session resumed with eight messages or more never does. */
  lemma LongNeverCrashes(w: World, cfg: Config, history: seq<Message>)
    requires |history| >= 8
    ensures !Run(w, cfg, history).1.Crashed?
  {
    CrashStep(w, cfg, |history|, Fresh(history));
  }

  // ------------------------------------------------------------- the completion guard

  /** The nudges that the history still shows. */
  lemma TurnNudges(w: World, cfg: Config, s: Session)
    requires s.migrations <= MaxMigrations && s.steps <= cfg.maxSteps && s.nudges <= MaxNudges
    ensures var (s', stop) := Turn(w, cfg, s);
      && s.nudges <= s'.nudges <= MaxNudges
      && (stop.Some? && stop.value.Finished? && NeedsWork(cfg, s', w.files(s'.steps)) ==> s'.nudges == MaxNudges)
  {
  }

  lemma {:induction false} LoopNudges(w: World, cfg: Config, s: Session)
    requires s.migrations <= MaxMigrations && s.steps <= cfg.maxSteps && s.nudges <= MaxNudges
    ensures var (s', stop) := Loop(w, cfg, s);
      && s'.nudges <= MaxNudges
      && (stop.Finished? && NeedsWork(cfg, s', w.files(s'.steps)) ==> s'.nudges == MaxNudges)
    decreases cfg.maxSteps - s.steps
  {
    TurnNudges(w, cfg, s);
    if Turn(w, cfg, s).1.None? { LoopNudges(w, cfg, Turn(w, cfg, s).0); }
  }

  lemma {:induction false} MissingExactly(expected: seq<string>, files: set<string>, path: string)
    ensures path in Missing(expected, files) <==> path in expected && path !in files
  {
    if expected != [] { MissingExactly(expected[1..], files, path); }
  }

  /** A session that ends well while an expected file is missing has been nudged exactly three times. */
  lemma GivesUpAfterThreeNudges(w: World, cfg: Config, history: seq<Message>, path: string)
    requires var (s, stop) := Run(w, cfg, history); stop.Finished? && path in cfg.expected && path !in w.files(s.steps)
    ensures Run(w, cfg, history).0.nudges == 3
  {
    LoopNudges(w, cfg, Fresh(history));
    MissingExactly(cfg.expected, w.files(Run(w, cfg, history).0.steps), path);
  }
}
