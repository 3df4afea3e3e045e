/** The agent loop in place (rolen-runtime/src/agent.rs:303-551, 737-797): a session that
    updates its history and counters, proved against the functions of AgentSpec. */
module Agent {
  import opened Text
  import opened AgentSpec
  import opened AgentAnswers

  lemma {:induction false} ExecuteSnoc(w: World, step: nat, at: nat, calls: seq<Call>, call: Call)
    ensures var (content, isError) := w.tool(step, at + |calls|, call);
            Execute(w, step, at, calls + [call]) == Execute(w, step, at, calls) + [Result(call.id, content, isError)]
    decreases calls
  {
    if calls != [] {
      assert (calls + [call])[1..] == calls[1..] + [call];
      ExecuteSnoc(w, step, at + 1, calls[1..], call);
    }
  }

  class AgentSession {
    const world: World
    const config: Config
    var history: seq<Message>
    var steps: nat
    var nudges: nat
    var writes: nat
    var migrations: nat
    var calls: nat

    constructor (world: World, config: Config, history: seq<Message>)
      ensures this.world == world && this.config == config && View() == Fresh(history)
    {
      this.world := world;
      this.config := config;
      this.history := history;
      steps, nudges, writes, migrations, calls := 0, 0, 0, 0, 0;
    }

    function View(): Session
      reads this
    {
      Session(history, steps, nudges, writes, migrations, calls)
    }

    /** Cuts the middle out of the history; `crashed` stands for the underflow. */
    method MaybeCompact() returns (crashed: bool)
      modifies this`history
      ensures crashed <==> Compact(world, old(history), steps).None?
      ensures history == if crashed then old(history) else Compact(world, old(history), steps).value
    {
      if Estimate(history) < CompactAt || |history| <= 4 { return false; }
      if |history| < KeepHead + KeepTail { return true; }
      var dropCount := |history| - KeepHead - KeepTail;
      if dropCount == 0 { return false; }
      var tail := history[|history| - KeepTail..];
      history := history[..|history| - KeepTail];
      var dropped := history[KeepHead..];
      history := history[..KeepHead];
      history := history + [System(world.note(steps, dropped))];
      history := history + tail;
      assert dropped == old(history)[KeepHead..|old(history)| - KeepTail];
      assert old(history)[..|old(history)| - KeepTail][..KeepHead] == old(history)[..KeepHead];
      assert history == old(history)[..KeepHead] + ([System(world.note(steps, dropped))] + tail);
      crashed := false;
    }

    /** The `'call` block. */
    method AskModel() returns (answer: Option<Reply>)
      requires migrations <= MaxMigrations
      modifies this`migrations, this`calls
      ensures (answer, migrations, calls) == Ask(world, config, 0, old(migrations), old(calls))
    {
      var attempt, moves, made := 0, migrations, calls;
      answer := None;
      var asking := true;
      while asking
        invariant attempt <= MaxRetries && moves <= MaxMigrations
        invariant asking ==> answer.None? && Ask(world, config, attempt, moves, made) == Ask(world, config, 0, migrations, calls)
        invariant !asking ==> (answer, moves, made) == Ask(world, config, 0, migrations, calls)
        decreases asking, MaxMigrations - moves, MaxRetries - attempt
      {
        var reply := world.chat(made);
        made := made + 1;
        if reply.Answer? {
          answer, asking := Some(reply), false;
        } else if reply.Busy? && attempt < MaxRetries {
          attempt := attempt + 1;
        } else if reply.Busy? && moves < MaxMigrations && !config.pinned {
          moves := moves + 1;
          if world.reroutes(moves - 1) { attempt := 0; } else { asking := false; }
        } else {
          asking := false;
        }
      }
      migrations, calls := moves, made;
    }

    method RunTools(toolCalls: seq<Call>) returns (outcomes: seq<Result>)
      ensures outcomes == Execute(world, steps, 0, toolCalls)
    {
      outcomes := [];
      var k := 0;
      while k < |toolCalls|
        invariant 0 <= k <= |toolCalls|
        invariant outcomes == Execute(world, steps, 0, toolCalls[..k])
      {
        var (content, isError) := world.tool(steps, k, toolCalls[k]);
        outcomes := outcomes + [Result(toolCalls[k].id, content, isError)];
        ExecuteSnoc(world, steps, 0, toolCalls[..k], toolCalls[k]);
        assert toolCalls[..k + 1] == toolCalls[..k] + [toolCalls[k]];
        k := k + 1;
      }
      assert toolCalls[..k] == toolCalls;
    }

    /** The answer is acted on: tools run, or a nudge, or the end. */
    method Act(answer: Reply) returns (stop: Option<Stop>)
      requires answer.Answer?
      modifies this`history, this`nudges, this`writes
      ensures (View(), stop) == Digest(world, config, old(View()), answer)
    {
      var toolCalls := if answer.calls == [] then world.salvage(answer.text) else answer.calls;
      if toolCalls == [] {
        var files := world.files(steps);
        var missing := Missing(config.expected, files);
        var needsWork := if config.expected == [] then writes == 0 else missing != [];
        if needsWork && nudges < MaxNudges {
          nudges := nudges + 1;
          history := history + [Assistant(answer.text, [])];
          history := history + [User(config.nudge(missing))];
          assert history == old(history) + [Assistant(answer.text, []), User(config.nudge(missing))];
          return None;
        }
        return Some(Finished(answer.text));
      }
      writes := writes + Writes(toolCalls);
      history := history + [Assistant(answer.text, toolCalls)];
      var outcomes := RunTools(toolCalls);
      history := history + [ToolResults(outcomes)];
      assert history == old(history) + [Assistant(answer.text, toolCalls), ToolResults(outcomes)];
      stop := None;
    }

    method TakeTurn() returns (stop: Option<Stop>)
      requires migrations <= MaxMigrations && steps <= config.maxSteps
      modifies this
      ensures (View(), stop) == Turn(world, config, old(View()))
    {
      steps := steps + 1;
      if steps > config.maxSteps { return Some(StepLimit); }
      if world.cancelled(steps) { return Some(Cancelled); }
      var crashed := MaybeCompact();
      if crashed { return Some(Crashed); }
      var answer := AskModel();
      if answer.None? { return Some(ProviderFailed); }
      stop := Act(answer.value);
    }

    /** The whole session, from its opening or from a snapshot. */
    method Run() returns (result: Stop)
      requires View() == Fresh(history)
      modifies this
      ensures (View(), result) == AgentSpec.Run(world, config, old(history))
      ensures EndsFor(world, config, View(), result)
    {
      var stop: Option<Stop> := None;
      ghost var s := View();
      while stop.None?
        invariant migrations <= MaxMigrations && (stop.None? ==> steps <= config.maxSteps)
        invariant if stop.None? then Loop(world, config, View()) == Loop(world, config, s)
                  else (View(), stop.value) == Loop(world, config, s)
        decreases config.maxSteps + 1 - steps, if stop.None? then 1 else 0
      {
        stop := TakeTurn();
      }
      result := stop.value;
      SessionEndsFor(world, config, old(history));
    }
  }
}
