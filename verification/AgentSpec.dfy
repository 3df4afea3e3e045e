/** The agent loop of `run` (rolen-runtime/src/agent.rs:303-551) and its compaction
    (rolen-runtime/src/agent.rs:737-797) as functions. Everything from outside — the model's
    replies, routing, tools, files, cancellation — comes from a `World` that may answer
    anything at any time. */
module AgentSpec {
  import opened Text

  datatype Call = Call(id: string, name: string, args: string)
  datatype Result = Result(id: string, content: string, isError: bool)

  datatype Message =
    | System(text: string)
    | User(text: string)
    | Assistant(text: string, calls: seq<Call>)
    | ToolResults(results: seq<Result>)

  /** One `chat_tools` call: an answer, a retryable failure, or a fatal one. */
  datatype Reply = Answer(text: string, calls: seq<Call>) | Busy | Broken

  datatype World = World(
    chat: nat -> Reply,                       // by calls made so far
    reroutes: nat -> bool,                    // does the n-th migration find another provider
    cancelled: nat -> bool,                   // by step
    note: (nat, seq<Message>) -> string,      // the text that replaces dropped messages
    tool: (nat, nat, Call) -> (string, bool), // content and error flag, by step and place among its calls
    files: nat -> set<string>,                // what exists when the model stops calling tools
    salvage: string -> seq<Call>)

  datatype Config = Config(maxSteps: nat, expected: seq<string>, pinned: bool, nudge: seq<string> -> string)

  datatype Session = Session(history: seq<Message>, steps: nat, nudges: nat, writes: nat, migrations: nat, calls: nat)

  datatype Stop = Finished(text: string) | StepLimit | Cancelled | ProviderFailed | Crashed

  const MaxRetries: nat := 3
  const MaxMigrations: nat := 2
  const MaxNudges: nat := 3
  const CompactAt: nat := 24000
  const KeepHead: nat := 2
  const KeepTail: nat := 6

  // ------------------------------------------------------------- compaction

  function ArgChars(calls: seq<Call>): nat {
    if calls == [] then 0 else |calls[0].args| + 32 + ArgChars(calls[1..])
  }

  function ResultChars(results: seq<Result>): nat {
    if results == [] then 0 else |results[0].content| + 16 + ResultChars(results[1..])
  }

  function Chars(m: Message): nat {
    match m
    case System(text) => |text|
    case User(text) => |text|
    case Assistant(text, calls) => |text| + ArgChars(calls)
    case ToolResults(results) => ResultChars(results)
  }

  function AllChars(h: seq<Message>): nat {
    if h == [] then 0 else Chars(h[0]) + AllChars(h[1..])
  }

  function Estimate(h: seq<Message>): nat { AllChars(h) / 4 }

  /** `maybe_compact`; None is the arithmetic underflow of `len() - 2 - 6`. */
  function Compact(w: World, h: seq<Message>, step: nat): Option<seq<Message>> {
    if Estimate(h) < CompactAt || |h| <= 4 then Some(h)
    else if |h| < KeepHead + KeepTail then None
    else if |h| == KeepHead + KeepTail then Some(h)
    else
      var cut := |h| - KeepTail;
      Some(h[..KeepHead] + ([System(w.note(step, h[KeepHead..cut]))] + h[cut..]))
  }

  // ------------------------------------------------------------- one model call with retries

  /** The `'call` block: up to three retries per provider, at most two migrations per session. */
  function Ask(w: World, cfg: Config, attempt: nat, migrations: nat, calls: nat): (r: (Option<Reply>, nat, nat))
    requires attempt <= MaxRetries && migrations <= MaxMigrations
    ensures r.0.Some? ==> r.0.value.Answer?
    ensures migrations <= r.1 <= MaxMigrations
    decreases MaxMigrations - migrations, MaxRetries - attempt
  {
    match w.chat(calls)
    case Answer(_, _) => (Some(w.chat(calls)), migrations, calls + 1)
    case Broken => (None, migrations, calls + 1)
    case Busy =>
      if attempt < MaxRetries then Ask(w, cfg, attempt + 1, migrations, calls + 1)
      else if migrations < MaxMigrations && !cfg.pinned then
        if w.reroutes(migrations) then Ask(w, cfg, 0, migrations + 1, calls + 1)
        else (None, migrations + 1, calls + 1)
      else (None, migrations, calls + 1)
  }

  // ------------------------------------------------------------- one turn of the loop

  function Writes(calls: seq<Call>): nat {
    if calls == [] then 0 else (if calls[0].name == "submit_write" then 1 else 0) + Writes(calls[1..])
  }

  function Missing(expected: seq<string>, files: set<string>): seq<string> {
    if expected == [] then []
    else (if expected[0] in files then [] else [expected[0]]) + Missing(expected[1..], files)
  }

  predicate NeedsWork(cfg: Config, s: Session, files: set<string>) {
    if cfg.expected == [] then s.writes == 0 else Missing(cfg.expected, files) != []
  }

  /** The results of the calls, the first of them at place `at` of its step. */
  function Execute(w: World, step: nat, at: nat, calls: seq<Call>): seq<Result>
    decreases calls
  {
    if calls == [] then []
    else
      var (content, isError) := w.tool(step, at, calls[0]);
      [Result(calls[0].id, content, isError)] + Execute(w, step, at + 1, calls[1..])
  }

  function Effective(w: World, answer: Reply): seq<Call>
    requires answer.Answer?
  {
    if answer.calls == [] then w.salvage(answer.text) else answer.calls
  }

  /** What the loop does with the model's answer. */
  function Digest(w: World, cfg: Config, s: Session, answer: Reply): (Session, Option<Stop>)
    requires answer.Answer?
  {
    var calls := Effective(w, answer);
    if calls == [] then
      var files := w.files(s.steps);
      if NeedsWork(cfg, s, files) && s.nudges < MaxNudges then
        (s.(nudges := s.nudges + 1,
            history := s.history + [Assistant(answer.text, []), User(cfg.nudge(Missing(cfg.expected, files)))]), None)
      else (s, Some(Finished(answer.text)))
    else
      (s.(writes := s.writes + Writes(calls),
          history := s.history + [Assistant(answer.text, calls), ToolResults(Execute(w, s.steps, 0, calls))]), None)
  }

  /** A turn after its compaction: the model call and what becomes of its answer. */
  function Talk(w: World, cfg: Config, s: Session): (r: (Session, Option<Stop>))
    requires s.migrations <= MaxMigrations
    ensures r.0.migrations <= MaxMigrations && r.0.steps == s.steps
  {
    var (answer, migrations, calls) := Ask(w, cfg, 0, s.migrations, s.calls);
    var s := s.(migrations := migrations, calls := calls);
    if answer.None? then (s, Some(ProviderFailed)) else Digest(w, cfg, s, answer.value)
  }

  function Turn(w: World, cfg: Config, s: Session): (r: (Session, Option<Stop>))
    requires s.migrations <= MaxMigrations && s.steps <= cfg.maxSteps
    ensures r.0.migrations <= MaxMigrations && r.0.steps == s.steps + 1
    ensures r.1.None? ==> r.0.steps <= cfg.maxSteps
  {
    var s := s.(steps := s.steps + 1);
    if s.steps > cfg.maxSteps then (s, Some(StepLimit))
    else if w.cancelled(s.steps) then (s, Some(Cancelled))
    else
      match Compact(w, s.history, s.steps)
      case None => (s, Some(Crashed))
      case Some(h) => Talk(w, cfg, s.(history := h))
  }

  function Loop(w: World, cfg: Config, s: Session): (Session, Stop)
    requires s.migrations <= MaxMigrations && s.steps <= cfg.maxSteps
    decreases cfg.maxSteps - s.steps
  {
    var (s', stop) := Turn(w, cfg, s);
    if stop.Some? then (s', stop.value) else Loop(w, cfg, s')
  }

  function Fresh(history: seq<Message>): Session { Session(history, 0, 0, 0, 0, 0) }

  function Run(w: World, cfg: Config, history: seq<Message>): (Session, Stop) {
    Loop(w, cfg, Fresh(history))
  }

  function Opening(prompt: string, task: string): seq<Message> { [System(prompt), User(task)] }
}
