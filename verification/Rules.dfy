/** Rule routing (rolen-core/src/rules.rs): which provider and model a role is given. */
module Rules {
  import opened Text

  datatype CmpOp = Lt | Le | Eq | Ne | Ge | Gt
  datatype Field = TaskType | Project | TimeOfDay | ProviderHealth | QuotaRemainingPct | CostSoFar
  datatype Condition = Condition(field: Field, op: CmpOp, value: string, provider: Option<string>)

  datatype Rule = Rule(
    id: string,
    role: string,
    conditions: seq<Condition>,
    chain: seq<string>,
    minQuota: Option<nat>,
    priority: int,
    scope: Option<string>)

  datatype Provider = Provider(healthy: bool, quota: Option<nat>, cost: real, models: seq<string>)

  /** What the decision sees; `trim` and the two number readers are the library's. */
  datatype Context = Context(
    taskType: Option<string>,
    project: Option<string>,
    hour: real,
    providers: map<string, Provider>,
    paused: set<string>,
    trim: string -> string,
    number: string -> Option<real>,
    clock: string -> Option<real>)

  datatype Skip = NotRegistered | Unhealthy | QuotaLow(pct: nat, min: nat) | NotInCatalog(model: string)
  datatype Decision = Decision(rule: string, provider: string, model: string, skipped: seq<(string, Skip)>)

  /** Why a rule was passed over. */
  datatype Reason = OutOfScope(scope: string) | ConditionNotMet(index: nat) | InvalidEntry(entry: string) | ChainUnavailable(n: nat)

  datatype Failure = Paused | NoRule | Exhausted(notes: seq<(string, Reason)>)
  datatype Result<T, E> = Ok(value: T) | Err(error: E)

  const ProjectOverrideBonus: int := 1000

  // ------------------------------------------------------------- order of the rules

  /** Descending priority, earlier rules first among equals. */
  predicate Precedes(rules: seq<Rule>, i: nat, j: nat)
    requires i < |rules| && j < |rules|
  {
    rules[i].priority > rules[j].priority || (rules[i].priority == rules[j].priority && i < j)
  }

  predicate Within(rules: seq<Rule>, v: seq<nat>) {
    forall n :: 0 <= n < |v| ==> v[n] < |rules|
  }

  function Insert(rules: seq<Rule>, i: nat, v: seq<nat>): (r: seq<nat>)
    requires i < |rules| && Within(rules, v)
    ensures Within(rules, r) && forall n :: n in r <==> n == i || n in v
  {
    if v == [] || Precedes(rules, i, v[0]) then [i] + v else [v[0]] + Insert(rules, i, v[1..])
  }

  /** `for_role`: the rules of the role from `from` on, as places in the rule set. */
  function ForRole(rules: seq<Rule>, role: string, from: nat): (v: seq<nat>)
    requires from <= |rules|
    ensures Within(rules, v) && forall n: nat :: n in v <==> from <= n < |rules| && rules[n].role == role
    decreases |rules| - from
  {
    if from == |rules| then []
    else if rules[from].role == role then Insert(rules, from, ForRole(rules, role, from + 1))
    else ForRole(rules, role, from + 1)
  }

  ghost predicate InOrder(rules: seq<Rule>, v: seq<nat>) {
    Within(rules, v) && forall m, n :: 0 <= m < n < |v| ==> Precedes(rules, v[m], v[n])
  }

  lemma {:induction false} InsertKeepsOrder(rules: seq<Rule>, i: nat, v: seq<nat>)
    requires i < |rules| && InOrder(rules, v) && i !in v
    ensures InOrder(rules, Insert(rules, i, v))
  {
    var r := Insert(rules, i, v);
    if v != [] && !Precedes(rules, i, v[0]) {
      InsertKeepsOrder(rules, i, v[1..]);
      forall m, n | 0 <= m < n < |r| ensures Precedes(rules, r[m], r[n]) {
        if m == 0 {
          assert r[n] in Insert(rules, i, v[1..]);
          if r[n] != i {
            assert r[n] in v[1..];
          }
        }
      }
    }
  }

  lemma {:induction false} ForRoleInOrder(rules: seq<Rule>, role: string, from: nat)
    requires from <= |rules|
    ensures InOrder(rules, ForRole(rules, role, from))
    decreases |rules| - from
  {
    if from < |rules| {
      ForRoleInOrder(rules, role, from + 1);
      if rules[from].role == role { InsertKeepsOrder(rules, from, ForRole(rules, role, from + 1)); }
    }
  }

  /** Raised overrides in front of the global rules. */
  function MergedWith(rules: seq<Rule>, overrides: seq<Rule>): seq<Rule> {
    seq(|overrides|, i requires 0 <= i < |overrides| => overrides[i].(priority := overrides[i].priority + ProjectOverrideBonus)) + rules
  }

  /** In the merged order an override comes before a global rule of its role exactly when its
      priority plus 1000 is at least the global one's. */
  lemma OverridePrecedesExactly(rules: seq<Rule>, overrides: seq<Rule>, i: nat, j: nat, m: nat, n: nat)
    requires i < |overrides| && j < |rules| && overrides[i].role == rules[j].role
    requires var v := ForRole(MergedWith(rules, overrides), rules[j].role, 0);
      m < |v| && n < |v| && v[m] == i && v[n] == |overrides| + j
    ensures m < n <==> overrides[i].priority + 1000 >= rules[j].priority
  {
    var all := MergedWith(rules, overrides);
    ForRoleInOrder(all, rules[j].role, 0);
    assert all[i].priority == overrides[i].priority + 1000 && all[|overrides| + j] == rules[j];
  }

  // ------------------------------------------------------------- conditions

  const Epsilon: real := 1.0 / 4503599627370496.0

  function Abs(x: real): real { if x < 0.0 then -x else x }

  predicate CompareNumbers(a: real, op: CmpOp, b: real) {
    match op
    case Lt => a < b
    case Le => a <= b
    case Eq => Abs(a - b) < Epsilon
    case Ne => Abs(a - b) >= Epsilon
    case Ge => a >= b
    case Gt => a > b
  }

  predicate CompareEqual<T(==)>(a: T, op: CmpOp, b: T) {
    match op case Eq => a == b case Ne => a != b case _ => false
  }

  function OrEmpty(s: Option<string>): string { if s.Some? then s.value else "" }

  /** `eval_condition`: an unknown quota, an unregistered provider and an unreadable value
      fail the condition whatever its operator. */
  predicate Holds(c: Condition, ctx: Context) {
    var pid := OrEmpty(c.provider);
    match c.field
    case TaskType => CompareEqual(OrEmpty(ctx.taskType), c.op, c.value)
    case Project => CompareEqual(OrEmpty(ctx.project), c.op, c.value)
    case TimeOfDay =>
      ctx.clock(c.value).Some? && CompareNumbers(ctx.hour, c.op, ctx.clock(c.value).value)
    case ProviderHealth =>
      CompareEqual(pid in ctx.providers && ctx.providers[pid].healthy, c.op, c.value in {"ok", "healthy", "true", "1"})
    case QuotaRemainingPct =>
      && pid in ctx.providers && ctx.providers[pid].quota.Some? && ctx.number(c.value).Some?
      && CompareNumbers(ctx.providers[pid].quota.value as real, c.op, ctx.number(c.value).value)
    case CostSoFar =>
      pid in ctx.providers && ctx.number(c.value).Some? && CompareNumbers(ctx.providers[pid].cost, c.op, ctx.number(c.value).value)
  }

  /** The condition compares `x`, as it is now, with the value `v` that it names. */
  predicate Measures(c: Condition, ctx: Context, x: real, v: real) {
    var pid := OrEmpty(c.provider);
    match c.field
    case TimeOfDay => x == ctx.hour && ctx.clock(c.value) == Some(v)
    case QuotaRemainingPct =>
      && pid in ctx.providers && ctx.providers[pid].quota.Some? && x == ctx.providers[pid].quota.value as real
      && ctx.number(c.value) == Some(v)
    case CostSoFar => pid in ctx.providers && x == ctx.providers[pid].cost && ctx.number(c.value) == Some(v)
    case _ => false
  }

  /** A measured condition holds exactly when what is measured is on the right side of its value. */
  lemma MeasuredExactly(c: Condition, ctx: Context, x: real, v: real)
    requires Measures(c, ctx, x, v)
    ensures c.op == Lt ==> (Holds(c, ctx) <==> x < v)
    ensures c.op == Le ==> (Holds(c, ctx) <==> x <= v)
    ensures c.op == Ge ==> (Holds(c, ctx) <==> v <= x)
    ensures c.op == Gt ==> (Holds(c, ctx) <==> v < x)
    ensures c.op == Eq ==> (Holds(c, ctx) <==> -Epsilon < x - v < Epsilon)
  {
  }

  function Opposite(op: CmpOp): CmpOp {
    match op case Lt => Ge case Ge => Lt case Le => Gt case Gt => Le case Eq => Ne case Ne => Eq
  }

  /** There is something to compare: numbers on both sides, or texts for equality. */
  ghost predicate Comparable(c: Condition, ctx: Context) {
    match c.field
    case TaskType => c.op == Eq || c.op == Ne
    case Project => c.op == Eq || c.op == Ne
    case ProviderHealth => c.op == Eq || c.op == Ne
    case _ => exists x, v :: Measures(c, ctx, x, v)
  }

  /** Exactly one of a condition and its opposite holds if there is something to compare, and
      neither does otherwise. */
  lemma OppositesExactly(c: Condition, ctx: Context)
    ensures var o := c.(op := Opposite(c.op));
      if Comparable(c, ctx) then Holds(c, ctx) <==> !Holds(o, ctx) else !Holds(c, ctx) && !Holds(o, ctx)
  {
    var pid := OrEmpty(c.provider);
    match c.field
    case TaskType =>
    case Project =>
    case ProviderHealth =>
    case TimeOfDay =>
      if ctx.clock(c.value).Some? { assert Measures(c, ctx, ctx.hour, ctx.clock(c.value).value); }
    case QuotaRemainingPct =>
      if pid in ctx.providers && ctx.providers[pid].quota.Some? && ctx.number(c.value).Some? {
        assert Measures(c, ctx, ctx.providers[pid].quota.value as real, ctx.number(c.value).value);
      }
    case CostSoFar =>
      if pid in ctx.providers && ctx.number(c.value).Some? {
        assert Measures(c, ctx, ctx.providers[pid].cost, ctx.number(c.value).value);
      }
  }

  /** An equality on the task type, the project or a provider's health compares with what the
      condition names. */
  lemma NamedExactly(c: Condition, ctx: Context)
    requires c.op == Eq
    ensures c.field == TaskType ==> (Holds(c, ctx) <==> c.value == OrEmpty(ctx.taskType))
    ensures c.field == Project ==> (Holds(c, ctx) <==> c.value == OrEmpty(ctx.project))
    ensures c.field == ProviderHealth ==>
      var wanted := c.value == "ok" || c.value == "healthy" || c.value == "true" || c.value == "1";
      Holds(c, ctx) <==> (wanted <==> exists pid :: pid in ctx.providers && ctx.providers[pid].healthy && pid == OrEmpty(c.provider))
  {
  }

  /** A rule of one project is for that project only. */
  predicate InScope(rule: Rule, ctx: Context) {
    rule.scope.None? || ctx.project == rule.scope
  }

  predicate Applies(rule: Rule, ctx: Context) {
    InScope(rule, ctx) && forall n :: 0 <= n < |rule.conditions| ==> Holds(rule.conditions[n], ctx)
  }

  method CheckConditions(rule: Rule, ctx: Context) returns (r: Result<(), Reason>)
    ensures r.Ok? <==> forall n :: 0 <= n < |rule.conditions| ==> Holds(rule.conditions[n], ctx)
    ensures r.Err? ==> r.error.ConditionNotMet? && r.error.index < |rule.conditions| && !Holds(rule.conditions[r.error.index], ctx)
    ensures r.Err? ==> forall n :: 0 <= n < r.error.index ==> Holds(rule.conditions[n], ctx)
  {
    var n := 0;
    while n < |rule.conditions|
      invariant 0 <= n <= |rule.conditions|
      invariant forall k :: 0 <= k < n ==> Holds(rule.conditions[k], ctx)
    {
      if !Holds(rule.conditions[n], ctx) { return Err(ConditionNotMet(n)); }
      n := n + 1;
    }
    r := Ok(());
  }

  // ------------------------------------------------------------- the fallback chain

  /** `split_once('/')`, both sides trimmed. */
  function SplitEntry(ctx: Context, entry: string): Option<(string, string)> {
    var provider := UpTo(entry, '/');
    if |provider| >= |entry| then None
    else Some((ctx.trim(provider), ctx.trim(entry[|provider| + 1..])))
  }

  /** What keeps a well-formed entry from being used. */
  function Obstacle(rule: Rule, ctx: Context, pid: string, model: string): Option<Skip> {
    if pid !in ctx.providers then Some(NotRegistered)
    else
      var p := ctx.providers[pid];
      if !p.healthy then Some(Unhealthy)
      else if rule.minQuota.Some? && rule.minQuota.value > 0 && p.quota.Some? && p.quota.value < rule.minQuota.value
      then Some(QuotaLow(p.quota.value, rule.minQuota.value))
      else if p.models != [] && model !in p.models then Some(NotInCatalog(model))
      else None
  }

  /** What stands before the entry's first slash and what stands after it, trimmed. */
  ghost predicate Names(ctx: Context, entry: string, provider: string, model: string) {
    exists p, m :: '/' !in p && entry == p + ("/" + m) && provider == ctx.trim(p) && model == ctx.trim(m)
  }

  predicate WellFormed(entry: string) { '/' in entry }

  lemma {:induction false} UpToSlash(p: string, m: string)
    requires '/' !in p
    ensures UpTo(p + ("/" + m), '/') == p
  {
    var entry := p + ("/" + m);
    if p != "" {
      UpToSlash(p[1..], m);
      assert entry[1..] == p[1..] + ("/" + m);
      assert entry[0] == p[0] && p == [p[0]] + p[1..];
    } else {
      assert entry[0] == '/';
    }
  }

  lemma {:induction false} UpToSplits(entry: string)
    ensures var p := UpTo(entry, '/');
      && |p| <= |entry| && entry[..|p|] == p && '/' !in p
      && (|p| == |entry| <==> '/' !in entry) && (|p| < |entry| ==> entry[|p|] == '/')
  {
    if entry != "" && entry[0] != '/' {
      UpToSplits(entry[1..]);
      var rest := UpTo(entry[1..], '/');
      assert entry == [entry[0]] + entry[1..];
      assert entry[..|rest| + 1] == [entry[0]] + entry[1..][..|rest|];
    }
  }

  lemma SplitWhenNamed(ctx: Context, entry: string, provider: string, model: string)
    requires Names(ctx, entry, provider, model)
    ensures SplitEntry(ctx, entry) == Some((provider, model))
  {
    var p, m :| '/' !in p && entry == p + ("/" + m) && provider == ctx.trim(p) && model == ctx.trim(m);
    UpToSlash(p, m);
    assert entry[|p| + 1..] == m;
  }

  lemma NamedWhenSplit(ctx: Context, entry: string)
    ensures SplitEntry(ctx, entry).Some? <==> WellFormed(entry)
    ensures WellFormed(entry) ==> Names(ctx, entry, SplitEntry(ctx, entry).value.0, SplitEntry(ctx, entry).value.1)
  {
    UpToSplits(entry);
    var before := UpTo(entry, '/');
    if |before| < |entry| { assert entry == before + ("/" + entry[|before| + 1..]); }
  }

  /** An entry is split at its first slash, and cannot be read without one. */
  lemma SplitEntryExactly(ctx: Context, entry: string)
    ensures SplitEntry(ctx, entry).Some? <==> WellFormed(entry)
    ensures forall provider, model :: SplitEntry(ctx, entry) == Some((provider, model)) <==> Names(ctx, entry, provider, model)
  {
    NamedWhenSplit(ctx, entry);
    forall provider, model | Names(ctx, entry, provider, model) ensures SplitEntry(ctx, entry) == Some((provider, model)) {
      SplitWhenNamed(ctx, entry, provider, model);
    }
  }

  /** The quota, if known, is below what the rule asks for. */
  predicate QuotaTooLow(rule: Rule, p: Provider) {
    rule.minQuota.Some? && p.quota.Some? && p.quota.value < rule.minQuota.value
  }

  /** A healthy registered provider whose catalogue, if known, has the model and whose quota,
      if known, is at the rule's minimum. */
  predicate Serves(rule: Rule, ctx: Context, provider: string, model: string) {
    && provider in ctx.providers
    && var p := ctx.providers[provider];
    && p.healthy && !QuotaTooLow(rule, p) && (p.models == [] || model in p.models)
  }

  /** The reason given for passing an entry over is the first that applies. */
  predicate Obstructs(rule: Rule, ctx: Context, provider: string, model: string, skip: Skip) {
    if provider !in ctx.providers then skip == NotRegistered
    else
      var p := ctx.providers[provider];
      match skip
      case NotRegistered => false
      case Unhealthy => !p.healthy
      case QuotaLow(pct, min) =>
        p.healthy && QuotaTooLow(rule, p) && p.quota == Some(pct) && rule.minQuota == Some(min)
      case NotInCatalog(m) =>
        p.healthy && !QuotaTooLow(rule, p) && p.models != [] && model !in p.models && m == model
  }

  ghost predicate Usable(rule: Rule, ctx: Context, entry: string) {
    exists provider, model :: Names(ctx, entry, provider, model) && Serves(rule, ctx, provider, model)
  }

  ghost predicate Explains(rule: Rule, ctx: Context, entry: string, skip: Skip) {
    exists provider, model :: Names(ctx, entry, provider, model) && Obstructs(rule, ctx, provider, model, skip)
  }

  lemma ObstacleExactly(rule: Rule, ctx: Context, provider: string, model: string)
    ensures var o := Obstacle(rule, ctx, provider, model);
      if o.None? then Serves(rule, ctx, provider, model)
      else !Serves(rule, ctx, provider, model) && Obstructs(rule, ctx, provider, model, o.value)
  {
  }

  /** What the walk makes of an entry that it can read. */
  lemma EntryRead(rule: Rule, ctx: Context, entry: string, provider: string, model: string)
    requires SplitEntry(ctx, entry) == Some((provider, model))
    ensures WellFormed(entry) && Names(ctx, entry, provider, model)
    ensures var o := Obstacle(rule, ctx, provider, model);
      if o.None? then Usable(rule, ctx, entry) else !Usable(rule, ctx, entry) && Explains(rule, ctx, entry, o.value)
  {
    SplitEntryExactly(ctx, entry);
    ObstacleExactly(rule, ctx, provider, model);
    forall p, m | Names(ctx, entry, p, m) ensures (p, m) == (provider, model) {
      assert SplitEntry(ctx, entry) == Some((p, m));
    }
  }

  /** All entries before `n` can be read and none of them used. */
  ghost predicate PassedOver(rule: Rule, ctx: Context, n: nat)
    requires n <= |rule.chain|
  {
    forall k :: 0 <= k < n ==> WellFormed(rule.chain[k]) && !Usable(rule, ctx, rule.chain[k])
  }

  /** The rule's first usable entry is `n`, and no malformed one comes before it. */
  ghost predicate FirstUsable(rule: Rule, ctx: Context, n: nat) {
    n < |rule.chain| && Usable(rule, ctx, rule.chain[n]) && PassedOver(rule, ctx, n)
  }

  /** Exactly the entries before `n` are reported, in order, each with its reason. */
  ghost predicate Reported(rule: Rule, ctx: Context, skipped: seq<(string, Skip)>, n: nat)
    requires n <= |rule.chain|
  {
    |skipped| == n && forall k :: 0 <= k < n ==> skipped[k].0 == rule.chain[k] && Explains(rule, ctx, rule.chain[k], skipped[k].1)
  }

  /** `d` takes entry `n` of the rule and reports the earlier ones. */
  ghost predicate Takes(rule: Rule, ctx: Context, d: Decision, n: nat) {
    && FirstUsable(rule, ctx, n)
    && d.rule == rule.id && Names(ctx, rule.chain[n], d.provider, d.model) && Serves(rule, ctx, d.provider, d.model)
    && Reported(rule, ctx, d.skipped, n)
  }

  /** Why no entry is taken: one without a slash comes before any usable one, or none is usable. */
  ghost predicate ChainFails(rule: Rule, ctx: Context, reason: Reason) {
    || (reason.InvalidEntry?
        && (exists n :: 0 <= n < |rule.chain| && rule.chain[n] == reason.entry && !WellFormed(reason.entry) && PassedOver(rule, ctx, n)))
    || (reason == ChainUnavailable(|rule.chain|) && PassedOver(rule, ctx, |rule.chain|))
  }

  lemma FailsWithoutUsable(rule: Rule, ctx: Context, reason: Reason)
    requires ChainFails(rule, ctx, reason)
    ensures forall n :: 0 <= n < |rule.chain| ==> !FirstUsable(rule, ctx, n)
  {
    forall n | 0 <= n < |rule.chain| ensures !FirstUsable(rule, ctx, n) {
      SplitEntryExactly(ctx, rule.chain[n]);
      if reason.InvalidEntry? {
        var k :| 0 <= k < |rule.chain| && rule.chain[k] == reason.entry && !WellFormed(reason.entry) && PassedOver(rule, ctx, k);
      }
    }
  }

  method WalkChain(rule: Rule, ctx: Context) returns (r: Result<Decision, Reason>)
    ensures r.Ok? ==> exists n :: 0 <= n < |rule.chain| && Takes(rule, ctx, r.value, n)
    ensures r.Err? ==> ChainFails(rule, ctx, r.error)
    ensures r.Ok? <==> exists n :: 0 <= n < |rule.chain| && FirstUsable(rule, ctx, n)
  {
    var skipped: seq<(string, Skip)> := [];
    var n := 0;
    while n < |rule.chain|
      invariant 0 <= n <= |rule.chain|
      invariant PassedOver(rule, ctx, n) && Reported(rule, ctx, skipped, n)
    {
      var entry := rule.chain[n];
      var s := SplitEntry(ctx, entry);
      SplitEntryExactly(ctx, entry);
      if s.None? {
        r := Err(InvalidEntry(entry));
        FailsWithoutUsable(rule, ctx, r.error);
        return;
      }
      var (pid, model) := s.value;
      EntryRead(rule, ctx, entry, pid, model);
      ObstacleExactly(rule, ctx, pid, model);
      var obstacle := Obstacle(rule, ctx, pid, model);
      if obstacle.None? {
        r := Ok(Decision(rule.id, pid, model, skipped));
        assert Takes(rule, ctx, r.value, n);
        return;
      }
      skipped := skipped + [(entry, obstacle.value)];
      n := n + 1;
    }
    r := Err(ChainUnavailable(|rule.chain|));
    FailsWithoutUsable(rule, ctx, r.error);
  }

  // ------------------------------------------------------------- the decision

  /** A rule that yields a route. */
  ghost predicate Works(rule: Rule, ctx: Context) {
    Applies(rule, ctx) && exists n :: 0 <= n < |rule.chain| && FirstUsable(rule, ctx, n)
  }

  /** Rule `i` is the first working one of the role. */
  ghost predicate FirstWorking(rules: seq<Rule>, role: string, ctx: Context, i: nat) {
    && i < |rules| && rules[i].role == role && Works(rules[i], ctx)
    && forall j :: 0 <= j < |rules| && rules[j].role == role && Precedes(rules, j, i) ==> !Works(rules[j], ctx)
  }

  /** Why a rule gave no route: its scope, else its first condition that fails, else its chain. */
  ghost predicate Blames(rule: Rule, ctx: Context, reason: Reason) {
    if !InScope(rule, ctx) then reason == OutOfScope(rule.scope.value)
    else if reason.ConditionNotMet? then
      && reason.index < |rule.conditions| && !Holds(rule.conditions[reason.index], ctx)
      && forall n :: 0 <= n < reason.index ==> Holds(rule.conditions[n], ctx)
    else
      (forall n :: 0 <= n < |rule.conditions| ==> Holds(rule.conditions[n], ctx)) && ChainFails(rule, ctx, reason)
  }

  lemma BlamedDoesNotWork(rule: Rule, ctx: Context, reason: Reason)
    requires Blames(rule, ctx, reason)
    ensures !Works(rule, ctx)
  {
    if InScope(rule, ctx) && !reason.ConditionNotMet? { FailsWithoutUsable(rule, ctx, reason); }
  }

  /** A note for each of the rules `v`, in order. */
  ghost predicate Noted(rules: seq<Rule>, ctx: Context, v: seq<nat>, notes: seq<(string, Reason)>)
    requires Within(rules, v)
  {
    |notes| <= |v| && forall k :: 0 <= k < |notes| ==> notes[k].0 == rules[v[k]].id && Blames(rules[v[k]], ctx, notes[k].1)
  }

  /** One rule of `decide`: its scope, its conditions, its chain. */
  method TryRule(rule: Rule, ctx: Context) returns (r: Result<Decision, Reason>)
    ensures r.Ok? ==> Works(rule, ctx) && exists n :: 0 <= n < |rule.chain| && Takes(rule, ctx, r.value, n)
    ensures r.Err? ==> Blames(rule, ctx, r.error)
  {
    if rule.scope.Some? && ctx.project != rule.scope { return Err(OutOfScope(rule.scope.value)); }
    var checked := CheckConditions(rule, ctx);
    if checked.Err? { return Err(checked.error); }
    r := WalkChain(rule, ctx);
  }

  /** `decide`: the first usable entry of the first working rule, its earlier entries skipped;
      it fails exactly when the role is paused or no rule of it works, and then says why for
      every rule. */
  method Decide(rules: seq<Rule>, role: string, ctx: Context) returns (r: Result<Decision, Failure>)
    ensures r.Ok? ==> exists i, n ::
      0 <= i < |rules| && FirstWorking(rules, role, ctx, i) && 0 <= n < |rules[i].chain| && Takes(rules[i], ctx, r.value, n)
    ensures r.Err? <==> role in ctx.paused || forall i :: 0 <= i < |rules| && rules[i].role == role ==> !Works(rules[i], ctx)
    ensures r.Err? ==> (r.error.Paused? <==> role in ctx.paused)
    ensures r.Err? && !r.error.Paused? ==> (r.error.NoRule? <==> forall i :: 0 <= i < |rules| ==> rules[i].role != role)
    ensures r.Err? && r.error.Exhausted? ==>
      var v := ForRole(rules, role, 0);
      |r.error.notes| == |v| && Noted(rules, ctx, v, r.error.notes)
  {
    if role in ctx.paused { return Err(Paused); }
    var candidates := ForRole(rules, role, 0);
    if candidates == [] {
      assert forall i: nat :: i < |rules| && rules[i].role == role ==> i in candidates;
      return Err(NoRule);
    }
    ForRoleInOrder(rules, role, 0);
    var notes: seq<(string, Reason)> := [];
    var k := 0;
    while k < |candidates|
      invariant 0 <= k <= |candidates| && |notes| == k && Noted(rules, ctx, candidates, notes)
      invariant forall m :: 0 <= m < k ==> !Works(rules[candidates[m]], ctx)
    {
      var rule := rules[candidates[k]];
      var tried := TryRule(rule, ctx);
      if tried.Ok? {
        assert rule.role == role && candidates[k] in candidates;
        FirstInOrder(rules, role, ctx, candidates, k);
        assert FirstWorking(rules, role, ctx, candidates[k]);
        return Ok(tried.value);
      }
      BlamedDoesNotWork(rule, ctx, tried.error);
      notes := notes + [(rule.id, tried.error)];
      k := k + 1;
    }
    assert forall i: nat :: i < |rules| && rules[i].role == role ==> i in candidates;
    assert candidates[0] in candidates;
    r := Err(Exhausted(notes));
  }

  lemma FirstInOrder(rules: seq<Rule>, role: string, ctx: Context, v: seq<nat>, k: nat)
    requires v == ForRole(rules, role, 0) && InOrder(rules, v) && k < |v|
    requires forall m :: 0 <= m < k ==> !Works(rules[v[m]], ctx)
    ensures forall j :: 0 <= j < |rules| && rules[j].role == role && Precedes(rules, j, v[k]) ==> !Works(rules[j], ctx)
  {
    forall j | 0 <= j < |rules| && rules[j].role == role && Precedes(rules, j, v[k]) ensures !Works(rules[j], ctx) {
      assert j in v;
      var m :| 0 <= m < |v| && v[m] == j;
      assert m < k;
    }
  }

  // ------------------------------------------------------------- migration

  function MarkUnhealthy(ctx: Context, failed: string): Context {
    if failed in ctx.providers then ctx.(providers := ctx.providers[failed := ctx.providers[failed].(healthy := false)]) else ctx
  }

  lemma MarkExactly(ctx: Context, failed: string)
    ensures var marked := MarkUnhealthy(ctx, failed);
      && marked == ctx.(providers := marked.providers) && marked.providers.Keys == ctx.providers.Keys
      && forall p :: p in ctx.providers ==>
           marked.providers[p] == ctx.providers[p].(healthy := p != failed && ctx.providers[p].healthy)
  {
  }

  /** The route that the rules give: the first usable entry of the first working rule. */
  ghost predicate Routed(rules: seq<Rule>, role: string, ctx: Context, provider: string, model: string) {
    exists i, n ::
      && 0 <= i < |rules| && FirstWorking(rules, role, ctx, i)
      && 0 <= n < |rules[i].chain| && FirstUsable(rules[i], ctx, n)
      && Names(ctx, rules[i].chain[n], provider, model) && Serves(rules[i], ctx, provider, model)
  }

  /** `migrate` (rolen-runtime/src/agent.rs:125-141): the route without the provider that failed,
      which is never chosen again, so the test for that never fires; it gives up only when
      routing does or the registry lacks the choice. */
  method Migrate(rules: seq<Rule>, role: string, ctx: Context, failed: string,
      registry: set<string>) returns (r: Option<(string, string)>)
    ensures r.Some? ==> Routed(rules, role, MarkUnhealthy(ctx, failed), r.value.0, r.value.1) && r.value.0 in registry
    ensures r.Some? ==> r.value.0 != failed && r.value.0 in ctx.providers && ctx.providers[r.value.0].healthy
    ensures r.None? ==>
      || role in ctx.paused
      || (forall i :: 0 <= i < |rules| && rules[i].role == role ==> !Works(rules[i], MarkUnhealthy(ctx, failed)))
      || exists p, m :: Routed(rules, role, MarkUnhealthy(ctx, failed), p, m) && p !in registry
  {
    var marked := MarkUnhealthy(ctx, failed);
    MarkExactly(ctx, failed);
    var decided := Decide(rules, role, marked);
    if decided.Err? { return None; }
    var d := decided.value;
    assert Routed(rules, role, marked, d.provider, d.model);
    if d.provider == failed { return None; }
    if d.provider !in registry { return None; }
    r := Some((d.provider, d.model));
  }

  /** No route comes from a rule of another role or project. */
  lemma NeverOutOfPlace(rules: seq<Rule>, role: string, ctx: Context, i: nat)
    requires FirstWorking(rules, role, ctx, i)
    ensures rules[i].role == role && forall scope :: rules[i].scope == Some(scope) ==> ctx.project == Some(scope)
  {
  }

  /** Whatever the rules, no decision takes an unhealthy provider. */
  lemma NeverUnhealthy(rule: Rule, ctx: Context, failed: string, d: Decision, n: nat)
    requires Takes(rule, MarkUnhealthy(ctx, failed), d, n)
    ensures d.provider != failed && d.provider in ctx.providers && ctx.providers[d.provider].healthy
  {
  }
}
