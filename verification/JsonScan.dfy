/** Finding JSON in prose: `extract_json` (rolen-providers/src/generate.rs:47-92) and
    `salvage_tool_calls` (rolen-runtime/src/agent.rs:648-729). */
module JsonScan {
  import opened Text

  // ------------------------------------------------------------- the balanced scan

  /** Which brackets a scan counts. */
  datatype Kind = Brackets | Braces

  function Open(k: Kind): char { if k.Brackets? then '[' else '{' }
  function Close(k: Kind): char { if k.Brackets? then ']' else '}' }

  /** `in_str` and `esc`. */
  datatype Mode = Outside | Inside | Escaped

  function NextMode(m: Mode, c: char): Mode {
    match m
    case Escaped => Inside
    case Inside => if c == '\\' then Escaped else if c == '"' then Outside else Inside
    case Outside => if c == '"' then Inside else Outside
  }

  function NextDepth(k: Kind, depth: int, m: Mode, c: char): int {
    if m == Outside && c == Open(k) then depth + 1
    else if m == Outside && c == Close(k) then depth - 1
    else depth
  }

  /** The scan's state: counting, or stopped at a bracket that brought the depth to zero. */
  datatype State = Going(depth: int, mode: Mode, at: nat) | Stopped(at: nat)

  function Step(k: Kind, s: State, c: char): State {
    match s
    case Stopped(_) => s
    case Going(depth, mode, at) =>
      if mode == Outside && c == Close(k) && depth == 1 then Stopped(at)
      else Going(NextDepth(k, depth, mode, c), NextMode(mode, c), at + 1)
  }

  function Run(k: Kind, s: State, t: string): State
    decreases t
  {
    if t == "" then s else Run(k, Step(k, s, t[0]), t[1..])
  }

  const Start := Going(0, Outside, 0)

  /** How many characters after the start of `t` the scan stops, if it does. */
  function Scan(k: Kind, t: string): Option<nat> {
    match Run(k, Start, t) case Stopped(at) => Some(at) case Going(_, _, _) => None
  }

  lemma {:induction false} RunBoth(k: Kind, s: State, a: string, b: string)
    ensures Run(k, s, a + b) == Run(k, Run(k, s, a), b)
    decreases a
  {
    if a == "" {
      assert a + b == b;
    } else {
      assert (a + b)[0] == a[0] && (a + b)[1..] == a[1..] + b;
      RunBoth(k, Step(k, s, a[0]), a[1..], b);
    }
  }

  lemma RunOne(k: Kind, s: State, c: char)
    ensures Run(k, s, [c]) == Step(k, s, c)
  {
    assert [c][1..] == "";
    assert Run(k, Step(k, s, c), "") == Step(k, s, c);
  }

  lemma {:induction false} RunStopped(k: Kind, at: nat, t: string)
    ensures Run(k, Stopped(at), t) == Stopped(at)
  {
    if t != "" { RunStopped(k, at, t[1..]); }
  }

  lemma {:induction false} StopsInside(k: Kind, s: State, t: string)
    requires s.Going?
    ensures var r := Run(k, s, t);
      if r.Stopped? then s.at <= r.at < s.at + |t| && t[r.at - s.at] == Close(k) else r.at == s.at + |t|
    decreases t
  {
    if t != "" {
      var s' := Step(k, s, t[0]);
      if s'.Stopped? { RunStopped(k, s'.at, t[1..]); } else { StopsInside(k, s', t[1..]); }
    }
  }

  // ------------------------------------------------------------- JSON texts (RFC 8259)

  /** One unit of a string (section 7): an ordinary character, a two-character escape, or \u
      with four digits. */
  datatype Unit = Ordinary(c: char) | Escape(c: char) | Unicode(a: char, b: char, c: char, d: char)

  /** Values with all their insignificant whitespace (sections 2 to 5). */
  datatype Json =
    | Scalar(text: string)
    | Quoted(units: seq<Unit>)
    | Array(blank: string, elements: Elements)
    | Object(blank: string, members: Members)

  datatype Elements = NoElement | Element(before: string, value: Json, after: string, next: Elements)

  datatype Members =
    | NoMember
    | Member(before: string, name: seq<Unit>, beforeColon: string, afterColon: string, value: Json, after: string, next: Members)

  predicate Blank(t: string) {
    forall i :: 0 <= i < |t| ==> t[i] == ' ' || t[i] == '\t' || t[i] == '\n' || t[i] == '\r'
  }

  predicate HexDigit(c: char) {
    '0' <= c <= '9' || 'a' <= c <= 'f' || 'A' <= c <= 'F'
  }

  predicate UnitOk(u: Unit) {
    match u
    case Ordinary(c) => c >= ' ' && c != '"' && c != '\\'
    case Escape(c) => c in "\"\\/bfnrt"
    case Unicode(a, b, c, d) => HexDigit(a) && HexDigit(b) && HexDigit(c) && HexDigit(d)
  }

  predicate UnitsOk(us: seq<Unit>) {
    forall i :: 0 <= i < |us| ==> UnitOk(us[i])
  }

  /** Numbers and the three names (sections 3 and 6) are made of these. */
  predicate ScalarChar(c: char) {
    '0' <= c <= '9' || 'a' <= c <= 'z' || c == 'E' || c == '+' || c == '-' || c == '.'
  }

  predicate JsonOk(j: Json) {
    match j
    case Scalar(text) => text != "" && forall i :: 0 <= i < |text| ==> ScalarChar(text[i])
    case Quoted(units) => UnitsOk(units)
    case Array(blank, elements) => Blank(blank) && ElementsOk(elements)
    case Object(blank, members) => Blank(blank) && MembersOk(members)
  }

  predicate ElementsOk(e: Elements) {
    match e
    case NoElement => true
    case Element(before, value, after, next) => Blank(before) && JsonOk(value) && Blank(after) && ElementsOk(next)
  }

  predicate MembersOk(m: Members) {
    match m
    case NoMember => true
    case Member(before, name, beforeColon, afterColon, value, after, next) =>
      Blank(before) && UnitsOk(name) && Blank(beforeColon) && Blank(afterColon) && JsonOk(value) && Blank(after) && MembersOk(next)
  }

  function RenderUnit(u: Unit): string {
    match u
    case Ordinary(c) => [c]
    case Escape(c) => ['\\', c]
    case Unicode(a, b, c, d) => ['\\', 'u', a, b, c, d]
  }

  function RenderUnits(us: seq<Unit>): string {
    if us == [] then "" else RenderUnit(us[0]) + RenderUnits(us[1..])
  }

  function RenderString(us: seq<Unit>): string {
    "\"" + (RenderUnits(us) + "\"")
  }

  function Inner(j: Json): string
    requires j.Array? || j.Object?
    decreases j, 0
  {
    match j
    case Array(blank, elements) => if elements.NoElement? then blank else RenderElements(elements)
    case Object(blank, members) => if members.NoMember? then blank else RenderMembers(members)
  }

  function Render(j: Json): string
    decreases j, 1
  {
    match j
    case Scalar(text) => text
    case Quoted(units) => RenderString(units)
    case Array(_, _) => Group(Brackets, Inner(j))
    case Object(_, _) => Group(Braces, Inner(j))
  }

  function RenderElements(e: Elements): string
    decreases e, 0
  {
    match e
    case NoElement => ""
    case Element(before, value, after, next) =>
      before + (Render(value) + (after + (if next.NoElement? then "" else "," + RenderElements(next))))
  }

  function RenderMembers(m: Members): string
    decreases m, 0
  {
    match m
    case NoMember => ""
    case Member(before, name, beforeColon, afterColon, value, after, next) =>
      before + (RenderString(name) + (beforeColon + (":" + (afterColon + (Render(value) +
        (after + (if next.NoMember? then "" else "," + RenderMembers(next))))))))
  }

  // ------------------------------------------------------------- the scan passes over whole values

  /** Outside strings and inside brackets, the scan runs over `t` and is as before. */
  ghost predicate Passes(k: Kind, t: string) {
    forall depth: int, at: nat :: depth >= 1 ==> Run(k, Going(depth, Outside, at), t) == Going(depth, Outside, at + |t|)
  }

  lemma PassesBoth(k: Kind, a: string, b: string)
    requires Passes(k, a) && Passes(k, b)
    ensures Passes(k, a + b)
  {
    forall depth: int, at: nat | depth >= 1
      ensures Run(k, Going(depth, Outside, at), a + b) == Going(depth, Outside, at + |a + b|)
    {
      RunBoth(k, Going(depth, Outside, at), a, b);
      assert Run(k, Going(depth, Outside, at + |a|), b) == Going(depth, Outside, at + |a| + |b|);
    }
  }

  /** A character that is no quote and no bracket of the counted kind. */
  predicate Neutral(k: Kind, c: char) {
    c != '"' && c != Open(k) && c != Close(k)
  }

  lemma {:induction false} NeutralRun(k: Kind, t: string, depth: int, at: nat)
    requires forall i :: 0 <= i < |t| ==> Neutral(k, t[i])
    ensures Run(k, Going(depth, Outside, at), t) == Going(depth, Outside, at + |t|)
    decreases t
  {
    if t != "" {
      assert Step(k, Going(depth, Outside, at), t[0]) == Going(depth, Outside, at + 1);
      NeutralRun(k, t[1..], depth, at + 1);
    }
  }

  lemma PassesNeutral(k: Kind, t: string)
    requires forall i :: 0 <= i < |t| ==> Neutral(k, t[i])
    ensures Passes(k, t)
  {
    forall depth: int, at: nat ensures Run(k, Going(depth, Outside, at), t) == Going(depth, Outside, at + |t|) {
      NeutralRun(k, t, depth, at);
    }
  }

  predicate Plain(c: char) { c != '"' && c != '\\' }

  /** Inside a string, characters that are no quote and no backslash change nothing. */
  lemma {:induction false} PlainRun(k: Kind, t: string, depth: int, at: nat)
    requires forall i :: 0 <= i < |t| ==> Plain(t[i])
    ensures Run(k, Going(depth, Inside, at), t) == Going(depth, Inside, at + |t|)
    decreases t
  {
    if t != "" {
      assert Step(k, Going(depth, Inside, at), t[0]) == Going(depth, Inside, at + 1);
      PlainRun(k, t[1..], depth, at + 1);
    }
  }

  lemma EscapeRun(k: Kind, c: char, depth: int, at: nat)
    ensures Run(k, Going(depth, Inside, at), ['\\', c]) == Going(depth, Inside, at + 2)
  {
    RunBoth(k, Going(depth, Inside, at), ['\\'], [c]);
    RunOne(k, Going(depth, Inside, at), '\\');
    RunOne(k, Going(depth, Escaped, at + 1), c);
    assert ['\\'] + [c] == ['\\', c];
  }

  lemma UnitRun(k: Kind, u: Unit, depth: int, at: nat)
    requires UnitOk(u)
    ensures Run(k, Going(depth, Inside, at), RenderUnit(u)) == Going(depth, Inside, at + |RenderUnit(u)|)
  {
    match u
    case Ordinary(c) => PlainRun(k, [c], depth, at);
    case Escape(c) => EscapeRun(k, c, depth, at);
    case Unicode(a, b, c, d) =>
      EscapeRun(k, 'u', depth, at);
      PlainRun(k, [a, b, c, d], depth, at + 2);
      RunBoth(k, Going(depth, Inside, at), ['\\', 'u'], [a, b, c, d]);
      assert ['\\', 'u'] + [a, b, c, d] == ['\\', 'u', a, b, c, d];
  }

  lemma {:induction false} UnitsRun(k: Kind, us: seq<Unit>, depth: int, at: nat)
    requires UnitsOk(us)
    ensures Run(k, Going(depth, Inside, at), RenderUnits(us)) == Going(depth, Inside, at + |RenderUnits(us)|)
    decreases us
  {
    if us != [] {
      UnitRun(k, us[0], depth, at);
      UnitsRun(k, us[1..], depth, at + |RenderUnit(us[0])|);
      RunBoth(k, Going(depth, Inside, at), RenderUnit(us[0]), RenderUnits(us[1..]));
    }
  }

  lemma PassesString(k: Kind, us: seq<Unit>)
    requires UnitsOk(us)
    ensures Passes(k, RenderString(us))
  {
    forall depth: int, at: nat | depth >= 1
      ensures Run(k, Going(depth, Outside, at), RenderString(us)) == Going(depth, Outside, at + |RenderString(us)|)
    {
      StringRun(k, us, depth, at);
    }
  }

  lemma StringRun(k: Kind, us: seq<Unit>, depth: int, at: nat)
    requires UnitsOk(us)
    ensures Run(k, Going(depth, Outside, at), RenderString(us)) == Going(depth, Outside, at + |RenderUnits(us)| + 2)
  {
    var inner := RenderUnits(us);
    RunBoth(k, Going(depth, Outside, at), "\"", inner + "\"");
    RunOne(k, Going(depth, Outside, at), '"');
    RunBoth(k, Going(depth, Inside, at + 1), inner, "\"");
    UnitsRun(k, us, depth, at + 1);
    RunOne(k, Going(depth, Inside, at + 1 + |inner|), '"');
  }

  function OwnKind(j: Json): Kind
    requires j.Array? || j.Object?
  {
    if j.Array? then Brackets else Braces
  }

  function Group(k: Kind, inner: string): string {
    [Open(k)] + (inner + [Close(k)])
  }

  /** Over a bracketed text of the counted kind: stopped at its last character if it is the
      outermost, else as before. */
  lemma GroupRun(k: Kind, inner: string, depth: int, at: nat)
    requires Passes(k, inner) && depth >= 0
    ensures Run(k, Going(depth, Outside, at), Group(k, inner)) ==
              if depth == 0 then Stopped(at + |inner| + 1) else Going(depth, Outside, at + |inner| + 2)
  {
    RunBoth(k, Going(depth, Outside, at), [Open(k)], inner + [Close(k)]);
    RunOne(k, Going(depth, Outside, at), Open(k));
    RunBoth(k, Going(depth + 1, Outside, at + 1), inner, [Close(k)]);
    RunOne(k, Going(depth + 1, Outside, at + 1 + |inner|), Close(k));
  }

  lemma PassesGroup(k: Kind, own: Kind, inner: string)
    requires Passes(k, inner)
    ensures Passes(k, Group(own, inner))
  {
    if own == k {
      forall depth: int, at: nat | depth >= 1
        ensures Run(k, Going(depth, Outside, at), Group(own, inner)) == Going(depth, Outside, at + |Group(own, inner)|)
      {
        GroupRun(k, inner, depth, at);
      }
    } else {
      PassesNeutral(k, [Open(own)]);
      PassesNeutral(k, [Close(own)]);
      PassesBoth(k, inner, [Close(own)]);
      PassesBoth(k, [Open(own)], inner + [Close(own)]);
    }
  }

  lemma {:induction false} PassesJson(k: Kind, j: Json)
    requires JsonOk(j)
    ensures Passes(k, Render(j))
    decreases j, 1
  {
    match j
    case Scalar(text) => PassesNeutral(k, text);
    case Quoted(units) => PassesString(k, units);
    case Array(_, _) => PassesInner(k, j); PassesGroup(k, Brackets, Inner(j));
    case Object(_, _) => PassesInner(k, j); PassesGroup(k, Braces, Inner(j));
  }

  lemma {:induction false} PassesInner(k: Kind, j: Json)
    requires JsonOk(j) && (j.Array? || j.Object?)
    ensures Passes(k, Inner(j))
    decreases j, 0
  {
    match j
    case Array(blank, elements) => if elements.NoElement? { PassesNeutral(k, blank); } else { PassesElements(k, elements); }
    case Object(blank, members) => if members.NoMember? { PassesNeutral(k, blank); } else { PassesMembers(k, members); }
  }

  lemma {:induction false} PassesElements(k: Kind, e: Elements)
    requires ElementsOk(e)
    ensures Passes(k, RenderElements(e))
    decreases e, 0
  {
    match e
    case NoElement => PassesNeutral(k, "");
    case Element(before, value, after, next) =>
      var last := if next.NoElement? then "" else "," + RenderElements(next);
      if next.NoElement? { PassesNeutral(k, ""); } else {
        PassesElements(k, next);
        PassesNeutral(k, ",");
        PassesBoth(k, ",", RenderElements(next));
      }
      PassesJson(k, value);
      PassesPadded(k, before, Render(value), after, last);
  }

  lemma PassesPadded(k: Kind, before: string, t: string, after: string, last: string)
    requires Blank(before) && Blank(after) && Passes(k, t) && Passes(k, last)
    ensures Passes(k, before + (t + (after + last)))
  {
    PassesNeutral(k, before);
    PassesNeutral(k, after);
    PassesBoth(k, after, last);
    PassesBoth(k, t, after + last);
    PassesBoth(k, before, t + (after + last));
  }

  lemma {:induction false} PassesMembers(k: Kind, m: Members)
    requires MembersOk(m)
    ensures Passes(k, RenderMembers(m))
    decreases m, 0
  {
    match m
    case NoMember => PassesNeutral(k, "");
    case Member(before, name, beforeColon, afterColon, value, after, next) =>
      var last := if next.NoMember? then "" else "," + RenderMembers(next);
      if next.NoMember? { PassesNeutral(k, ""); } else {
        PassesMembers(k, next);
        PassesNeutral(k, ",");
        PassesBoth(k, ",", RenderMembers(next));
      }
      PassesJson(k, value);
      PassesString(k, name);
      PassesPadded(k, afterColon, Render(value), after, last);
      PassesNeutral(k, ":");
      PassesBoth(k, ":", afterColon + (Render(value) + (after + last)));
      PassesPadded(k, before, RenderString(name), beforeColon, ":" + (afterColon + (Render(value) + (after + last))));
  }

  /** Started at the opening bracket of any array or object, the scan stops exactly at its
      closing bracket, whatever follows. */
  lemma ScanStopsAtOwnBracket(j: Json, rest: string)
    requires JsonOk(j) && (j.Array? || j.Object?)
    ensures Scan(OwnKind(j), Render(j) + rest) == Some(|Render(j)| - 1)
  {
    var k := OwnKind(j);
    PassesInner(k, j);
    GroupRun(k, Inner(j), 0, 0);
    RunBoth(k, Start, Render(j), rest);
    RunStopped(k, |Render(j)| - 1, rest);
  }
}
