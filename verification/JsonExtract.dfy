/** Finding JSON in prose: `extract_json` (rolen-providers/src/generate.rs:47-92) and
    `salvage_tool_calls` (rolen-runtime/src/agent.rs:648-729), over any parser. */
module JsonExtract {
  import opened Text
  import opened JsonScan

  // ------------------------------------------------------------- extract_json

  /** The value that starts at `i`: the balanced slice there, if it parses. */
  function Candidate<V>(text: string, k: Kind, parse: string -> Option<V>, i: nat): Option<V>
    requires i < |text|
  {
    if text[i] != Open(k) then None
    else
      StopsInside(k, Start, text[i..]);
      match Scan(k, text[i..])
      case None => None
      case Some(n) => parse(text[i..i + n + 1])
  }

  /** The inner loop: `j` is where it leaves off; `closed` is its `depth == 0`. */
  method BalancedFrom(text: string, k: Kind, i: nat) returns (closed: bool, j: nat)
    requires i < |text| && text[i] == Open(k)
    ensures closed <==> Scan(k, text[i..]).Some?
    ensures closed ==> i <= j < |text| && Scan(k, text[i..]) == Some(j - i)
  {
    var depth, mode := 0, Outside;
    j := i;
    while j < |text|
      invariant i <= j <= |text|
      invariant Run(k, Start, text[i..]) == Run(k, Going(depth, mode, j - i), text[j..])
      invariant if j == i then depth == 0 && mode == Outside else depth > 0
    {
      assert text[j..][0] == text[j] && text[j..][1..] == text[j + 1..];
      var c := text[j];
      if mode == Escaped {
        mode := Inside;
      } else if mode == Inside {
        if c == '\\' { mode := Escaped; } else if c == '"' { mode := Outside; }
      } else if c == '"' {
        mode := Inside;
      } else if c == Open(k) {
        depth := depth + 1;
      } else if c == Close(k) {
        depth := depth - 1;
        if depth == 0 {
          RunStopped(k, j - i, text[j + 1..]);
          break;
        }
      }
      j := j + 1;
    }
    closed := depth == 0;
  }

  function Wanted(wantArray: bool): Kind { if wantArray then Brackets else Braces }

  /** `extract_json` returns the value of the least start index that has one. */
  method ExtractJson<V>(text: string, wantArray: bool, parse: string -> Option<V>) returns (r: Option<V>)
    ensures r.None? ==> forall i :: 0 <= i < |text| ==> Candidate(text, Wanted(wantArray), parse, i).None?
    ensures r.Some? ==> exists i :: 0 <= i < |text| && FirstAt(text, Wanted(wantArray), parse, i) && Candidate(text, Wanted(wantArray), parse, i) == r
  {
    var k := Wanted(wantArray);
    var i := 0;
    while i < |text|
      invariant 0 <= i <= |text|
      invariant forall h :: 0 <= h < i ==> Candidate(text, k, parse, h).None?
    {
      if text[i] == Open(k) {
        var closed, j := BalancedFrom(text, k, i);
        if closed {
          var v := parse(text[i..j + 1]);
          assert Candidate(text, k, parse, i) == v;
          if v.Some? {
            assert FirstAt(text, k, parse, i);
            return v;
          }
        }
      }
      i := i + 1;
    }
    r := None;
  }

  ghost predicate FirstAt<V>(text: string, k: Kind, parse: string -> Option<V>, i: nat)
    requires i < |text|
  {
    Candidate(text, k, parse, i).Some? && forall h :: 0 <= h < i ==> Candidate(text, k, parse, h).None?
  }

  /** A document of the wanted kind in prose without its opening bracket before it is found,
      and it alone. */
  lemma FindsEmbedded<V>(before: string, j: Json, after: string, parse: string -> Option<V>)
    requires JsonOk(j) && (j.Array? || j.Object?) && parse(Render(j)).Some?
    requires Open(OwnKind(j)) !in before
    ensures var text := before + (Render(j) + after);
      |before| < |text| && FirstAt(text, OwnKind(j), parse, |before|) && Candidate(text, OwnKind(j), parse, |before|) == parse(Render(j))
  {
    var text := before + (Render(j) + after);
    var i := |before|;
    assert text[i..] == Render(j) + after;
    ScanStopsAtOwnBracket(j, after);
    assert text[i..i + |Render(j)|] == Render(j);
    assert text[i] == (Render(j) + after)[0];
    forall h | 0 <= h < i ensures Candidate(text, OwnKind(j), parse, h).None? {
      assert text[h] == before[h];
    }
  }

  // ------------------------------------------------------------- salvage_tool_calls

  datatype Call<V> = Call(id: string, name: string, args: V)

  /** What the salvage asks of a parsed value: its items if it is an array, and its name and
      arguments if it has both. */
  datatype Reader<!V> = Reader(
    parse: string -> Option<V>,
    items: V -> Option<seq<V>>,
    call: V -> Option<(string, V)>)

  predicate Known(name: string) {
    name in {"read_file", "list_dir", "search", "run_shell", "submit_write", "ask_user"}
  }

  /** `try_value` */
  function TryValue<V>(r: Reader<V>, v: V, out: seq<Call<V>>): seq<Call<V>> {
    match r.call(v)
    case None => out
    case Some(c) => if Known(c.0) then out + [Call("salvaged_" + Decimal(|out|), c.0, c.1)] else out
  }

  function TryAll<V>(r: Reader<V>, vs: seq<V>, out: seq<Call<V>>): seq<Call<V>>
    decreases vs
  {
    if vs == [] then out else TryAll(r, vs[1..], TryValue(r, vs[0], out))
  }

  function Whole<V>(r: Reader<V>, v: V): seq<Call<V>> {
    match r.items(v) case Some(vs) => TryAll(r, vs, []) case None => TryValue(r, v, [])
  }

  /** One turn of the scan for embedded objects: a balanced slice is taken whole, parsed or not. */
  function Turn<V>(r: Reader<V>, text: string, i: nat, out: seq<Call<V>>): (t: (nat, seq<Call<V>>))
    requires i < |text|
    ensures i < t.0 <= |text|
  {
    if text[i] != '{' then (i + 1, out)
    else
      StopsInside(Braces, Start, text[i..]);
      match Scan(Braces, text[i..])
      case None => (i + 1, out)
      case Some(n) => (i + n + 1, match r.parse(text[i..i + n + 1]) case Some(v) => TryValue(r, v, out) case None => out)
  }

  function Embedded<V>(r: Reader<V>, text: string, i: nat, out: seq<Call<V>>): seq<Call<V>>
    requires i <= |text|
    decreases |text| - i
  {
    if i == |text| then out else var (i', out') := Turn(r, text, i, out); Embedded(r, text, i', out')
  }

  function Salvage<V>(r: Reader<V>, text: string, trimmed: string): seq<Call<V>> {
    var whole := match r.parse(trimmed) case Some(v) => Whole(r, v) case None => [];
    if whole != [] then whole else Embedded(r, text, 0, [])
  }

  method SalvageToolCalls<V>(r: Reader<V>, text: string, trimmed: string) returns (out: seq<Call<V>>)
    ensures out == Salvage(r, text, trimmed)
  {
    out := [];
    var parsed := r.parse(trimmed);
    if parsed.Some? {
      var items := r.items(parsed.value);
      if items.Some? {
        var vs, n := items.value, 0;
        while n < |vs|
          invariant 0 <= n <= |vs|
          invariant TryAll(r, vs[n..], out) == TryAll(r, vs, [])
        {
          assert vs[n..][0] == vs[n] && vs[n..][1..] == vs[n + 1..];
          out := TryValue(r, vs[n], out);
          n := n + 1;
        }
      } else {
        out := TryValue(r, parsed.value, out);
      }
      if out != [] { return; }
    }
    var i := 0;
    while i < |text|
      invariant 0 <= i <= |text|
      invariant Embedded(r, text, i, out) == Embedded(r, text, 0, [])
    {
      if text[i] == '{' {
        var closed, j := BalancedFrom(text, Braces, i);
        if closed {
          var v := r.parse(text[i..j + 1]);
          if v.Some? { out := TryValue(r, v.value, out); }
          i := j + 1;
        } else {
          i := i + 1;
        }
      } else {
        i := i + 1;
      }
    }
  }

  /** Every call is of a known tool and numbered by its place. */
  predicate Numbered<V>(out: seq<Call<V>>) {
    forall n :: 0 <= n < |out| ==> out[n].id == "salvaged_" + Decimal(n) && Known(out[n].name)
  }

  lemma {:induction false} TryAllNumbers<V>(r: Reader<V>, vs: seq<V>, out: seq<Call<V>>)
    requires Numbered(out)
    ensures Numbered(TryAll(r, vs, out))
    decreases vs
  {
    if vs != [] { TryAllNumbers(r, vs[1..], TryValue(r, vs[0], out)); }
  }

  lemma {:induction false} EmbeddedNumbers<V>(r: Reader<V>, text: string, i: nat, out: seq<Call<V>>)
    requires i <= |text| && Numbered(out)
    ensures Numbered(Embedded(r, text, i, out))
    decreases |text| - i
  {
    if i < |text| {
      var (i', out') := Turn(r, text, i, out);
      EmbeddedNumbers(r, text, i', out');
    }
  }

  /** Salvaged calls are of known tools and no two of them share an id. */
  lemma SalvagedIdsAreUnique<V>(r: Reader<V>, text: string, trimmed: string)
    ensures var out := Salvage(r, text, trimmed);
      (forall n :: 0 <= n < |out| ==> Known(out[n].name))
      && (forall m, n :: 0 <= m < n < |out| ==> out[m].id != out[n].id)
  {
    var out := Salvage(r, text, trimmed);
    match r.parse(trimmed) {
      case Some(v) => match r.items(v) { case Some(vs) => TryAllNumbers(r, vs, []); case None => }
      case None =>
    }
    EmbeddedNumbers(r, text, 0, []);
    assert Numbered(out);
    forall m, n | 0 <= m < n < |out| ensures out[m].id != out[n].id {
      SalvagedIdsDiffer(m, n);
    }
  }

  lemma SalvagedIdsDiffer(m: nat, n: nat)
    requires m != n
    ensures "salvaged_" + Decimal(m) != "salvaged_" + Decimal(n)
  {
    ValueOfDecimal(m);
    ValueOfDecimal(n);
    var prefix := "salvaged_";
    assert (prefix + Decimal(m))[|prefix|..] == Decimal(m);
    assert (prefix + Decimal(n))[|prefix|..] == Decimal(n);
  }

  lemma {:induction false} NoBraceNoCall<V>(r: Reader<V>, text: string, i: nat, out: seq<Call<V>>)
    requires i <= |text| && '{' !in text[i..]
    ensures Embedded(r, text, i, out) == out
    decreases |text| - i
  {
    if i < |text| {
      assert text[i] == text[i..][0];
      assert text[i + 1..] == text[i..][1..];
      NoBraceNoCall(r, text, i + 1, out);
    }
  }

  lemma {:induction false} SkipsProse<V>(r: Reader<V>, text: string, i: nat, to: nat, out: seq<Call<V>>)
    requires i <= to <= |text| && forall h :: i <= h < to ==> text[h] != '{'
    ensures Embedded(r, text, i, out) == Embedded(r, text, to, out)
    decreases |text| - i
  {
    if i < to { SkipsProse(r, text, i + 1, to, out); }
  }

  /** Objects in prose, and what follows the last of them. */
  function Prose(parts: seq<(string, Json)>, after: string): string {
    if parts == [] then after else parts[0].0 + (Render(parts[0].1) + Prose(parts[1..], after))
  }

  /** The prose opens no brace of its own. */
  predicate PlainProse(parts: seq<(string, Json)>, after: string) {
    && '{' !in after
    && forall k :: 0 <= k < |parts| ==> '{' !in parts[k].0 && JsonOk(parts[k].1) && parts[k].1.Object?
  }

  /** The calls among the objects, from left to right. */
  function Recovered<V>(r: Reader<V>, parts: seq<(string, Json)>, out: seq<Call<V>>): seq<Call<V>>
    decreases parts
  {
    if parts == [] then out
    else
      Recovered(r, parts[1..], match r.parse(Render(parts[0].1)) case Some(v) => TryValue(r, v, out) case None => out)
  }

  /** The turn at an object's own brace takes in exactly that object. */
  lemma TurnTakesObject<V>(r: Reader<V>, text: string, i: nat, j: Json, rest: string, out: seq<Call<V>>)
    requires i <= |text| && text[i..] == Render(j) + rest && JsonOk(j) && j.Object?
    ensures i < |text| && i + |Render(j)| <= |text| && text[i + |Render(j)|..] == rest
    ensures Turn(r, text, i, out)
         == (i + |Render(j)|, match r.parse(Render(j)) case Some(v) => TryValue(r, v, out) case None => out)
  {
    assert Render(j)[0] == '{';
    assert text[i] == text[i..][0];
    ScanStopsAtOwnBracket(j, rest);
    assert text[i..i + |Render(j)|] == text[i..][..|Render(j)|] == Render(j);
    assert text[i + |Render(j)|..] == text[i..][|Render(j)|..] == rest;
  }

  lemma {:induction false} EmbeddedInProse<V>(r: Reader<V>, text: string, i: nat, parts: seq<(string, Json)>,
      after: string, out: seq<Call<V>>)
    requires i <= |text| && text[i..] == Prose(parts, after) && PlainProse(parts, after)
    ensures Embedded(r, text, i, out) == Recovered(r, parts, out)
    decreases |parts|
  {
    if parts == [] {
      NoBraceNoCall(r, text, i, out);
    } else {
      var (before, j) := parts[0];
      var rest, at := Prose(parts[1..], after), i + |before|;
      assert text[at..] == text[i..][|before|..] == Render(j) + rest;
      forall h | i <= h < at ensures text[h] != '{' { assert text[h] == text[i..][h - i] == before[h - i]; }
      SkipsProse(r, text, i, at, out);
      TurnTakesObject(r, text, at, j, rest, out);
      var (next, out') := Turn(r, text, at, out);
      assert forall k :: 0 <= k < |parts[1..]| ==> parts[1..][k] == parts[k + 1];
      EmbeddedInProse(r, text, next, parts[1..], after, out');
    }
  }

  /** The call that a value holds, if it is one of a known tool. */
  function Offered<V>(r: Reader<V>, v: V): seq<(string, V)> {
    match r.call(v) case None => [] case Some(c) => if Known(c.0) then [c] else []
  }

  function OfferedBy<V>(r: Reader<V>, vs: seq<V>): seq<(string, V)> {
    if vs == [] then [] else Offered(r, vs[0]) + OfferedBy(r, vs[1..])
  }

  /** Tool names and arguments of calls. */
  function Payloads<V>(out: seq<Call<V>>): seq<(string, V)> {
    seq(|out|, n requires 0 <= n < |out| => (out[n].name, out[n].args))
  }

  /** The values of the objects that parse. */
  function Values<V>(r: Reader<V>, parts: seq<(string, Json)>): seq<V> {
    if parts == [] then []
    else (match r.parse(Render(parts[0].1)) case Some(v) => [v] case None => []) + Values(r, parts[1..])
  }

  /** The values of a text that is JSON as a whole: the items of an array, or the one value. */
  function WholeValues<V>(r: Reader<V>, text: string): seq<V> {
    match r.parse(text)
    case None => []
    case Some(v) => match r.items(v) case Some(vs) => vs case None => [v]
  }

  lemma TryOffers<V>(r: Reader<V>, v: V, out: seq<Call<V>>)
    ensures Payloads(TryValue(r, v, out)) == Payloads(out) + Offered(r, v)
  {
  }

  lemma {:induction false} TryAllOffers<V>(r: Reader<V>, vs: seq<V>, out: seq<Call<V>>)
    ensures Payloads(TryAll(r, vs, out)) == Payloads(out) + OfferedBy(r, vs)
    decreases vs
  {
    if vs != [] {
      TryOffers(r, vs[0], out);
      TryAllOffers(r, vs[1..], TryValue(r, vs[0], out));
      Assoc(Payloads(out), Offered(r, vs[0]), OfferedBy(r, vs[1..]));
    }
  }

  lemma OneOffers<V>(r: Reader<V>, v: V)
    ensures OfferedBy(r, [v]) == Offered(r, v)
  {
    assert [v][1..] == [];
  }

  lemma {:induction false} RecoveredOffers<V>(r: Reader<V>, parts: seq<(string, Json)>, out: seq<Call<V>>)
    ensures Payloads(Recovered(r, parts, out)) == Payloads(out) + OfferedBy(r, Values(r, parts))
    decreases parts
  {
    if parts != [] {
      var rest := Values(r, parts[1..]);
      match r.parse(Render(parts[0].1))
      case Some(v) =>
        TryOffers(r, v, out);
        RecoveredOffers(r, parts[1..], TryValue(r, v, out));
        assert ([v] + rest)[1..] == rest;
        Assoc(Payloads(out), Offered(r, v), OfferedBy(r, rest));
      case None =>
        RecoveredOffers(r, parts[1..], out);
        assert Values(r, parts) == [] + rest == rest;
    }
  }

  lemma WholeOffers<V>(r: Reader<V>, v: V)
    ensures Payloads(Whole(r, v)) == OfferedBy(r, match r.items(v) case Some(vs) => vs case None => [v])
  {
    match r.items(v)
    case Some(vs) => TryAllOffers(r, vs, []);
    case None =>
      TryOffers(r, v, []);
      OneOffers(r, v);
  }

  /** Calls written as JSON objects in prose are recovered exactly, in order, and nothing else
      is, unless the whole text is itself JSON that holds calls, and then exactly those are. */
  lemma SalvagesEmbedded<V>(r: Reader<V>, parts: seq<(string, Json)>, after: string, trimmed: string)
    requires PlainProse(parts, after)
    ensures var whole := OfferedBy(r, WholeValues(r, trimmed));
      Payloads(Salvage(r, Prose(parts, after), trimmed)) == if whole != [] then whole else OfferedBy(r, Values(r, parts))
  {
    var text := Prose(parts, after);
    assert text[0..] == text;
    EmbeddedInProse(r, text, 0, parts, after, []);
    RecoveredOffers(r, parts, []);
    var parsed := r.parse(trimmed);
    if parsed.Some? {
      WholeOffers(r, parsed.value);
      assert Payloads(Whole(r, parsed.value)) == [] <==> Whole(r, parsed.value) == [];
    }
  }
}
