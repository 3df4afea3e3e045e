/** `apply_patch` (rolen-core/src/patch.rs): locating hunks, splicing them bottom-up,
    rejecting what matches nowhere or ambiguously. */
module Patch {
  import opened Text

  datatype Hunk = Hunk(oldStart: nat, oldSide: seq<string>, newSide: seq<string>)

  /** `OutOfRange` is the slice panic of a hunk longer than the file. */
  datatype Located = Nowhere | At(pos: nat) | OutOfRange

  datatype Outcome<+T> = Crash | Reject | Patched(value: T)

  // ---------------------------------------------------------------- locating

  /** The declared position, 0-based, saturating at the top of the file. */
  function Declared(h: Hunk): nat {
    if h.oldStart == 0 then 0 else h.oldStart - 1
  }

  predicate MatchesAt(lines: seq<string>, needle: seq<string>, p: nat) {
    p + |needle| <= |lines| && lines[p..p + |needle|] == needle
  }

  ghost predicate OnlyMatch(lines: seq<string>, needle: seq<string>, p: nat) {
    MatchesAt(lines, needle, p) && forall q: nat :: MatchesAt(lines, needle, q) ==> q == p
  }

  /** Where a hunk goes: at its declared position if it matches there, else at its only match. */
  ghost function Locate(lines: seq<string>, h: Hunk): Located {
    if h.oldSide == [] then At(if Declared(h) <= |lines| then Declared(h) else |lines|)
    else if |h.oldSide| > |lines| then OutOfRange
    else if MatchesAt(lines, h.oldSide, Declared(h)) then At(Declared(h))
    else if exists p: nat :: OnlyMatch(lines, h.oldSide, p) then
      var p: nat :| OnlyMatch(lines, h.oldSide, p);
      At(p)
    else Nowhere
  }

  /** `locate`: every offset is tried and the matches are collected in order. */
  method FindHunk(lines: seq<string>, h: Hunk) returns (r: Located)
    ensures r == Locate(lines, h)
  {
    var needle := h.oldSide;
    if needle == [] {
      return At(if Declared(h) <= |lines| then Declared(h) else |lines|);
    }
    if |needle| > |lines| {
      return OutOfRange;  // the first slice already ends past the file
    }
    var matches: seq<nat> := [];
    for start := 0 to |lines| - |needle| + 1
      invariant forall q :: 0 <= q < start ==> (q in matches <==> MatchesAt(lines, needle, q))
      invariant forall i :: 0 <= i < |matches| ==> 0 <= matches[i] < start
      invariant forall i, j :: 0 <= i < j < |matches| ==> matches[i] < matches[j]
    {
      if lines[start..start + |needle|] == needle {
        matches := matches + [start];
      }
    }
    assert forall q: nat :: MatchesAt(lines, needle, q) <==> q in matches;
    if |matches| > 1 {
      assert matches[0] != matches[1] && matches[0] in matches && matches[1] in matches;
      if Declared(h) in matches { return At(Declared(h)); } else { return Nowhere; }
    }
    if matches == [] { return Nowhere; }
    assert OnlyMatch(lines, needle, matches[0]);
    return At(matches[0]);
  }

  /** The slice panics exactly on a non-empty old side longer than the file. */
  lemma LocateCrashesExactly(lines: seq<string>, h: Hunk)
    ensures Locate(lines, h).OutOfRange? <==> h.oldSide != [] && |h.oldSide| > |lines|
    ensures Locate(lines, h).Nowhere? <==>
            && 0 < |h.oldSide| <= |lines| && !MatchesAt(lines, h.oldSide, Declared(h))
            && !exists p: nat :: OnlyMatch(lines, h.oldSide, p)
    ensures Locate(lines, h).At? ==> MatchesAt(lines, h.oldSide, Locate(lines, h).pos)
  {
    if h.oldSide == [] {
      var p := Locate(lines, h).pos;
      assert lines[p..p] == [];
    }
  }

  /** A hunk goes to its declared line if it matches there, and else only where it alone matches;
      one without old lines goes to its declared line or, beyond the end, to the end. */
  lemma LocatesExactly(lines: seq<string>, h: Hunk, p: nat)
    ensures Locate(lines, h) == At(p) <==>
      && MatchesAt(lines, h.oldSide, p)
      && (|| p == Declared(h)
          || (h.oldSide == [] && p == |lines| < Declared(h))
          || (h.oldSide != [] && !MatchesAt(lines, h.oldSide, Declared(h)) && OnlyMatch(lines, h.oldSide, p)))
  {
    if h.oldSide == [] && p <= |lines| { assert lines[p..p] == []; }
  }

  /** A zero-length hunk numbered the POSIX way (the line it follows) lands where it
      belongs only at the top of the file. */
  lemma PosixInsertionPoint(lines: seq<string>, added: seq<string>, after: nat)
    requires after <= |lines|
    ensures Locate(lines, Hunk(after, [], added)) == At(after) <==> after == 0
  {
  }

  // ---------------------------------------------------------------- splicing

  function Splice(lines: seq<string>, pos: nat, h: Hunk): seq<string>
    requires pos + |h.oldSide| <= |lines|
  {
    lines[..pos] + h.newSide + lines[pos + |h.oldSide|..]
  }

  /** The hunks applied in the given order, all or nothing. */
  ghost function ApplyHunks(lines: seq<string>, hunks: seq<Hunk>): Outcome<seq<string>>
    decreases hunks
  {
    if hunks == [] then Patched(lines)
    else
      LocateCrashesExactly(lines, hunks[0]);
      match Locate(lines, hunks[0])
      case OutOfRange => Crash
      case Nowhere => Reject
      case At(pos) => ApplyHunks(Splice(lines, pos, hunks[0]), hunks[1..])
  }

  /** Stable insertion for `sort_by_key(Reverse(old_start))`. */
  function InsertDesc(h: Hunk, hunks: seq<Hunk>): (r: seq<Hunk>)
    ensures multiset(r) == multiset{h} + multiset(hunks)
  {
    if hunks == [] || h.oldStart >= hunks[0].oldStart then [h] + hunks
    else
      assert hunks == [hunks[0]] + hunks[1..];
      [hunks[0]] + InsertDesc(h, hunks[1..])
  }

  function SortDesc(hunks: seq<Hunk>): (r: seq<Hunk>)
    ensures multiset(r) == multiset(hunks)
  {
    if hunks == [] then []
    else
      assert hunks == [hunks[0]] + hunks[1..];
      InsertDesc(hunks[0], SortDesc(hunks[1..]))
  }

  predicate Descending(hunks: seq<Hunk>) {
    forall i, j :: 0 <= i < j < |hunks| ==> hunks[i].oldStart >= hunks[j].oldStart
  }

  predicate Ascending(hunks: seq<Hunk>) {
    forall i, j :: 0 <= i < j < |hunks| ==> hunks[i].oldStart < hunks[j].oldStart
  }

  lemma {:induction false} InsertDescends(h: Hunk, hunks: seq<Hunk>)
    requires Descending(hunks)
    ensures Descending(InsertDesc(h, hunks))
  {
    if hunks != [] && h.oldStart < hunks[0].oldStart {
      InsertDescends(h, hunks[1..]);
      var tail := InsertDesc(h, hunks[1..]);
      forall j | 0 <= j < |tail| ensures tail[j].oldStart <= hunks[0].oldStart {
        assert tail[j] in multiset(tail);
        assert tail[j] == h || tail[j] in hunks[1..];
      }
    }
  }

  lemma {:induction false} SortDescends(hunks: seq<Hunk>)
    ensures Descending(SortDesc(hunks))
  {
    if hunks != [] {
      SortDescends(hunks[1..]);
      InsertDescends(hunks[0], SortDesc(hunks[1..]));
    }
  }

  function Reversed(hunks: seq<Hunk>): seq<Hunk> {
    if hunks == [] then []
    else
      var n := |hunks| - 1;
      [hunks[n]] + Reversed(hunks[..n])
  }

  lemma {:induction false} ReversedDescends(hunks: seq<Hunk>)
    requires Ascending(hunks)
    ensures StrictlyDescending(Reversed(hunks)) && multiset(Reversed(hunks)) == multiset(hunks)
  {
    if hunks != [] {
      var n := |hunks| - 1;
      var init := hunks[..n];
      ReversedDescends(init);
      assert hunks == init + [hunks[n]];
      forall j | 0 <= j < |Reversed(init)| ensures Reversed(init)[j].oldStart < hunks[n].oldStart {
        assert Reversed(init)[j] in multiset(init);
      }
    }
  }

  predicate StrictlyDescending(hunks: seq<Hunk>) {
    forall i, j :: 0 <= i < j < |hunks| ==> hunks[i].oldStart > hunks[j].oldStart
  }

  lemma SameFirst(x: seq<Hunk>, y: seq<Hunk>)
    requires multiset(x) == multiset(y) && Descending(x) && StrictlyDescending(y) && x != []
    ensures y != [] && x[0] == y[0]
  {
    assert x[0] in multiset(y);
    var i :| 0 <= i < |y| && y[i] == x[0];
    assert y[0] in multiset(x);
    var j :| 0 <= j < |x| && x[j] == y[0];
    assert x[0].oldStart >= x[j].oldStart;
  }

  lemma TailMultiset(x: seq<Hunk>)
    requires x != []
    ensures multiset(x[1..]) == multiset(x) - multiset{x[0]}
  {
    assert x == [x[0]] + x[1..];
  }

  lemma {:induction false} DescendingUnique(x: seq<Hunk>, y: seq<Hunk>)
    requires multiset(x) == multiset(y) && Descending(x) && StrictlyDescending(y)
    ensures x == y
  {
    if x == [] {
      assert |y| == |multiset(y)|;
    } else {
      SameFirst(x, y);
      TailMultiset(x);
      TailMultiset(y);
      DescendingUnique(x[1..], y[1..]);
    }
  }

  /** Whatever order hunks with distinct starts are listed in, they are applied bottom-up. */
  lemma SortIsBottomUp(hunks: seq<Hunk>, listed: seq<Hunk>)
    requires Ascending(hunks) && multiset(listed) == multiset(hunks)
    ensures SortDesc(listed) == Reversed(hunks)
  {
    SortDescends(listed);
    ReversedDescends(hunks);
    DescendingUnique(SortDesc(listed), Reversed(hunks));
  }

  /** The hunks declared at line `n`, in their order. */
  function DeclaredAt(hunks: seq<Hunk>, n: nat): seq<Hunk> {
    if hunks == [] then [] else (if hunks[0].oldStart == n then [hunks[0]] else []) + DeclaredAt(hunks[1..], n)
  }

  lemma DeclaredCons(h: Hunk, hunks: seq<Hunk>, n: nat)
    ensures DeclaredAt([h] + hunks, n) == (if h.oldStart == n then [h] else []) + DeclaredAt(hunks, n)
  {
    assert ([h] + hunks)[1..] == hunks;
  }

  lemma {:induction false} InsertIsStable(h: Hunk, hunks: seq<Hunk>, n: nat)
    ensures DeclaredAt(InsertDesc(h, hunks), n) == (if h.oldStart == n then [h] else []) + DeclaredAt(hunks, n)
  {
    DeclaredCons(h, hunks, n);
    if hunks != [] && h.oldStart < hunks[0].oldStart {
      InsertIsStable(h, hunks[1..], n);
      DeclaredCons(hunks[0], InsertDesc(h, hunks[1..]), n);
    }
  }

  /** The sort puts later starts first, loses no hunk and keeps hunks with one start in the order
      the diff lists them in. */
  lemma {:induction false} SortIsStable(hunks: seq<Hunk>, n: nat)
    ensures Descending(SortDesc(hunks)) && multiset(SortDesc(hunks)) == multiset(hunks)
    ensures DeclaredAt(SortDesc(hunks), n) == DeclaredAt(hunks, n)
  {
    SortDescends(hunks);
    if hunks != [] {
      SortIsStable(hunks[1..], n);
      InsertIsStable(hunks[0], SortDesc(hunks[1..]), n);
    }
  }

  // ------------------------------------------------------- merging with other edits

  /** At every stage the next hunk's non-empty old side occurs exactly once. */
  ghost predicate UnambiguousStages(lines: seq<string>, hunks: seq<Hunk>)
    decreases hunks
  {
    hunks == [] ||
    (hunks[0].oldSide != [] && exists p: nat ::
       && OnlyMatch(lines, hunks[0].oldSide, p)
       && UnambiguousStages(Splice(lines, p, hunks[0]), hunks[1..]))
  }

  lemma MatchShifts(pre: seq<string>, lines: seq<string>, post: seq<string>, needle: seq<string>, p: nat)
    requires MatchesAt(lines, needle, p)
    ensures MatchesAt(pre + lines + post, needle, |pre| + p)
  {
    assert (pre + lines + post)[|pre| + p..|pre| + p + |needle|] == lines[p..p + |needle|];
  }

  /** One stage of two runs that differ by surrounding lines. */
  lemma StageShifts(pre: seq<string>, lines: seq<string>, post: seq<string>, h: Hunk, p: nat, q: nat)
    requires h.oldSide != []
    requires OnlyMatch(lines, h.oldSide, p) && OnlyMatch(pre + lines + post, h.oldSide, q)
    ensures Locate(lines, h) == At(p) && Locate(pre + lines + post, h) == At(q)
    ensures Splice(pre + lines + post, q, h) == pre + Splice(lines, p, h) + post
  {
    MatchShifts(pre, lines, post, h.oldSide, p);
  }

  /** Edits above and below do not disturb a patch whose context stays unambiguous:
      patching the edited file is editing the patched file. */
  lemma {:induction false} MergeCommutes(pre: seq<string>, lines: seq<string>, post: seq<string>, hunks: seq<Hunk>)
    requires UnambiguousStages(lines, hunks)
    requires UnambiguousStages(pre + lines + post, hunks)
    ensures ApplyHunks(lines, hunks).Patched?
    ensures ApplyHunks(pre + lines + post, hunks) == Patched(pre + ApplyHunks(lines, hunks).value + post)
    decreases hunks
  {
    if hunks != [] {
      var h := hunks[0];
      var p: nat :| OnlyMatch(lines, h.oldSide, p) && UnambiguousStages(Splice(lines, p, h), hunks[1..]);
      var q: nat :| OnlyMatch(pre + lines + post, h.oldSide, q)
        && UnambiguousStages(Splice(pre + lines + post, q, h), hunks[1..]);
      StageShifts(pre, lines, post, h, p, q);
      MergeCommutes(pre, Splice(lines, p, h), post, hunks[1..]);
    }
  }

  // ---------------------------------------------------------------- parsing

  predicate StartsWith(s: string, prefix: string) {
    prefix <= s
  }

  /** File headers, and every body line that happens to look like one. */
  predicate Skipped(line: string) {
    StartsWith(line, "---") || StartsWith(line, "+++") || StartsWith(line, "diff ")
  }

  /** Unicode `White_Space`. */
  predicate IsSpace(c: char) {
    || '\U{9}' <= c <= '\U{D}' || c == ' ' || c == '\U{85}' || c == '\U{A0}' || c == '\U{1680}'
    || '\U{2000}' <= c <= '\U{200A}' || c == '\U{2028}' || c == '\U{2029}' || c == '\U{202F}'
    || c == '\U{205F}' || c == '\U{3000}'
  }

  function WordEnd(s: string): (n: nat)
    ensures n <= |s|
    ensures forall i :: 0 <= i < n ==> !IsSpace(s[i])
    ensures n < |s| ==> IsSpace(s[n])
  {
    if s == "" || IsSpace(s[0]) then 0 else 1 + WordEnd(s[1..])
  }

  /** `split_whitespace()`. */
  function Words(s: string): seq<string> {
    if s == "" then []
    else if IsSpace(s[0]) then Words(s[1..])
    else
      var n := WordEnd(s);
      [s[..n]] + Words(s[n..])
  }

  /** `trim_start_matches('-')`. */
  function TrimDashes(s: string): string {
    if s != "" && s[0] == '-' then TrimDashes(s[1..]) else s
  }

  const USIZE_LIMIT: nat := 0x1_0000_0000_0000_0000

  /** `parse::<usize>()`: an optional plus sign, then digits that fit 64 bits. */
  function ParseUsize(s: string): Option<nat> {
    var digits := if s != "" && s[0] == '+' then s[1..] else s;
    if digits == "" || !AllDigits(digits) || Value(digits) >= USIZE_LIMIT then None
    else Some(Value(digits))
  }

  /** `@@ -old_start[,old_len] +new_start[,new_len] @@` */
  function HeaderStart(line: string): Option<nat> {
    var words := Words(line);
    if |words| < 2 then None else ParseUsize(UpTo(TrimDashes(words[1]), ','))
  }

  function Feed(h: Hunk, line: string): Hunk {
    if line == "" then Hunk(h.oldStart, h.oldSide + [""], h.newSide + [""])
    else if line[0] == ' ' then Hunk(h.oldStart, h.oldSide + [line[1..]], h.newSide + [line[1..]])
    else if line[0] == '-' then Hunk(h.oldStart, h.oldSide + [line[1..]], h.newSide)
    else if line[0] == '+' then Hunk(h.oldStart, h.oldSide, h.newSide + [line[1..]])
    else h
  }

  function Flush(hunks: seq<Hunk>, cur: Option<Hunk>): seq<Hunk> {
    match cur
    case None => hunks
    case Some(h) => hunks + [h]
  }

  function ParseLines(lines: seq<string>, hunks: seq<Hunk>, cur: Option<Hunk>): Option<seq<Hunk>> {
    if lines == [] then Some(Flush(hunks, cur))
    else if Skipped(lines[0]) then ParseLines(lines[1..], hunks, cur)
    else if StartsWith(lines[0], "@@") then
      match HeaderStart(lines[0])
      case None => None
      case Some(n) => ParseLines(lines[1..], Flush(hunks, cur), Some(Hunk(n, [], [])))
    else match cur
      case None => None
      case Some(h) => ParseLines(lines[1..], hunks, Some(Feed(h, lines[0])))
  }

  /** `parse_hunks`. */
  method ParseHunks(diff: string) returns (r: Option<seq<Hunk>>)
    ensures r == ParseLines(Lines(diff), [], None)
  {
    var lines := Lines(diff);
    var hunks: seq<Hunk> := [];
    var cur: Option<Hunk> := None;
    var i := 0;
    while i < |lines|
      invariant 0 <= i <= |lines|
      invariant ParseLines(lines[i..], hunks, cur) == ParseLines(lines, [], None)
    {
      var line := lines[i];
      assert lines[i..][1..] == lines[i + 1..];
      i := i + 1;
      if Skipped(line) { continue; }
      if StartsWith(line, "@@") {
        if cur.Some? { hunks := hunks + [cur.value]; cur := None; }
        var start := HeaderStart(line);
        if start.None? { return None; }
        cur := Some(Hunk(start.value, [], []));
        continue;
      }
      if cur.None? { return None; }
      cur := Some(Feed(cur.value, line));
    }
    if cur.Some? { hunks := hunks + [cur.value]; }
    r := Some(hunks);
  }

  // ---------------------------------------------------------------- whole files

  predicate EndsInNewline(s: string) {
    s == "" || s[|s| - 1] == '\n'
  }

  /** The lines the patch works on: no carriage returns, no phantom last line. */
  function FileLines(old_: string): seq<string> {
    var lines := StripAll(Split(old_));
    if EndsInNewline(old_) && lines[|lines| - 1] == "" then lines[..|lines| - 1] else lines
  }

  function FileText(lines: seq<string>, newline: bool): string {
    Join(lines) + (if newline then "\n" else "")
  }

  /** What a patch makes of a file. */
  ghost function ApplyPatch(old_: string, diff: string): Outcome<string> {
    match ParseLines(Lines(diff), [], None)
    case None => Reject
    case Some(hunks) =>
      if hunks == [] then Reject
      else match ApplyHunks(FileLines(old_), SortDesc(hunks))
        case Crash => Crash
        case Reject => Reject
        case Patched(lines) => Patched(FileText(lines, EndsInNewline(old_)))
  }

  // ---------------------------------------------------------------- crashes

  /** The lines that hunks add, less those they take away. */
  function Growth(hunks: seq<Hunk>): int {
    if hunks == [] then 0 else |hunks[0].newSide| - |hunks[0].oldSide| + Growth(hunks[1..])
  }

  /** A patched text is as much longer as the hunks add lines: `Growth` is what the crash
      condition below has to count with. */
  lemma {:induction false} LengthAfter(lines: seq<string>, hunks: seq<Hunk>)
    requires ApplyHunks(lines, hunks).Patched?
    ensures |ApplyHunks(lines, hunks).value| == |lines| + Growth(hunks)
    decreases hunks
  {
    if hunks != [] {
      LocateCrashesExactly(lines, hunks[0]);
      LengthAfter(Splice(lines, Locate(lines, hunks[0]).pos, hunks[0]), hunks[1..]);
    }
  }

  /** All hunks before number `k` find their place, and hunk `k` is longer than the text has
      become by then. */
  ghost predicate CrashesAt(lines: seq<string>, hunks: seq<Hunk>, k: nat) {
    && k < |hunks| && ApplyHunks(lines, hunks[..k]).Patched?
    && |hunks[k].oldSide| > |lines| + Growth(hunks[..k])
  }

  lemma CrashLater(lines: seq<string>, hunks: seq<Hunk>, pos: nat, k: nat)
    requires 0 < k < |hunks| && Locate(lines, hunks[0]) == At(pos) && pos + |hunks[0].oldSide| <= |lines|
    ensures CrashesAt(lines, hunks, k) <==> CrashesAt(Splice(lines, pos, hunks[0]), hunks[1..], k - 1)
  {
    assert hunks[..k][0] == hunks[0] && hunks[..k][1..] == hunks[1..][..k - 1] && hunks[1..][k - 1] == hunks[k];
  }

  lemma {:induction false} HunksCrashExactly(lines: seq<string>, hunks: seq<Hunk>)
    ensures ApplyHunks(lines, hunks).Crash? <==> exists k: nat :: CrashesAt(lines, hunks, k)
    decreases hunks
  {
    if hunks != [] {
      assert hunks[..0] == [];
      LocateCrashesExactly(lines, hunks[0]);
      var at := Locate(lines, hunks[0]);
      if at.At? {
        HunksCrashExactly(Splice(lines, at.pos, hunks[0]), hunks[1..]);
        forall k: nat | 0 < k < |hunks|
          ensures CrashesAt(lines, hunks, k) <==> CrashesAt(Splice(lines, at.pos, hunks[0]), hunks[1..], k - 1)
        {
          CrashLater(lines, hunks, at.pos, k);
        }
        if ApplyHunks(lines, hunks).Crash? {
          var k: nat :| CrashesAt(Splice(lines, at.pos, hunks[0]), hunks[1..], k);
          CrashLater(lines, hunks, at.pos, k + 1);
        }
      } else {
        forall k: nat | 0 < k < |hunks| ensures !CrashesAt(lines, hunks, k) {
          assert hunks[..k][0] == hunks[0];
        }
        assert at.OutOfRange? ==> CrashesAt(lines, hunks, 0);
      }
    }
  }

  /** Some hunk, all those sorted before it located, is longer than the text it meets. */
  ghost predicate Overreaches(old_: string, hunks: seq<Hunk>) {
    exists k: nat :: CrashesAt(FileLines(old_), SortDesc(hunks), k)
  }

  /** A patch panics exactly when some hunk of the sorted diff, all before it located, is longer
      than the text it meets. */
  lemma PatchCrashesExactly(old_: string, diff: string)
    ensures ApplyPatch(old_, diff).Crash? <==>
      var parsed := ParseLines(Lines(diff), [], None);
      parsed.Some? && Overreaches(old_, parsed.value)
  {
    var parsed := ParseLines(Lines(diff), [], None);
    if parsed.Some? { HunksCrashExactly(FileLines(old_), SortDesc(parsed.value)); }
  }

  /** The splicing loop of `apply_patch`. */
  method SpliceAll(start: seq<string>, ordered: seq<Hunk>) returns (r: Outcome<seq<string>>)
    ensures r == ApplyHunks(start, ordered)
  {
    var lines := start;
    var i := 0;
    while i < |ordered|
      invariant 0 <= i <= |ordered|
      invariant ApplyHunks(lines, ordered[i..]) == ApplyHunks(start, ordered)
    {
      var h := ordered[i];
      assert ordered[i..][1..] == ordered[i + 1..];
      var at := FindHunk(lines, h);
      LocateCrashesExactly(lines, h);
      match at {
        case OutOfRange => return Crash;
        case Nowhere => return Reject;
        case At(pos) => lines := lines[..pos] + h.newSide + lines[pos + |h.oldSide|..];
      }
      i := i + 1;
    }
    r := Patched(lines);
  }

  /** `apply_patch`. */
  method RunPatch(old_: string, diff: string) returns (r: Outcome<string>)
    ensures r == ApplyPatch(old_, diff)
  {
    var parsed := ParseHunks(diff);
    if parsed.None? || parsed.value == [] { return Reject; }
    var lines := StripAll(Split(old_));
    var newline := EndsInNewline(old_);
    if newline && lines[|lines| - 1] == "" { lines := lines[..|lines| - 1]; }
    var spliced := SpliceAll(lines, SortDesc(parsed.value));
    match spliced {
      case Crash => return Crash;
      case Reject => return Reject;
      case Patched(new_) =>
        var out := Join(new_);
        assert out + "" == out;
        if newline { out := out + "\n"; }
        return Patched(out);
    }
  }
}
