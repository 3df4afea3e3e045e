/** `simple_diff` (rolen-core/src/patch.rs): the line diff behind regeneration previews.
    The preview is proved to be a shortest edit script between the two texts. */
module LineDiff {
  import opened Text

  datatype Edit = Keep(line: string) | Remove(line: string) | Add(line: string)

  /** The lines a script expects to find: kept and removed ones. */
  function OldSide(script: seq<Edit>): seq<string> {
    if script == [] then []
    else (if script[0].Add? then [] else [script[0].line]) + OldSide(script[1..])
  }

  /** The lines a script produces: kept and added ones. */
  function NewSide(script: seq<Edit>): seq<string> {
    if script == [] then []
    else (if script[0].Remove? then [] else [script[0].line]) + NewSide(script[1..])
  }

  function Kept(script: seq<Edit>): seq<string> {
    if script == [] then []
    else (if script[0].Keep? then [script[0].line] else []) + Kept(script[1..])
  }

  /** Removed plus added lines. */
  function Cost(script: seq<Edit>): nat {
    if script == [] then 0
    else (if script[0].Keep? then 0 else 1) + Cost(script[1..])
  }

  predicate Rebuilds(script: seq<Edit>, a: seq<string>, b: seq<string>) {
    OldSide(script) == a && NewSide(script) == b
  }

  // ------------------------------------------------- longest common subsequence

  /** `s` is what remains of `a` after deleting some lines. */
  predicate Subsequence(s: seq<string>, a: seq<string>) {
    s == [] || (a != [] && ((s[0] == a[0] && Subsequence(s[1..], a[1..])) || Subsequence(s, a[1..])))
  }

  predicate Common(s: seq<string>, a: seq<string>, b: seq<string>) {
    Subsequence(s, a) && Subsequence(s, b)
  }

  function Max(x: nat, y: nat): nat { if x >= y then x else y }

  /** The recurrence that fills the table. */
  function Lcs(a: seq<string>, b: seq<string>): nat {
    if a == [] || b == [] then 0
    else if a[0] == b[0] then Lcs(a[1..], b[1..]) + 1
    else Max(Lcs(a[1..], b), Lcs(a, b[1..]))
  }

  lemma {:induction false} SubsequenceTail(s: seq<string>, a: seq<string>)
    requires s != [] && Subsequence(s, a)
    ensures a != [] && Subsequence(s[1..], a)
    decreases a
  {
    if !(s[0] == a[0] && Subsequence(s[1..], a[1..])) {
      SubsequenceTail(s, a[1..]);
    }
    if s[1..] != [] { assert Subsequence(s[1..], a[1..]); }
  }

  /** Nothing common to both texts is longer than the recurrence says. */
  lemma {:induction false} LcsIsUpperBound(s: seq<string>, a: seq<string>, b: seq<string>)
    requires Common(s, a, b)
    ensures |s| <= Lcs(a, b)
    decreases |a| + |b|
  {
    if s != [] {
      if a[0] == b[0] {
        if s[0] == a[0] {
          if !Subsequence(s[1..], a[1..]) { SubsequenceTail(s, a[1..]); }
          if !Subsequence(s[1..], b[1..]) { SubsequenceTail(s, b[1..]); }
          LcsIsUpperBound(s[1..], a[1..], b[1..]);
        } else {
          LcsIsUpperBound(s, a[1..], b[1..]);
        }
      } else if Subsequence(s, a[1..]) {
        LcsIsUpperBound(s, a[1..], b);
      } else {
        assert s[0] == a[0];
        LcsIsUpperBound(s, a, b[1..]);
      }
    }
  }

  // ------------------------------------------------------------ the script

  function Removals(a: seq<string>): seq<Edit> {
    if a == [] then [] else [Remove(a[0])] + Removals(a[1..])
  }

  function Additions(b: seq<string>): seq<Edit> {
    if b == [] then [] else [Add(b[0])] + Additions(b[1..])
  }

  /** The walk through the table; ties go to the removal. */
  function Script(a: seq<string>, b: seq<string>): seq<Edit> {
    if a == [] then Additions(b)
    else if b == [] then Removals(a)
    else if a[0] == b[0] then [Keep(a[0])] + Script(a[1..], b[1..])
    else if Lcs(a[1..], b) >= Lcs(a, b[1..]) then [Remove(a[0])] + Script(a[1..], b)
    else [Add(b[0])] + Script(a, b[1..])
  }

  lemma {:induction false} ScriptRebuilds(a: seq<string>, b: seq<string>)
    ensures Rebuilds(Script(a, b), a, b)
    ensures |Kept(Script(a, b))| == Lcs(a, b)
    decreases |a| + |b|
  {
    if a == [] {
      if b != [] { ScriptRebuilds(a, b[1..]); }
    } else if b == [] {
      ScriptRebuilds(a[1..], b);
    } else if a[0] == b[0] {
      ScriptRebuilds(a[1..], b[1..]);
    } else if Lcs(a[1..], b) >= Lcs(a, b[1..]) {
      ScriptRebuilds(a[1..], b);
    } else {
      ScriptRebuilds(a, b[1..]);
    }
  }

  /** What any script keeps is common to both sides, and the rest is its cost. */
  lemma {:induction false} KeptIsCommon(script: seq<Edit>)
    ensures Common(Kept(script), OldSide(script), NewSide(script))
    ensures Cost(script) + 2 * |Kept(script)| == |OldSide(script)| + |NewSide(script)|
  {
    if script != [] {
      var e, rest := script[0], script[1..];
      KeptIsCommon(rest);
      var kept, olds, news := Kept(rest), OldSide(rest), NewSide(rest);
      assert ([e.line] + kept)[1..] == kept && ([e.line] + olds)[1..] == olds && ([e.line] + news)[1..] == news;
      assert Kept(script) == if e.Keep? then [e.line] + kept else kept;
      assert OldSide(script) == if e.Add? then olds else [e.line] + olds;
      assert NewSide(script) == if e.Remove? then news else [e.line] + news;
    }
  }

  /** The table holds true longest-common-subsequence lengths. */
  lemma LcsIsLongest(a: seq<string>, b: seq<string>)
    ensures exists s :: Common(s, a, b) && |s| == Lcs(a, b)
    ensures forall s :: Common(s, a, b) ==> |s| <= Lcs(a, b)
    ensures Lcs(a, b) <= |a| && Lcs(a, b) <= |b|
  {
    ScriptRebuilds(a, b);
    KeptIsCommon(Script(a, b));
    assert Common(Kept(Script(a, b)), a, b);
    forall s | Common(s, a, b) ensures |s| <= Lcs(a, b) { LcsIsUpperBound(s, a, b); }
    LcsBounded(a, b);
  }

  lemma {:induction false} LcsBounded(a: seq<string>, b: seq<string>)
    ensures Lcs(a, b) <= |a| && Lcs(a, b) <= |b|
    decreases |a| + |b|
  {
    if a != [] && b != [] {
      LcsBounded(a[1..], b[1..]);
      LcsBounded(a[1..], b);
      LcsBounded(a, b[1..]);
    }
  }

  /** No script between the same texts removes and adds fewer lines. */
  lemma ScriptIsMinimal(a: seq<string>, b: seq<string>, other: seq<Edit>)
    requires Rebuilds(other, a, b)
    ensures Cost(Script(a, b)) <= Cost(other)
  {
    ScriptRebuilds(a, b);
    KeptIsCommon(Script(a, b));
    KeptIsCommon(other);
    LcsIsUpperBound(Kept(other), a, b);
  }

  /** No addition directly before a removal. */
  predicate RemovalsFirst(script: seq<Edit>) {
    forall k :: 0 <= k < |script| - 1 ==> !(script[k].Add? && script[k + 1].Remove?)
  }

  lemma FirstCons(e: Edit, rest: seq<Edit>)
    requires RemovalsFirst(rest) && (e.Add? && rest != [] ==> !rest[0].Remove?)
    ensures RemovalsFirst([e] + rest)
  {
  }

  /** In every stretch of changed lines the preview shows the removals before the additions. */
  lemma {:induction false} ScriptRemovesFirst(a: seq<string>, b: seq<string>)
    ensures RemovalsFirst(Script(a, b))
    decreases |a| + |b|
  {
    if a == [] {
      if b != [] { ScriptRemovesFirst(a, b[1..]); }
    } else if b == [] {
      ScriptRemovesFirst(a[1..], b);
    } else if a[0] == b[0] {
      ScriptRemovesFirst(a[1..], b[1..]);
      FirstCons(Keep(a[0]), Script(a[1..], b[1..]));
    } else if Lcs(a[1..], b) >= Lcs(a, b[1..]) {
      ScriptRemovesFirst(a[1..], b);
      FirstCons(Remove(a[0]), Script(a[1..], b));
    } else {
      ScriptRemovesFirst(a, b[1..]);
      LcsLoses(a[1..], b);
      FirstCons(Add(b[0]), Script(a, b[1..]));
    }
  }

  /** Fewer lines have no longer common subsequence. */
  lemma LcsLoses(a: seq<string>, b: seq<string>)
    requires b != []
    ensures Lcs(a, b[1..]) <= Lcs(a, b)
  {
    LcsIsLongest(a, b[1..]);
    var s :| Common(s, a, b[1..]) && |s| == Lcs(a, b[1..]);
    LcsIsUpperBound(s, a, b);
  }

  // ------------------------------------------------------------ the preview

  function Mark(e: Edit): string {
    match e
    case Keep(line) => "  " + line
    case Remove(line) => "- " + line
    case Add(line) => "+ " + line
  }

  function Render(script: seq<Edit>): string {
    if script == [] then "" else Mark(script[0]) + "\n" + Render(script[1..])
  }

  /** How a reader takes one preview line. */
  function Unmark(line: string): Edit {
    if |line| < 2 then Keep(line)
    else if line[0] == '-' then Remove(line[2..])
    else if line[0] == '+' then Add(line[2..])
    else Keep(line[2..])
  }

  function UnmarkAll(lines: seq<string>): seq<Edit> {
    if lines == [] then [] else [Unmark(lines[0])] + UnmarkAll(lines[1..])
  }

  /** The script a reader sees in a preview. */
  function ReadPreview(out: string): seq<Edit> {
    var pieces := Split(out);
    UnmarkAll(pieces[..|pieces| - 1])
  }

  predicate OneLineEdits(script: seq<Edit>) {
    forall i :: 0 <= i < |script| ==> OneLine(script[i].line)
  }

  lemma {:induction false} ScriptOneLine(a: seq<string>, b: seq<string>)
    requires AllOneLine(a) && AllOneLine(b)
    ensures OneLineEdits(Script(a, b))
    decreases |a| + |b|
  {
    if a == [] {
      if b != [] { ScriptOneLine(a, b[1..]); }
    } else if b == [] {
      ScriptOneLine(a[1..], b);
    } else {
      ScriptOneLine(a[1..], b[1..]);
      ScriptOneLine(a[1..], b);
      ScriptOneLine(a, b[1..]);
    }
  }

  lemma SplitRendered(head: string, tail: string)
    requires OneLine(head)
    ensures Split(head + "\n" + tail) == [head] + Split(tail)
    ensures var all, rest := Split(head + "\n" + tail), Split(tail);
            all[..|all| - 1] == [head] + rest[..|rest| - 1]
  {
    SplitLine(head, tail);
    var rest := Split(tail);
    assert ([head] + rest)[..|rest|] == [head] + rest[..|rest| - 1];
  }

  lemma UnmarkMore(head: string, lines: seq<string>)
    ensures UnmarkAll([head] + lines) == [Unmark(head)] + UnmarkAll(lines)
  {
    assert ([head] + lines)[1..] == lines;
  }

  lemma ReadMore(head: string, tail: string)
    requires OneLine(head)
    ensures ReadPreview(head + "\n" + tail) == [Unmark(head)] + ReadPreview(tail)
  {
    var rest := Split(tail);
    SplitRendered(head, tail);
    UnmarkMore(head, rest[..|rest| - 1]);
  }

  lemma {:induction false} ReadRendered(script: seq<Edit>)
    requires OneLineEdits(script)
    ensures ReadPreview(Render(script)) == script
  {
    if script != [] {
      ReadRendered(script[1..]);
      ReadMore(Mark(script[0]), Render(script[1..]));
      UnmarkMark(script[0]);
    }
  }

  lemma UnmarkMark(e: Edit)
    ensures Unmark(Mark(e)) == e
  {
    assert ("  " + e.line)[2..] == e.line && ("- " + e.line)[2..] == e.line && ("+ " + e.line)[2..] == e.line;
  }

  lemma RenderStep(printed: string, e: Edit, rest: seq<Edit>)
    ensures printed + Render([e] + rest) == (printed + (Mark(e) + "\n")) + Render(rest)
  {
    assert ([e] + rest)[1..] == rest;
    Assoc(printed, Mark(e) + "\n", Render(rest));
  }

  // ------------------------------------------------------------ the loops

  /** Longest common subsequence of the two suffixes: one cell of the table. */
  function Cell(a: seq<string>, b: seq<string>, i: nat, j: nat): nat
    requires i <= |a| && j <= |b|
  {
    Lcs(a[i..], b[j..])
  }

  lemma CellStep(a: seq<string>, b: seq<string>, i: nat, j: nat)
    requires i < |a| && j < |b|
    ensures Cell(a, b, i, j) ==
            if a[i] == b[j] then Cell(a, b, i + 1, j + 1) + 1
            else Max(Cell(a, b, i + 1, j), Cell(a, b, i, j + 1))
  {
    assert a[i..][1..] == a[i + 1..] && b[j..][1..] == b[j + 1..];
  }

  ghost predicate IsTable(dp: array2<nat>, a: seq<string>, b: seq<string>)
    reads dp
  {
    && dp.Length0 == |a| + 1 && dp.Length1 == |b| + 1
    && forall i, j :: 0 <= i <= |a| && 0 <= j <= |b| ==> dp[i, j] == Cell(a, b, i, j)
  }

  /** The table of `simple_diff`, filled from the far corner. */
  method FillTable(a: seq<string>, b: seq<string>) returns (dp: array2<nat>)
    ensures IsTable(dp, a, b)
  {
    dp := new nat[|a| + 1, |b| + 1]((i, j) => 0);
    var i := |a|;
    while i > 0
      invariant 0 <= i <= |a|
      invariant forall p, q :: i <= p <= |a| && 0 <= q <= |b| ==> dp[p, q] == Cell(a, b, p, q)
      invariant forall p :: 0 <= p < i ==> dp[p, |b|] == 0
    {
      i := i - 1;
      var j := |b|;
      while j > 0
        invariant 0 <= j <= |b|
        invariant forall p, q :: i < p <= |a| && 0 <= q <= |b| ==> dp[p, q] == Cell(a, b, p, q)
        invariant forall p :: 0 <= p < i ==> dp[p, |b|] == 0
        invariant forall q :: j <= q <= |b| ==> dp[i, q] == Cell(a, b, i, q)
      {
        j := j - 1;
        CellStep(a, b, i, j);
        dp[i, j] := if a[i] == b[j] then dp[i + 1, j + 1] + 1 else Max(dp[i + 1, j], dp[i, j + 1]);
      }
    }
  }

  /** The part of the script still to be walked from (i, j), one edit at a time. */
  lemma ScriptStep(a: seq<string>, b: seq<string>, i: nat, j: nat)
    requires i <= |a| && j <= |b| && (i < |a| || j < |b|)
    ensures Script(a[i..], b[j..]) ==
            if i == |a| then [Add(b[j])] + Script(a[i..], b[j + 1..])
            else if j == |b| then [Remove(a[i])] + Script(a[i + 1..], b[j..])
            else if a[i] == b[j] then [Keep(a[i])] + Script(a[i + 1..], b[j + 1..])
            else if Cell(a, b, i + 1, j) >= Cell(a, b, i, j + 1) then [Remove(a[i])] + Script(a[i + 1..], b[j..])
            else [Add(b[j])] + Script(a[i..], b[j + 1..])
  {
    if i < |a| { assert a[i..][1..] == a[i + 1..]; }
    if j < |b| { assert b[j..][1..] == b[j + 1..]; }
  }

  method DiffLines(a: seq<string>, b: seq<string>) returns (out: string)
    ensures out == Render(Script(a, b))
  {
    var dp := FillTable(a, b);
    var i, j;
    out, i, j := WalkTable(a, b, dp);
    assert Script(a[i..], b[j..]) == if i < |a| then Removals(a[i..]) else Additions(b[j..]);
    if i < |a| { out := PrintRemovals(out, a[i..]); } else { out := PrintAdditions(out, b[j..]); }
  }

  /** The walk along the table, until one of the texts is used up. */
  method WalkTable(a: seq<string>, b: seq<string>, dp: array2<nat>) returns (out: string, i: nat, j: nat)
    requires IsTable(dp, a, b)
    ensures i <= |a| && j <= |b| && (i == |a| || j == |b|)
    ensures out + Render(Script(a[i..], b[j..])) == Render(Script(a, b))
  {
    out, i, j := "", 0, 0;
    assert a[0..] == a && b[0..] == b;
    while i < |a| && j < |b|
      invariant i <= |a| && j <= |b|
      invariant out + Render(Script(a[i..], b[j..])) == Render(Script(a, b))
      decreases |a| - i + |b| - j
    {
      ScriptStep(a, b, i, j);
      if a[i] == b[j] {
        RenderStep(out, Keep(a[i]), Script(a[i + 1..], b[j + 1..]));
        out := out + (("  " + a[i]) + "\n");
        i, j := i + 1, j + 1;
      } else if dp[i + 1, j] >= dp[i, j + 1] {
        RenderStep(out, Remove(a[i]), Script(a[i + 1..], b[j..]));
        out := out + (("- " + a[i]) + "\n");
        i := i + 1;
      } else {
        RenderStep(out, Add(b[j]), Script(a[i..], b[j + 1..]));
        out := out + (("+ " + b[j]) + "\n");
        j := j + 1;
      }
    }
  }

  /** The old lines that are left when the new text is used up. */
  method PrintRemovals(printed: string, lines: seq<string>) returns (out: string)
    ensures out == printed + Render(Removals(lines))
  {
    out := printed;
    var i := 0;
    while i < |lines|
      invariant 0 <= i <= |lines|
      invariant out + Render(Removals(lines[i..])) == printed + Render(Removals(lines))
    {
      assert lines[i..][1..] == lines[i + 1..];
      RenderStep(out, Remove(lines[i]), Removals(lines[i + 1..]));
      out := out + (("- " + lines[i]) + "\n");
      i := i + 1;
    }
    assert out + "" == out;
  }

  /** The new lines that are left when the old text is used up. */
  method PrintAdditions(printed: string, lines: seq<string>) returns (out: string)
    ensures out == printed + Render(Additions(lines))
  {
    out := printed;
    var j := 0;
    while j < |lines|
      invariant 0 <= j <= |lines|
      invariant out + Render(Additions(lines[j..])) == printed + Render(Additions(lines))
    {
      assert lines[j..][1..] == lines[j + 1..];
      RenderStep(out, Add(lines[j]), Additions(lines[j + 1..]));
      out := out + (("+ " + lines[j]) + "\n");
      j := j + 1;
    }
    assert out + "" == out;
  }

  /** `simple_diff`: what the reader of the preview sees rebuilds both texts and
      is as short as any script that does. */
  method SimpleDiff(old_: string, new_: string) returns (out: string)
    ensures out == Render(Script(Lines(old_), Lines(new_)))
    ensures Rebuilds(ReadPreview(out), Lines(old_), Lines(new_))
    ensures forall other :: Rebuilds(other, Lines(old_), Lines(new_)) ==> Cost(ReadPreview(out)) <= Cost(other)
  {
    var a, b := Lines(old_), Lines(new_);
    out := DiffLines(a, b);
    ScriptOneLine(a, b);
    ReadRendered(Script(a, b));
    ScriptRebuilds(a, b);
    forall other | Rebuilds(other, a, b) ensures Cost(Script(a, b)) <= Cost(other) {
      ScriptIsMinimal(a, b, other);
    }
  }
}
