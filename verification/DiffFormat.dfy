/** What the text of a diff says, hunk by hunk: `parse_hunks` (rolen-core/src/patch.rs:61-110)
    against the format it reads. */
module DiffFormat {
  import opened Text
  import opened Patch

  /** One hunk of a diff: its header line and the lines up to the next one. */
  datatype Section = Section(header: string, body: seq<string>)

  predicate FileHeader(line: string) {
    (|line| >= 3 && (line[..3] == "---" || line[..3] == "+++")) || (|line| >= 5 && line[..5] == "diff ")
  }

  predicate HunkHeader(line: string) {
    |line| >= 2 && line[0] == '@' && line[1] == '@'
  }

  function WithoutFileHeaders(lines: seq<string>): seq<string> {
    if lines == [] then []
    else (if FileHeader(lines[0]) then [] else [lines[0]]) + WithoutFileHeaders(lines[1..])
  }

  function Laid(sections: seq<Section>): seq<string> {
    if sections == [] then [] else [sections[0].header] + sections[0].body + Laid(sections[1..])
  }

  /** Context and removed lines, a blank line passing for blank context. */
  function Expects(body: seq<string>): seq<string> {
    if body == [] then []
    else (if body[0] == "" then [""] else if body[0][0] in " -" then [body[0][1..]] else []) + Expects(body[1..])
  }

  /** Context and added lines. */
  function Leaves(body: seq<string>): seq<string> {
    if body == [] then []
    else (if body[0] == "" then [""] else if body[0][0] in " +" then [body[0][1..]] else []) + Leaves(body[1..])
  }

  predicate NoHeaders(body: seq<string>) {
    forall i :: 0 <= i < |body| ==> !HunkHeader(body[i])
  }

  predicate WellFormed(s: Section) {
    HunkHeader(s.header) && HeaderStart(s.header).Some? && NoHeaders(s.body)
  }

  predicate AllWellFormed(sections: seq<Section>) {
    forall k :: 0 <= k < |sections| ==> WellFormed(sections[k])
  }

  function HunkOf(s: Section): Hunk
    requires WellFormed(s)
  {
    Hunk(HeaderStart(s.header).value, Expects(s.body), Leaves(s.body))
  }

  function HunksIn(sections: seq<Section>): seq<Hunk>
    requires AllWellFormed(sections)
  {
    if sections == [] then [] else [HunkOf(sections[0])] + HunksIn(sections[1..])
  }

  /** The hunk `h` with the lines of `body` read on top of it. */
  function Extended(h: Hunk, body: seq<string>): Hunk {
    Hunk(h.oldStart, h.oldSide + Expects(body), h.newSide + Leaves(body))
  }

  lemma Kinds(line: string)
    ensures Skipped(line) <==> FileHeader(line)
    ensures StartsWith(line, "@@") <==> HunkHeader(line)
    ensures HunkHeader(line) ==> !FileHeader(line)
  {
    assert "---"[0] == '-' && "+++"[0] == '+' && "diff "[0] == 'd';
    if HunkHeader(line) { assert line[..2] == "@@"; }
  }

  lemma ExtendStep(h: Hunk, line: string, body: seq<string>)
    ensures Extended(h, [line] + body) == Extended(Feed(h, line), body)
  {
    var b := [line] + body;
    assert b[0] == line && b[1..] == body;
    Assoc(h.oldSide, if line == "" then [""] else if line[0] in " -" then [line[1..]] else [], Expects(body));
    Assoc(h.newSide, if line == "" then [""] else if line[0] in " +" then [line[1..]] else [], Leaves(body));
    assert h.oldSide + [] == h.oldSide && h.newSide + [] == h.newSide;
  }

  lemma ExtendNothing(h: Hunk, start: nat, body: seq<string>)
    ensures Extended(h, []) == h
    ensures Extended(Hunk(start, [], []), body) == Hunk(start, Expects(body), Leaves(body))
  {
    assert h.oldSide + [] == h.oldSide && h.newSide + [] == h.newSide;
    assert [] + Expects(body) == Expects(body) && [] + Leaves(body) == Leaves(body);
  }

  lemma LaidCons(s: Section, sections: seq<Section>)
    ensures Laid([s] + sections) == [s.header] + (s.body + Laid(sections))
  {
    assert ([s] + sections)[1..] == sections;
  }

  lemma AllCons(s: Section, sections: seq<Section>)
    requires WellFormed(s) && AllWellFormed(sections)
    ensures AllWellFormed([s] + sections)
  {
  }

  lemma HunksInCons(s: Section, sections: seq<Section>)
    requires WellFormed(s) && AllWellFormed(sections) && AllWellFormed([s] + sections)
    ensures HunksIn([s] + sections) == [HunkOf(s)] + HunksIn(sections)
  {
    assert ([s] + sections)[1..] == sections;
  }

  lemma HunksCons(hunks: seq<Hunk>, s: Section, sections: seq<Section>)
    requires WellFormed(s) && AllWellFormed(sections)
    ensures AllWellFormed([s] + sections)
    ensures hunks + HunksIn([s] + sections) == (hunks + [HunkOf(s)]) + HunksIn(sections)
  {
    AllCons(s, sections);
    HunksInCons(s, sections);
    Assoc(hunks, [HunkOf(s)], HunksIn(sections));
  }

  lemma LaidHead(sections: seq<Section>)
    requires AllWellFormed(sections) && sections != []
    ensures Laid(sections) != [] && HunkHeader(Laid(sections)[0])
  {
    assert WellFormed(sections[0]);
  }

  /** What is left to read once `cur` has been begun: the rest of its body, then sections. */
  ghost predicate Remains(lines: seq<string>, body: seq<string>, sections: seq<Section>) {
    WithoutFileHeaders(lines) == body + Laid(sections) && NoHeaders(body) && AllWellFormed(sections)
  }

  lemma KeptHead(lines: seq<string>)
    requires lines != [] && !FileHeader(lines[0])
    ensures WithoutFileHeaders(lines) == [lines[0]] + WithoutFileHeaders(lines[1..])
    ensures WithoutFileHeaders(lines)[1..] == WithoutFileHeaders(lines[1..])
  {
  }

  lemma SplitHead(line: string, rest: seq<string>, body: seq<string>, laid: seq<string>)
    requires [line] + rest == body + laid && !HunkHeader(line)
    requires laid != [] ==> HunkHeader(laid[0])
    ensures body != [] && body == [line] + body[1..] && rest == body[1..] + laid
  {
    var all := body + laid;
    assert all[0] == line && all[1..] == rest;
    assert body == [] ==> all == laid;
    assert body == all[..|body|];
  }

  lemma EmptyBody(line: string, rest: seq<string>, body: seq<string>, laid: seq<string>)
    requires [line] + rest == body + laid && HunkHeader(line) && NoHeaders(body)
    ensures body == [] && laid == [line] + rest
  {
    var all := body + laid;
    assert all[0] == line;
    assert body == [] ==> all == laid;
  }

  lemma RemainsAfterBody(lines: seq<string>, body: seq<string>, sections: seq<Section>)
    requires lines != [] && !FileHeader(lines[0]) && !HunkHeader(lines[0]) && Remains(lines, body, sections)
    ensures body != [] && body[0] == lines[0] && body == [lines[0]] + body[1..] && Remains(lines[1..], body[1..], sections)
  {
    KeptHead(lines);
    if sections != [] { LaidHead(sections); }
    SplitHead(lines[0], WithoutFileHeaders(lines[1..]), body, Laid(sections));
  }

  lemma RemainsAfterHeader(lines: seq<string>, body: seq<string>, sections: seq<Section>)
    requires lines != [] && HunkHeader(lines[0]) && Remains(lines, body, sections)
    ensures body == [] && sections != [] && sections[0].header == lines[0] && WellFormed(sections[0])
    ensures sections == [sections[0]] + sections[1..] && Remains(lines[1..], sections[0].body, sections[1..])
  {
    Kinds(lines[0]);
    KeptHead(lines);
    EmptyBody(lines[0], WithoutFileHeaders(lines[1..]), body, Laid(sections));
    assert sections == [sections[0]] + sections[1..];
    LaidCons(sections[0], sections[1..]);
  }

  /** A text laid out in sections is read as their hunks. */
  lemma {:induction false} ReadsOn(lines: seq<string>, hunks: seq<Hunk>, h: Hunk, body: seq<string>, sections: seq<Section>)
    requires Remains(lines, body, sections)
    ensures ParseLines(lines, hunks, Some(h)) == Some((hunks + [Extended(h, body)]) + HunksIn(sections))
    decreases lines
  {
    if lines == [] {
      assert body == [] && sections == [];
      ExtendNothing(h, 0, []);
      assert (hunks + [h]) + HunksIn([]) == hunks + [h];
    } else {
      var line, rest := lines[0], lines[1..];
      Kinds(line);
      if FileHeader(line) {
        ReadsOn(rest, hunks, h, body, sections);
      } else if HunkHeader(line) {
        RemainsAfterHeader(lines, body, sections);
        var s, more := sections[0], sections[1..];
        ReadsOn(rest, hunks + [h], Hunk(HeaderStart(line).value, [], []), s.body, more);
        ExtendNothing(h, HeaderStart(line).value, s.body);
        HunksCons(hunks + [h], s, more);
      } else {
        RemainsAfterBody(lines, body, sections);
        ExtendStep(h, line, body[1..]);
        ReadsOn(rest, hunks, Feed(h, line), body[1..], sections);
      }
    }
  }

  /** A text that is read is laid out in sections. */
  lemma {:induction false} WasLaidOut(lines: seq<string>, hunks: seq<Hunk>, h: Hunk)
      returns (body: seq<string>, sections: seq<Section>)
    requires ParseLines(lines, hunks, Some(h)).Some?
    ensures Remains(lines, body, sections)
    decreases lines
  {
    body, sections := [], [];
    if lines != [] {
      var line, rest := lines[0], lines[1..];
      Kinds(line);
      if FileHeader(line) {
        body, sections := WasLaidOut(rest, hunks, h);
      } else if HunkHeader(line) {
        body, sections := WasLaidOut(rest, hunks + [h], Hunk(HeaderStart(line).value, [], []));
        var s := Section(line, body);
        LaidCons(s, sections);
        assert [line] + (body + Laid(sections)) == [] + ([line] + (body + Laid(sections)));
        body, sections := [], [s] + sections;
      } else {
        body, sections := WasLaidOut(rest, hunks, Feed(h, line));
        Assoc([line], body, Laid(sections));
        body := [line] + body;
      }
    }
  }

  ghost predicate LaidOutAs(lines: seq<string>, hunks: seq<Hunk>, sections: seq<Section>) {
    WithoutFileHeaders(lines) == Laid(sections) && AllWellFormed(sections) && hunks == HunksIn(sections)
  }

  lemma {:induction false} FromTheTop(lines: seq<string>, sections: seq<Section>)
    requires WithoutFileHeaders(lines) == Laid(sections) && AllWellFormed(sections)
    ensures ParseLines(lines, [], None) == Some(HunksIn(sections))
    decreases lines
  {
    if lines == [] {
      assert sections == [] && HunksIn([]) == [];
    } else {
      var line := lines[0];
      Kinds(line);
      if FileHeader(line) {
        FromTheTop(lines[1..], sections);
      } else {
        assert WithoutFileHeaders(lines)[0] == line;
        assert sections != [] && WellFormed(sections[0]);
        assert [] + Laid(sections) == Laid(sections);
        RemainsAfterHeader(lines, [], sections);
        var s := sections[0];
        ReadsOn(lines[1..], [], Hunk(HeaderStart(line).value, [], []), s.body, sections[1..]);
        ExtendNothing(Hunk(0, [], []), HeaderStart(line).value, s.body);
        HunksCons([], s, sections[1..]);
        assert [] + HunksIn(sections) == HunksIn(sections);
      }
    }
  }

  lemma {:induction false} ToTheTop(lines: seq<string>) returns (sections: seq<Section>)
    requires ParseLines(lines, [], None).Some?
    ensures WithoutFileHeaders(lines) == Laid(sections) && AllWellFormed(sections)
    decreases lines
  {
    sections := [];
    if lines != [] {
      var line := lines[0];
      Kinds(line);
      if FileHeader(line) {
        sections := ToTheTop(lines[1..]);
      } else {
        var body, more := WasLaidOut(lines[1..], [], Hunk(HeaderStart(line).value, [], []));
        sections := [Section(line, body)] + more;
        LaidCons(Section(line, body), more);
      }
    }
  }

  /** A diff reads as `hunks` exactly when, its file headers left out, it is laid out in
      sections that say so: each begins with a hunk header, expects its context and removed lines
      and leaves its context and added lines. Any other line of a body counts for nothing. */
  lemma ParseExactly(lines: seq<string>, hunks: seq<Hunk>)
    ensures ParseLines(lines, [], None) == Some(hunks) <==> exists sections :: LaidOutAs(lines, hunks, sections)
  {
    if ParseLines(lines, [], None) == Some(hunks) {
      var sections := ToTheTop(lines);
      FromTheTop(lines, sections);
      assert LaidOutAs(lines, hunks, sections);
    }
    forall sections | LaidOutAs(lines, hunks, sections) ensures ParseLines(lines, [], None) == Some(hunks) {
      FromTheTop(lines, sections);
    }
  }

  /** A patch yields `text` exactly when the diff is laid out in one or more sections whose hunks,
      sorted, can all be placed one after another in the file's lines, and `text` is what then
      stands there; any other diff is turned down or crashes. */
  ghost predicate Yields(old_: string, diff: string, sections: seq<Section>, text: string) {
    && sections != [] && AllWellFormed(sections) && LaidOutAs(Lines(diff), HunksIn(sections), sections)
    && var patched := ApplyHunks(FileLines(old_), SortDesc(HunksIn(sections)));
    && patched.Patched? && text == FileText(patched.value, EndsInNewline(old_))
  }

  lemma PatchYieldsExactly(old_: string, diff: string, text: string)
    ensures ApplyPatch(old_, diff) == Patched(text) <==> exists sections :: Yields(old_, diff, sections, text)
  {
    var lines := Lines(diff);
    if ApplyPatch(old_, diff) == Patched(text) {
      var hunks := ParseLines(lines, [], None).value;
      ParseExactly(lines, hunks);
      var sections :| LaidOutAs(lines, hunks, sections);
      assert Yields(old_, diff, sections, text);
    }
    forall sections | Yields(old_, diff, sections, text) ensures ApplyPatch(old_, diff) == Patched(text) {
      ParseExactly(lines, HunksIn(sections));
      assert sections != [] ==> HunksIn(sections) != [];
    }
  }

  // ------------------------------------------------------------- hunk headers

  lemma {:induction false} UpToEnd(digits: string, c: char)
    requires AllDigits(digits) && !IsDigit(c)
    ensures UpTo(digits, c) == digits
  {
    if digits != "" {
      UpToEnd(digits[1..], c);
      assert digits == [digits[0]] + digits[1..];
    }
  }

  /** What may follow the start of the old range: its length, the rest of the header, nothing. */
  predicate RangeTail(tail: string) {
    tail == "" || tail[0] == ',' || IsSpace(tail[0])
  }

  lemma {:induction false} FirstWord(word: string, tail: string)
    requires word != "" && forall i :: 0 <= i < |word| ==> !IsSpace(word[i])
    ensures Words(word + tail) != [] && Words(word + tail)[0] == word + tail[..WordEnd(tail)]
  {
    var s := word + tail;
    WordEndOf(word, tail);
    assert s[0] == word[0] && s[..|word| + WordEnd(tail)] == word + tail[..WordEnd(tail)];
  }

  lemma {:induction false} WordEndOf(word: string, tail: string)
    requires forall i :: 0 <= i < |word| ==> !IsSpace(word[i])
    ensures WordEnd(word + tail) == |word| + WordEnd(tail)
  {
    if word == "" {
      assert word + tail == tail;
    } else {
      WordEndOf(word[1..], tail);
      assert (word + tail)[1..] == word[1..] + tail;
    }
  }

  lemma NumberOf(digits: string, tail: string)
    requires digits != "" && AllDigits(digits) && RangeTail(tail)
    ensures UpTo(TrimDashes("-" + (digits + tail[..WordEnd(tail)])), ',') == digits
  {
    var more := tail[..WordEnd(tail)];
    var word := "-" + (digits + more);
    assert word[1..] == digits + more && (digits + more)[0] == digits[0] && IsDigit(digits[0]);
    assert TrimDashes(word) == digits + more;
    if more == "" {
      assert digits + more == digits;
      UpToEnd(digits, ',');
    } else {
      assert more == [','] + more[1..];
      UpToDelimiter(digits, ',', more[1..]);
    }
  }

  lemma SecondWord(word: string, rest: string)
    requires word != "" && forall i :: 0 <= i < |word| ==> !IsSpace(word[i])
    ensures Words(word + (" " + rest)) == [word] + Words(rest)
  {
    var s := word + (" " + rest);
    WordEndOf(word, " " + rest);
    assert s[0] == word[0] && s[..|word|] == word && s[|word|..] == " " + rest;
    assert (" " + rest)[1..] == rest;
  }

  lemma RangeWord(n: nat, tail: string)
    ensures var words := Words(("-" + Decimal(n)) + tail);
            words != [] && words[0] == "-" + (Decimal(n) + tail[..WordEnd(tail)])
  {
    var word := "-" + Decimal(n);
    forall i | 0 <= i < |word| ensures !IsSpace(word[i]) {
      if i > 0 { assert IsDigit(Decimal(n)[i - 1]); }
    }
    FirstWord(word, tail);
    Assoc("-", Decimal(n), tail[..WordEnd(tail)]);
  }

  /** A hunk header gives the start of its old range, with or without a length and whatever
      follows, unless the number does not fit 64 bits. */
  lemma HeaderReads(n: nat, tail: string)
    requires RangeTail(tail)
    ensures HeaderStart("@@" + (" " + (("-" + Decimal(n)) + tail))) == if n < USIZE_LIMIT then Some(n) else None
  {
    SecondWord("@@", ("-" + Decimal(n)) + tail);
    RangeWord(n, tail);
    NumberOf(Decimal(n), tail);
    ValueOfDecimal(n);
    assert IsDigit(Decimal(n)[0]);
  }
}
