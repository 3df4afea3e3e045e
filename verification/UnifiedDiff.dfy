/** Unified diffs as text: which edit scripts survive being written down as a diff and
    applied again by `apply_patch` (rolen-core/src/patch.rs). */
module UnifiedDiff {
  import opened Text
  import opened Patch
  import opened LineDiff
  import F = DiffFormat

  /** An edit script cut into hunks: stretches outside every hunk, and hunk bodies. */
  datatype Piece = Untouched(lines: seq<string>) | Change(body: seq<Edit>)

  function PieceOld(piece: Piece): seq<string> {
    match piece case Untouched(lines) => lines case Change(body) => OldSide(body)
  }

  function PieceNew(piece: Piece): seq<string> {
    match piece case Untouched(lines) => lines case Change(body) => NewSide(body)
  }

  function OldOf(pieces: seq<Piece>): seq<string> {
    if pieces == [] then [] else PieceOld(pieces[0]) + OldOf(pieces[1..])
  }

  function NewOf(pieces: seq<Piece>): seq<string> {
    if pieces == [] then [] else PieceNew(pieces[0]) + NewOf(pieces[1..])
  }

  function PieceHunk(piece: Piece, offset: nat): seq<Hunk> {
    match piece
    case Untouched(_) => []
    case Change(body) => [Hunk(offset + 1, OldSide(body), NewSide(body))]
  }

  /** The hunks of a cut script that starts `offset` lines into the old text. */
  function HunksOf(pieces: seq<Piece>, offset: nat): seq<Hunk> {
    if pieces == [] then []
    else PieceHunk(pieces[0], offset) + HunksOf(pieces[1..], offset + |PieceOld(pieces[0])|)
  }

  predicate AnchoredHunks(pieces: seq<Piece>) {
    forall i :: 0 <= i < |pieces| && pieces[i].Change? ==> OldSide(pieces[i].body) != []
  }

  // ------------------------------------------------------------- applying

  lemma {:induction false} SidesSnoc(pieces: seq<Piece>, last: Piece)
    ensures OldOf(pieces + [last]) == OldOf(pieces) + PieceOld(last)
    ensures NewOf(pieces + [last]) == NewOf(pieces) + PieceNew(last)
  {
    if pieces == [] {
      assert pieces + [last] == [last];
    } else {
      SidesSnoc(pieces[1..], last);
      assert (pieces + [last])[1..] == pieces[1..] + [last];
      Assoc(PieceOld(pieces[0]), OldOf(pieces[1..]), PieceOld(last));
      Assoc(PieceNew(pieces[0]), NewOf(pieces[1..]), PieceNew(last));
    }
  }

  lemma HunksCons(piece: Piece, rest: seq<Piece>, offset: nat)
    ensures HunksOf([piece] + rest, offset) == PieceHunk(piece, offset) + HunksOf(rest, offset + |PieceOld(piece)|)
  {
    assert ([piece] + rest)[1..] == rest;
  }

  lemma {:induction false} HunksSnoc(pieces: seq<Piece>, last: Piece, offset: nat)
    ensures HunksOf(pieces + [last], offset) == HunksOf(pieces, offset) + PieceHunk(last, offset + |OldOf(pieces)|)
    decreases pieces
  {
    HunksSnocAt(pieces, last, offset, offset + |OldOf(pieces)|);
  }

  lemma ConsSnoc(pieces: seq<Piece>, last: Piece)
    requires pieces != []
    ensures pieces + [last] == [pieces[0]] + (pieces[1..] + [last]) && pieces == [pieces[0]] + pieces[1..]
  {
  }

  lemma {:induction false} HunksSnocAt(pieces: seq<Piece>, last: Piece, offset: nat, at: nat)
    requires at == offset + |OldOf(pieces)|
    ensures HunksOf(pieces + [last], offset) == HunksOf(pieces, offset) + PieceHunk(last, at)
    decreases pieces
  {
    if pieces == [] {
      HunksCons(last, [], offset);
      assert pieces + [last] == [last] + [];
    } else {
      var first, rest := pieces[0], pieces[1..];
      var next := offset + |PieceOld(first)|;
      var tail, end := HunksOf(rest, next), PieceHunk(last, at);
      HunksSnocAt(rest, last, next, at);
      ConsSnoc(pieces, last);
      HunksCons(first, rest + [last], offset);
      HunksCons(first, rest, offset);
      Assoc(PieceHunk(first, offset), tail, end);
    }
  }

  /** All hunks start after line `offset`. */
  predicate StartAfter(hunks: seq<Hunk>, offset: nat) {
    forall i :: 0 <= i < |hunks| ==> hunks[i].oldStart > offset
  }

  lemma AscendCons(h: Hunk, hunks: seq<Hunk>)
    requires Ascending(hunks) && StartAfter(hunks, h.oldStart)
    ensures Ascending([h] + hunks)
  {
  }

  lemma AnchoredTail(pieces: seq<Piece>)
    requires AnchoredHunks(pieces) && pieces != []
    ensures AnchoredHunks(pieces[1..])
  {
    assert forall i :: 0 <= i < |pieces[1..]| ==> pieces[1..][i] == pieces[i + 1];
  }

  lemma {:induction false} AnchoredAscend(pieces: seq<Piece>, offset: nat)
    requires AnchoredHunks(pieces)
    ensures Ascending(HunksOf(pieces, offset)) && StartAfter(HunksOf(pieces, offset), offset)
    decreases pieces
  {
    if pieces != [] {
      var next := offset + |PieceOld(pieces[0])|;
      var rest := HunksOf(pieces[1..], next);
      AnchoredTail(pieces);
      AnchoredAscend(pieces[1..], next);
      AscendPiece(pieces[0], offset, rest);
    }
  }

  lemma AscendPiece(piece: Piece, offset: nat, rest: seq<Hunk>)
    requires Ascending(rest) && StartAfter(rest, offset + |PieceOld(piece)|)
    requires piece.Change? ==> OldSide(piece.body) != []
    ensures Ascending(PieceHunk(piece, offset) + rest) && StartAfter(PieceHunk(piece, offset) + rest, offset)
  {
    match piece
    case Untouched(_) => assert [] + rest == rest;
    case Change(body) => AscendCons(Hunk(offset + 1, OldSide(body), NewSide(body)), rest);
  }

  lemma ReversedSnoc(hunks: seq<Hunk>, h: Hunk)
    ensures Reversed(hunks + [h]) == [h] + Reversed(hunks)
  {
    assert (hunks + [h])[..|hunks|] == hunks;
  }

  lemma Window<T>(front: seq<T>, mid: seq<T>, tail: seq<T>)
    ensures var all := front + (mid + tail);
            && all[|front|..|front| + |mid|] == mid
            && all[..|front|] == front && all[|front| + |mid|..] == tail
  {
  }

  /** A hunk declared at the end of `front` rewrites what follows it there. */
  lemma ApplyLast(front: seq<string>, h: Hunk, tail: seq<string>, more: seq<Hunk>)
    requires h.oldStart == |front| + 1
    ensures ApplyHunks(front + (h.oldSide + tail), [h] + more) == ApplyHunks(front + (h.newSide + tail), more)
  {
    var text := front + (h.oldSide + tail);
    Window(front, h.oldSide, tail);
    assert Locate(text, h) == At(|front|);
    Assoc(front, h.newSide, tail);
    assert Splice(text, |front|, h) == front + (h.newSide + tail);
    assert ([h] + more)[1..] == more;
  }

  lemma RewritePiece(front: seq<string>, piece: Piece, tail: seq<string>, hunks: seq<Hunk>)
    ensures ApplyHunks(front + (PieceOld(piece) + tail), Reversed(hunks + PieceHunk(piece, |front|)))
            == ApplyHunks(front + (PieceNew(piece) + tail), Reversed(hunks))
  {
    match piece
    case Untouched(_) =>
      assert hunks + [] == hunks;
    case Change(body) =>
      var h := Hunk(|front| + 1, OldSide(body), NewSide(body));
      ReversedSnoc(hunks, h);
      ApplyLast(front, h, tail, Reversed(hunks));
  }

  lemma RewriteLast(pieces: seq<Piece>, init: seq<Piece>, last: Piece, tail: seq<string>)
    requires OldOf(pieces) == OldOf(init) + PieceOld(last)
    requires HunksOf(pieces, 0) == HunksOf(init, 0) + PieceHunk(last, |OldOf(init)|)
    ensures ApplyHunks(OldOf(pieces) + tail, Reversed(HunksOf(pieces, 0)))
            == ApplyHunks(OldOf(init) + (PieceNew(last) + tail), Reversed(HunksOf(init, 0)))
  {
    Assoc(OldOf(init), PieceOld(last), tail);
    RewritePiece(OldOf(init), last, tail, HunksOf(init, 0));
  }

  /** Bottom-up application to the old lines rewrites every piece, whatever follows them. */
  lemma {:induction false} BottomUpRewrites(pieces: seq<Piece>, tail: seq<string>)
    ensures ApplyHunks(OldOf(pieces) + tail, Reversed(HunksOf(pieces, 0))) == Patched(NewOf(pieces) + tail)
    decreases |pieces|
  {
    if pieces == [] {
      assert OldOf(pieces) + tail == tail == NewOf(pieces) + tail;
    } else {
      var init, last := pieces[..|pieces| - 1], pieces[|pieces| - 1];
      assert pieces == init + [last];
      SidesSnoc(init, last);
      HunksSnoc(init, last, 0);
      Assoc(NewOf(init), PieceNew(last), tail);
      RewriteLast(pieces, init, last, tail);
      BottomUpRewrites(init, PieceNew(last) + tail);
    }
  }

  /** Hunks cut from an edit script turn its old lines into its new lines, in whatever
      order the diff lists them. */
  lemma HunksRewrite(pieces: seq<Piece>, listed: seq<Hunk>)
    requires Ascending(HunksOf(pieces, 0)) && multiset(listed) == multiset(HunksOf(pieces, 0))
    ensures ApplyHunks(OldOf(pieces), SortDesc(listed)) == Patched(NewOf(pieces))
  {
    SortIsBottomUp(HunksOf(pieces, 0), listed);
    BottomUpRewrites(pieces, []);
    assert OldOf(pieces) + [] == OldOf(pieces) && NewOf(pieces) + [] == NewOf(pieces);
  }

  /** The edit script that was cut. */
  function Flatten(pieces: seq<Piece>): seq<Edit> {
    if pieces == [] then []
    else (match pieces[0] case Untouched(lines) => Keeps(lines) case Change(body) => body) + Flatten(pieces[1..])
  }

  function Keeps(lines: seq<string>): seq<Edit> {
    if lines == [] then [] else [Keep(lines[0])] + Keeps(lines[1..])
  }

  lemma {:induction false} KeepsSides(lines: seq<string>)
    ensures OldSide(Keeps(lines)) == lines && NewSide(Keeps(lines)) == lines
  {
    if lines != [] {
      KeepsSides(lines[1..]);
      assert Keeps(lines)[1..] == Keeps(lines[1..]);
    }
  }

  lemma {:induction false} OldBoth(x: seq<Edit>, y: seq<Edit>)
    ensures OldSide(x + y) == OldSide(x) + OldSide(y)
  {
    if x == [] {
      assert x + y == y;
    } else {
      assert (x + y)[0] == x[0] && (x + y)[1..] == x[1..] + y;
      OldBoth(x[1..], y);
      Assoc(if x[0].Add? then [] else [x[0].line], OldSide(x[1..]), OldSide(y));
    }
  }

  lemma {:induction false} NewBoth(x: seq<Edit>, y: seq<Edit>)
    ensures NewSide(x + y) == NewSide(x) + NewSide(y)
  {
    if x == [] {
      assert x + y == y;
    } else {
      assert (x + y)[0] == x[0] && (x + y)[1..] == x[1..] + y;
      NewBoth(x[1..], y);
      Assoc(if x[0].Remove? then [] else [x[0].line], NewSide(x[1..]), NewSide(y));
    }
  }

  lemma {:induction false} FlattenSides(pieces: seq<Piece>)
    ensures OldSide(Flatten(pieces)) == OldOf(pieces) && NewSide(Flatten(pieces)) == NewOf(pieces)
  {
    if pieces != [] {
      FlattenSides(pieces[1..]);
      match pieces[0]
      case Untouched(lines) => KeepsSides(lines); OldBoth(Keeps(lines), Flatten(pieces[1..])); NewBoth(Keeps(lines), Flatten(pieces[1..]));
      case Change(body) => OldBoth(body, Flatten(pieces[1..])); NewBoth(body, Flatten(pieces[1..]));
    }
  }

  /** Hunks cut from any edit script from `a` to `b`, each with lines to find, patch `a` into
      `b` in whatever order they are listed. */
  lemma AnyScriptPatches(a: seq<string>, b: seq<string>, script: seq<Edit>, pieces: seq<Piece>, listed: seq<Hunk>)
    requires Rebuilds(script, a, b) && Flatten(pieces) == script && AnchoredHunks(pieces)
    requires multiset(listed) == multiset(HunksOf(pieces, 0))
    ensures ApplyHunks(a, SortDesc(listed)) == Patched(b)
  {
    FlattenSides(pieces);
    AnchoredAscend(pieces, 0);
    HunksRewrite(pieces, listed);
  }

  // ------------------------------------------------------------- writing down

  function BodyLine(e: Edit): string {
    match e
    case Keep(line) => " " + line
    case Remove(line) => "-" + line
    case Add(line) => "+" + line
  }

  function BodyLines(body: seq<Edit>): seq<string> {
    if body == [] then [] else [BodyLine(body[0])] + BodyLines(body[1..])
  }

  function OldRange(start: nat, length: nat): string {
    "-" + (Decimal(start) + ("," + Decimal(length)))
  }

  function HeaderTail(newStart: nat, newLen: nat): string {
    "+" + Decimal(newStart) + "," + Decimal(newLen) + " @@"
  }

  function Header(oldStart: nat, oldLen: nat, newStart: nat, newLen: nat): string {
    "@@" + (" " + (OldRange(oldStart, oldLen) + (" " + HeaderTail(newStart, newLen))))
  }

  function HunkLines(body: seq<Edit>, oldStart: nat, newStart: nat): seq<string> {
    [Header(oldStart, |OldSide(body)|, newStart, |NewSide(body)|)] + BodyLines(body)
  }

  function PieceLines(piece: Piece, oldOffset: nat, newOffset: nat): seq<string> {
    match piece
    case Untouched(_) => []
    case Change(body) => HunkLines(body, oldOffset + 1, newOffset + 1)
  }

  function DiffLinesOf(pieces: seq<Piece>, oldOffset: nat, newOffset: nat): seq<string> {
    if pieces == [] then []
    else
      PieceLines(pieces[0], oldOffset, newOffset)
      + DiffLinesOf(pieces[1..], oldOffset + |PieceOld(pieces[0])|, newOffset + |PieceNew(pieces[0])|)
  }

  function DiffText(pieces: seq<Piece>): string {
    Terminated(DiffLinesOf(pieces, 0, 0))
  }

  // ------------------------------------------------------------- reading back

  /** A body line the parser takes for a file header: a removed line that starts with
      two dashes, or an added line that starts with two plus signs. */
  predicate LooksLikeHeader(e: Edit) {
    (e.Remove? && StartsWith(e.line, "--")) || (e.Add? && StartsWith(e.line, "++"))
  }

  function Survivors(body: seq<Edit>): seq<Edit> {
    if body == [] then []
    else (if LooksLikeHeader(body[0]) then [] else [body[0]]) + Survivors(body[1..])
  }

  predicate AllSurvive(pieces: seq<Piece>) {
    forall i, j :: 0 <= i < |pieces| && pieces[i].Change? && 0 <= j < |pieces[i].body|
      ==> !LooksLikeHeader(pieces[i].body[j])
  }

  function SurvivingHunk(body: seq<Edit>, start: nat): Hunk {
    Hunk(start, OldSide(Survivors(body)), NewSide(Survivors(body)))
  }

  function PieceSurvivor(piece: Piece, offset: nat): seq<Hunk> {
    match piece
    case Untouched(_) => []
    case Change(body) => [SurvivingHunk(body, offset + 1)]
  }

  function SurvivingHunks(pieces: seq<Piece>, offset: nat): seq<Hunk> {
    if pieces == [] then []
    else PieceSurvivor(pieces[0], offset) + SurvivingHunks(pieces[1..], offset + |PieceOld(pieces[0])|)
  }

  lemma BodyLineSkipped(e: Edit)
    ensures Skipped(BodyLine(e)) <==> LooksLikeHeader(e)
    ensures !StartsWith(BodyLine(e), "@@")
    ensures BodyLine(e) != "" && BodyLine(e)[1..] == e.line
  {
    var line := BodyLine(e);
    assert line[1..] == e.line;
    assert StartsWith(line, "---") <==> line[0] == '-' && StartsWith(e.line, "--");
    assert StartsWith(line, "+++") <==> line[0] == '+' && StartsWith(e.line, "++");
    assert "diff "[0] == 'd' && "@@"[0] == '@';
  }

  /** The hunk a body builds on top of what was read so far. */
  function Fed(h: Hunk, body: seq<Edit>): Hunk {
    Hunk(h.oldStart, h.oldSide + OldSide(Survivors(body)), h.newSide + NewSide(Survivors(body)))
  }

  lemma FedStep(h: Hunk, body: seq<Edit>)
    requires body != []
    ensures Fed(h, body) == Fed(if LooksLikeHeader(body[0]) then h else Feed(h, BodyLine(body[0])), body[1..])
  {
    var e, rest := body[0], Survivors(body[1..]);
    BodyLineSkipped(e);
    if !LooksLikeHeader(e) {
      assert Survivors(body) == [e] + rest && ([e] + rest)[1..] == rest;
      Assoc(h.oldSide, [e.line], OldSide(rest));
      Assoc(h.newSide, [e.line], NewSide(rest));
    } else {
      assert Survivors(body) == rest;
    }
  }

  lemma {:induction false} ParseBody(body: seq<Edit>, rest: seq<string>, hunks: seq<Hunk>, h: Hunk)
    ensures ParseLines(BodyLines(body) + rest, hunks, Some(h)) == ParseLines(rest, hunks, Some(Fed(h, body)))
    decreases body
  {
    if body == [] {
      assert BodyLines(body) + rest == rest;
      assert Fed(h, body) == h;
    } else {
      var e := body[0];
      BodyLineSkipped(e);
      FedStep(h, body);
      assert (BodyLines(body) + rest)[1..] == BodyLines(body[1..]) + rest;
      ParseBody(body[1..], rest, hunks, if LooksLikeHeader(e) then h else Feed(h, BodyLine(e)));
    }
  }

  lemma HeaderStartOf(oldStart: nat, oldLen: nat, newStart: nat, newLen: nat)
    requires oldStart < USIZE_LIMIT
    ensures HeaderStart(Header(oldStart, oldLen, newStart, newLen)) == Some(oldStart)
  {
    var digits, length, rest := Decimal(oldStart), Decimal(oldLen), HeaderTail(newStart, newLen);
    var tail := "," + (length + (" " + rest));
    Assoc("-" + digits, "," + length, " " + rest);
    Assoc("-", digits, "," + length);
    Assoc(",", length, " " + rest);
    F.HeaderReads(oldStart, tail);
  }

  lemma HeaderShape(oldStart: nat, oldLen: nat, newStart: nat, newLen: nat)
    ensures var header := Header(oldStart, oldLen, newStart, newLen);
            StartsWith(header, "@@") && !Skipped(header) && OneLine(header) && StripCr(header) == header
  {
    var header := Header(oldStart, oldLen, newStart, newLen);
    assert header[0] == '@' && header[1] == '@';
    assert header[..2] == "@@";
    assert header[|header| - 1] == '@';
    assert !IsDigit('\n');
    assert OneLine(OldRange(oldStart, oldLen)) && OneLine(HeaderTail(newStart, newLen));
  }

  lemma ParseHeader(header: string, rest: seq<string>, hunks: seq<Hunk>, cur: Option<Hunk>, start: nat)
    requires StartsWith(header, "@@") && !Skipped(header) && HeaderStart(header) == Some(start)
    ensures ParseLines([header] + rest, hunks, cur) == ParseLines(rest, Flush(hunks, cur), Some(Hunk(start, [], [])))
  {
    assert ([header] + rest)[1..] == rest;
  }

  lemma FedFromNothing(body: seq<Edit>, start: nat)
    ensures Fed(Hunk(start, [], []), body) == SurvivingHunk(body, start)
  {
    var olds, news := OldSide(Survivors(body)), NewSide(Survivors(body));
    assert [] + olds == olds && [] + news == news;
  }

  lemma ParseHunk(body: seq<Edit>, oldStart: nat, newStart: nat, rest: seq<string>, hunks: seq<Hunk>, cur: Option<Hunk>)
    requires oldStart < USIZE_LIMIT
    ensures ParseLines(HunkLines(body, oldStart, newStart) + rest, hunks, cur)
            == ParseLines(rest, Flush(hunks, cur), Some(SurvivingHunk(body, oldStart)))
  {
    var header := Header(oldStart, |OldSide(body)|, newStart, |NewSide(body)|);
    HeaderStartOf(oldStart, |OldSide(body)|, newStart, |NewSide(body)|);
    HeaderShape(oldStart, |OldSide(body)|, newStart, |NewSide(body)|);
    Assoc([header], BodyLines(body), rest);
    ParseHeader(header, BodyLines(body) + rest, hunks, cur, oldStart);
    ParseBody(body, rest, Flush(hunks, cur), Hunk(oldStart, [], []));
    FedFromNothing(body, oldStart);
  }

  /** The parser's hunks after one piece, before the next header flushes the last of them. */
  function HunksAfter(piece: Piece, hunks: seq<Hunk>, cur: Option<Hunk>): seq<Hunk> {
    if piece.Untouched? then hunks else Flush(hunks, cur)
  }

  function CurAfter(piece: Piece, offset: nat, cur: Option<Hunk>): Option<Hunk> {
    match piece
    case Untouched(_) => cur
    case Change(body) => Some(SurvivingHunk(body, offset + 1))
  }

  lemma FlushAfter(piece: Piece, offset: nat, hunks: seq<Hunk>, cur: Option<Hunk>)
    ensures Flush(HunksAfter(piece, hunks, cur), CurAfter(piece, offset, cur))
            == Flush(hunks, cur) + PieceSurvivor(piece, offset)
  {
  }

  lemma ParsePiece(piece: Piece, oldOffset: nat, newOffset: nat, rest: seq<string>, hunks: seq<Hunk>, cur: Option<Hunk>)
    requires oldOffset + 1 < USIZE_LIMIT
    ensures ParseLines(PieceLines(piece, oldOffset, newOffset) + rest, hunks, cur)
            == ParseLines(rest, HunksAfter(piece, hunks, cur), CurAfter(piece, oldOffset, cur))
  {
    match piece
    case Untouched(_) =>
      assert [] + rest == rest;
    case Change(body) =>
      ParseHunk(body, oldOffset + 1, newOffset + 1, rest, hunks, cur);
  }

  lemma {:induction false} ParsePieces(pieces: seq<Piece>, oldOffset: nat, newOffset: nat,
      hunks: seq<Hunk>, cur: Option<Hunk>)
    requires oldOffset + |OldOf(pieces)| + 1 < USIZE_LIMIT
    ensures ParseLines(DiffLinesOf(pieces, oldOffset, newOffset), hunks, cur)
            == Some(Flush(hunks, cur) + SurvivingHunks(pieces, oldOffset))
    decreases pieces
  {
    if pieces == [] {
      assert Flush(hunks, cur) + [] == Flush(hunks, cur);
    } else {
      var piece, rest := pieces[0], pieces[1..];
      var oldNext, newNext := oldOffset + |PieceOld(piece)|, newOffset + |PieceNew(piece)|;
      ParsePiece(piece, oldOffset, newOffset, DiffLinesOf(rest, oldNext, newNext), hunks, cur);
      ParsePieces(rest, oldNext, newNext, HunksAfter(piece, hunks, cur), CurAfter(piece, oldOffset, cur));
      FlushAfter(piece, oldOffset, hunks, cur);
      Assoc(Flush(hunks, cur), PieceSurvivor(piece, oldOffset), SurvivingHunks(rest, oldNext));
    }
  }

  /** Lines that a line-based format can carry: no line feed inside, no carriage return at the end. */
  predicate Carried(line: string) {
    OneLine(line) && StripCr(line) == line
  }

  predicate CarriedPieces(pieces: seq<Piece>) {
    forall i, j :: 0 <= i < |pieces| && pieces[i].Change? && 0 <= j < |pieces[i].body|
      ==> Carried(pieces[i].body[j].line)
  }

  predicate AllCarried(lines: seq<string>) {
    forall i :: 0 <= i < |lines| ==> Carried(lines[i])
  }

  lemma CarriedLine(e: Edit)
    requires Carried(e.line)
    ensures Carried(BodyLine(e))
  {
    var line := BodyLine(e);
    assert line[1..] == e.line;
    assert forall c :: c in line ==> c == line[0] || c in line[1..];
  }

  lemma {:induction false} BodyCarried(body: seq<Edit>)
    requires forall j :: 0 <= j < |body| ==> Carried(body[j].line)
    ensures AllCarried(BodyLines(body))
  {
    if body != [] {
      BodyCarried(body[1..]);
      CarriedLine(body[0]);
    }
  }

  lemma CarriedConcat(x: seq<string>, y: seq<string>)
    requires AllCarried(x) && AllCarried(y)
    ensures AllCarried(x + y)
  {
  }

  lemma HeaderCarried(body: seq<Edit>, oldStart: nat, newStart: nat)
    ensures AllCarried([Header(oldStart, |OldSide(body)|, newStart, |NewSide(body)|)])
  {
    HeaderShape(oldStart, |OldSide(body)|, newStart, |NewSide(body)|);
  }

  lemma HunkCarried(body: seq<Edit>, oldStart: nat, newStart: nat)
    requires forall j :: 0 <= j < |body| ==> Carried(body[j].line)
    ensures AllCarried(HunkLines(body, oldStart, newStart))
  {
    HeaderCarried(body, oldStart, newStart);
    BodyCarried(body);
    CarriedConcat([Header(oldStart, |OldSide(body)|, newStart, |NewSide(body)|)], BodyLines(body));
  }

  lemma PieceCarried(pieces: seq<Piece>, oldOffset: nat, newOffset: nat)
    requires CarriedPieces(pieces) && pieces != []
    ensures AllCarried(PieceLines(pieces[0], oldOffset, newOffset))
  {
    if pieces[0].Change? { HunkCarried(pieces[0].body, oldOffset + 1, newOffset + 1); }
  }

  lemma CarriedPiecesTail(pieces: seq<Piece>)
    requires CarriedPieces(pieces) && pieces != []
    ensures CarriedPieces(pieces[1..])
  {
    assert forall i :: 0 <= i < |pieces[1..]| ==> pieces[1..][i] == pieces[i + 1];
  }

  lemma CarriedParts(all: seq<string>, head: seq<string>, tail: seq<string>)
    requires all == head + tail && AllCarried(head) && AllCarried(tail)
    ensures AllCarried(all)
  {
  }

  lemma {:induction false} DiffCarried(pieces: seq<Piece>, oldOffset: nat, newOffset: nat)
    requires CarriedPieces(pieces)
    ensures AllCarried(DiffLinesOf(pieces, oldOffset, newOffset))
    decreases pieces
  {
    if pieces != [] {
      var oldNext, newNext := oldOffset + |PieceOld(pieces[0])|, newOffset + |PieceNew(pieces[0])|;
      CarriedPiecesTail(pieces);
      PieceCarried(pieces, oldOffset, newOffset);
      DiffCarried(pieces[1..], oldNext, newNext);
      CarriedParts(DiffLinesOf(pieces, oldOffset, newOffset), PieceLines(pieces[0], oldOffset, newOffset),
                   DiffLinesOf(pieces[1..], oldNext, newNext));
    }
  }

  lemma {:induction false} SurvivorsLose(body: seq<Edit>)
    ensures |OldSide(Survivors(body))| <= |OldSide(body)|
    ensures |NewSide(Survivors(body))| <= |NewSide(body)|
    ensures |OldSide(Survivors(body))| == |OldSide(body)| && |NewSide(Survivors(body))| == |NewSide(body)|
            ==> Survivors(body) == body
    ensures Survivors(body) == body <==> forall j :: 0 <= j < |body| ==> !LooksLikeHeader(body[j])
  {
    if body != [] {
      var e, rest := body[0], body[1..];
      SurvivorsLose(rest);
      assert body == [e] + rest;
      if LooksLikeHeader(e) {
        assert Survivors(body) == Survivors(rest);
        assert |OldSide(rest)| + |NewSide(rest)| < |OldSide(body)| + |NewSide(body)|;
      } else {
        assert Survivors(body) == [e] + Survivors(rest);
        assert Survivors(body)[1..] == Survivors(rest);
        if Survivors(rest) == rest {
        } else {
          var j :| 0 <= j < |rest| && LooksLikeHeader(rest[j]);
          assert body[j + 1] == rest[j];
        }
      }
    }
  }

  lemma SplitEqual<T>(a: seq<T>, x: seq<T>, b: seq<T>, y: seq<T>)
    requires |a| == |b|
    ensures a + x == b + y <==> a == b && x == y
  {
    if a + x == b + y {
      assert a == (a + x)[..|a|] && b == (b + y)[..|b|];
      assert x == (a + x)[|a|..] && y == (b + y)[|b|..];
    }
  }

  lemma PieceSurvives(piece: Piece, offset: nat)
    ensures |PieceSurvivor(piece, offset)| == |PieceHunk(piece, offset)|
    ensures PieceSurvivor(piece, offset) == PieceHunk(piece, offset) <==>
            (piece.Change? ==> forall j :: 0 <= j < |piece.body| ==> !LooksLikeHeader(piece.body[j]))
  {
    if piece.Change? {
      SurvivorsLose(piece.body);
      var g, h := SurvivingHunk(piece.body, offset + 1), PieceHunk(piece, offset)[0];
      assert g == h <==> Survivors(piece.body) == piece.body;
      assert [g] == [h] <==> g == h;
    }
  }

  lemma {:induction false} SurviveExactly(pieces: seq<Piece>, offset: nat)
    ensures SurvivingHunks(pieces, offset) == HunksOf(pieces, offset) <==> AllSurvive(pieces)
    decreases pieces
  {
    if pieces != [] {
      var next := offset + |PieceOld(pieces[0])|;
      SurviveExactly(pieces[1..], next);
      AllSurviveCons(pieces);
      PieceSurvives(pieces[0], offset);
      SplitEqual(PieceSurvivor(pieces[0], offset), SurvivingHunks(pieces[1..], next),
                 PieceHunk(pieces[0], offset), HunksOf(pieces[1..], next));
    }
  }

  lemma AllSurviveCons(pieces: seq<Piece>)
    requires pieces != []
    ensures AllSurvive(pieces) <==>
            && AllSurvive(pieces[1..])
            && (pieces[0].Change? ==>
                  forall j :: 0 <= j < |pieces[0].body| ==> !LooksLikeHeader(pieces[0].body[j]))
  {
    var rest := pieces[1..];
    if AllSurvive(pieces) {
      forall i, j | 0 <= i < |rest| && rest[i].Change? && 0 <= j < |rest[i].body|
        ensures !LooksLikeHeader(rest[i].body[j])
      {
        assert pieces[i + 1] == rest[i];
      }
    }
    assert forall i :: 1 <= i < |pieces| ==> pieces[i] == rest[i - 1];
  }

  /** Reading a written diff gives back its hunks exactly when no removed line starts
      with two dashes and no added line with two plus signs. */
  lemma ParseRoundTrip(pieces: seq<Piece>)
    requires CarriedPieces(pieces) && |OldOf(pieces)| + 1 < USIZE_LIMIT
    ensures ParseLines(Lines(DiffText(pieces)), [], None) == Some(HunksOf(pieces, 0)) <==> AllSurvive(pieces)
  {
    DiffCarried(pieces, 0, 0);
    LinesTerminated(DiffLinesOf(pieces, 0, 0));
    ParsePieces(pieces, 0, 0, [], None);
    assert [] + SurvivingHunks(pieces, 0) == SurvivingHunks(pieces, 0);
    SurviveExactly(pieces, 0);
  }

  /** The whole round trip: a diff written from any cut of an edit script between a file
      and its successor patches the one into the other. */
  lemma PatchRoundTrip(old_: string, pieces: seq<Piece>)
    requires OldOf(pieces) == FileLines(old_)
    requires CarriedPieces(pieces) && AllSurvive(pieces) && |OldOf(pieces)| + 1 < USIZE_LIMIT
    requires Ascending(HunksOf(pieces, 0)) && HunksOf(pieces, 0) != []
    ensures ApplyPatch(old_, DiffText(pieces)) == Patched(FileText(NewOf(pieces), EndsInNewline(old_)))
  {
    ParseRoundTrip(pieces);
    HunksRewrite(pieces, HunksOf(pieces, 0));
    ApplyParsed(old_, DiffText(pieces), HunksOf(pieces, 0), NewOf(pieces));
  }

  lemma ApplyParsed(old_: string, diff: string, hunks: seq<Hunk>, lines: seq<string>)
    requires ParseLines(Lines(diff), [], None) == Some(hunks) && hunks != []
    requires ApplyHunks(FileLines(old_), SortDesc(hunks)) == Patched(lines)
    ensures ApplyPatch(old_, diff) == Patched(FileText(lines, EndsInNewline(old_)))
  {
  }

  /** A cut script that a diff can carry: its hunks are in order and there are some, and no line
      of theirs breaks the format. */
  ghost predicate Written(pieces: seq<Piece>) {
    && CarriedPieces(pieces) && AllSurvive(pieces) && |OldOf(pieces)| + 1 < USIZE_LIMIT
    && Ascending(HunksOf(pieces, 0)) && HunksOf(pieces, 0) != []
  }

  /** The script leads from the lines of `old_`, carriage returns stripped, to those of `new_`,
      which has none and ends as `old_` does. */
  ghost predicate Between(pieces: seq<Piece>, old_: string, new_: string) {
    && OldOf(pieces) == FileLines(old_) && NewOf(pieces) == FileLines(new_)
    && NoCr(Split(new_)) && EndsInNewline(new_) == EndsInNewline(old_)
  }

  lemma JoinMore(head: string, rest: seq<string>)
    requires rest != []
    ensures Join([head] + rest) == head + "\n" + Join(rest)
  {
    assert ([head] + rest)[1..] == rest;
  }

  lemma JoinFirst(c: char, head: string, rest: seq<string>)
    ensures Join([[c] + head] + rest) == [c] + Join([head] + rest)
  {
    if rest != [] {
      JoinMore([c] + head, rest);
      JoinMore(head, rest);
      Assoc([c], head, "\n" + Join(rest));
    }
  }

  lemma {:induction false} JoinSplit(s: string)
    ensures Join(Split(s)) == s
  {
    if s != "" {
      var rest := Split(s[1..]);
      JoinSplit(s[1..]);
      assert s == [s[0]] + s[1..];
      if s[0] == '\n' {
        JoinMore("", rest);
      } else {
        assert rest == [rest[0]] + rest[1..];
        JoinFirst(s[0], rest[0], rest[1..]);
      }
    }
  }

  lemma {:induction false} JoinBlank(lines: seq<string>)
    requires lines != []
    ensures Join(lines + [""]) == Join(lines) + "\n"
  {
    if |lines| > 1 {
      JoinBlank(lines[1..]);
      JoinMore(lines[0], lines[1..] + [""]);
      assert lines + [""] == [lines[0]] + (lines[1..] + [""]);
    }
  }

  lemma {:induction false} LastPiece(s: string)
    ensures EndsInNewline(s) ==> Split(s)[|Split(s)| - 1] == ""
    ensures s != "" && EndsInNewline(s) ==> |Split(s)| > 1
  {
    if s != "" { LastPiece(s[1..]); }
  }

  lemma StripNone(lines: seq<string>)
    requires NoCr(lines)
    ensures StripAll(lines) == lines
  {
  }

  lemma TerminatedBack(s: string, init: seq<string>)
    requires Split(s) == init + [""] && init != [] && NoCr(Split(s))
    ensures EndsInNewline(s) ==> FileLines(s) == init && Join(init) + "\n" == s
  {
    JoinSplit(s);
    StripNone(Split(s));
    JoinBlank(init);
    assert (init + [""])[..|init|] == init;
  }

  lemma UnterminatedBack(s: string)
    requires NoCr(Split(s)) && !EndsInNewline(s)
    ensures FileText(FileLines(s), false) == s
  {
    JoinSplit(s);
    StripNone(Split(s));
    assert s + "" == s;
  }

  /** Taking a text apart and putting it together again loses nothing but the empty text, which
      comes back as a line feed. */
  lemma FileTextBack(s: string)
    requires NoCr(Split(s))
    ensures FileText(FileLines(s), EndsInNewline(s)) == s <==> s != ""
  {
    var lines := Split(s);
    if s == "" {
      assert FileText(FileLines(s), true) != "";
    } else if EndsInNewline(s) {
      LastPiece(s);
      assert lines == lines[..|lines| - 1] + [""];
      TerminatedBack(s, lines[..|lines| - 1]);
    } else {
      UnterminatedBack(s);
    }
  }

  /** A diff written from any cut of an edit script patches a file into its successor, with or
      without a final line feed, whether or not there was anything before; only the empty
      successor comes out as a line feed. */
  lemma PatchMakesSuccessor(old_: string, new_: string, pieces: seq<Piece>)
    requires Written(pieces) && Between(pieces, old_, new_)
    ensures ApplyPatch(old_, DiffText(pieces)) == Patched(new_) <==> new_ != ""
  {
    PatchRoundTrip(old_, pieces);
    FileTextBack(new_);
  }

  lemma StripMore(a: seq<string>)
    ensures StripAll(a + [""]) == StripAll(a) + [""]
  {
  }

  lemma TerminatedEnds(a: seq<string>)
    ensures EndsInNewline(Terminated(a))
  {
    if a != [] { TerminatedIsJoin(a); }
  }

  lemma FileLinesTerminated(a: seq<string>)
    requires AllOneLine(a)
    ensures FileLines(Terminated(a)) == StripAll(a) && EndsInNewline(Terminated(a))
  {
    SplitTerminated(a);
    StripMore(a);
    TerminatedEnds(a);
    assert (StripAll(a) + [""])[..|a|] == StripAll(a);
  }

  /** From one newline-terminated text to another the patch is exact, unless the new text is
      empty: deleting every line leaves a single line feed. A carriage return at a line's end
      is dropped from the old text before anything else, so the new text has none outside its
      hunks either. */
  lemma PatchTextRoundTrip(a: seq<string>, b: seq<string>, pieces: seq<Piece>)
    requires OldOf(pieces) == StripAll(a) && NewOf(pieces) == b && AllOneLine(a)
    requires CarriedPieces(pieces) && AllSurvive(pieces) && |a| + 1 < USIZE_LIMIT
    requires AnchoredHunks(pieces) && HunksOf(pieces, 0) != []
    ensures ApplyPatch(Terminated(a), DiffText(pieces)) == Patched(Terminated(b)) <==> b != []
  {
    FileLinesTerminated(a);
    AnchoredAscend(pieces, 0);
    PatchRoundTrip(Terminated(a), pieces);
    if b != [] { TerminatedIsJoin(b); }
  }

  function WithCr(lines: seq<string>): (r: seq<string>)
    ensures |r| == |lines|
  {
    seq(|lines|, i requires 0 <= i < |lines| => lines[i] + "\r")
  }

  lemma StripWithCr(a: seq<string>)
    requires AllOneLine(a) && NoCr(a)
    ensures AllOneLine(WithCr(a)) && StripAll(WithCr(a)) == a && StripAll(a) == a
  {
    forall i | 0 <= i < |a| ensures OneLine(WithCr(a)[i]) && StripCr(WithCr(a)[i]) == a[i] {
      assert WithCr(a)[i] == a[i] + "\r";
      assert forall c :: c in a[i] + "\r" ==> c in a[i] || c == '\r';
      assert (a[i] + "\r")[..|a[i]|] == a[i];
    }
  }

  /** A file whose lines end in CR LF is patched as if they ended in LF, by any diff: what it
      becomes has no carriage returns but those the diff brings along. */
  lemma CrlfBecomesLf(a: seq<string>, diff: string)
    requires AllOneLine(a) && NoCr(a)
    ensures ApplyPatch(Terminated(WithCr(a)), diff) == ApplyPatch(Terminated(a), diff)
  {
    StripWithCr(a);
    FileLinesTerminated(WithCr(a));
    FileLinesTerminated(a);
    SameLinesSamePatch(Terminated(WithCr(a)), Terminated(a), diff);
  }

  lemma SameLinesSamePatch(x: string, y: string, diff: string)
    requires FileLines(x) == FileLines(y) && EndsInNewline(x) == EndsInNewline(y)
    ensures ApplyPatch(x, diff) == ApplyPatch(y, diff)
  {
  }
}
