/** What a harvest leaves behind (rolen-cliadapters/src/overlay.rs:55-168). */
module HarvestTheorems {
  import opened Text
  import opened Tickets
  import opened TicketEffects
  import opened HarvestSpec

  // ------------------------------------------------------------- which changes there are

  lemma {:induction false} DifferingIs(l: Layout, base: Files, found: seq<Found>, c: Change)
    ensures c in Differing(l, base, found) <==>
      c.Write? && (c.rel, c.content) in found && BaseAt(l, base, c.rel) != Some(c.content)
  {
    if found != [] { DifferingIs(l, base, found[1..], c); }
  }

  lemma {:induction false} GoneIs(staging: Entries, found: seq<Found>, c: Change)
    ensures c in Gone(staging, found) <==> c.Remove? && Get(staging, c.rel).None? && Listed(found, c.rel)
  {
    if found != [] {
      GoneIs(staging, found[1..], c);
      assert Listed(found, c.rel) <==> found[0].0 == c.rel || Listed(found[1..], c.rel) by { ListedCons(found, c.rel); }
    }
  }

  lemma ListedCons(found: seq<Found>, rel: Rel)
    requires found != []
    ensures Listed(found, rel) <==> found[0].0 == rel || Listed(found[1..], rel)
  {
    if Listed(found, rel) {
      var i :| 0 <= i < |found| && found[i].0 == rel;
      if i > 0 { assert found[1..][i - 1].0 == rel; }
    }
    if Listed(found[1..], rel) {
      var i :| 0 <= i < |found[1..]| && found[1..][i].0 == rel;
      assert found[i + 1].0 == rel;
    }
  }

  lemma {:induction false} DifferingIsDistinct(l: Layout, base: Files, found: seq<Found>)
    requires Distinct(found)
    ensures DistinctRels(Differing(l, base, found))
  {
    if found != [] {
      var rest := Differing(l, base, found[1..]);
      DifferingIsDistinct(l, base, found[1..]);
      forall j | 0 <= j < |rest| ensures rest[j].rel != found[0].0 {
        DifferingIs(l, base, found[1..], rest[j]);
        var k :| 0 <= k < |found[1..]| && found[1..][k] == (rest[j].rel, rest[j].content);
        assert found[k + 1].0 == rest[j].rel;
      }
    }
  }

  lemma {:induction false} GoneIsDistinct(staging: Entries, found: seq<Found>)
    requires Distinct(found)
    ensures DistinctRels(Gone(staging, found))
  {
    if found != [] {
      var rest := Gone(staging, found[1..]);
      GoneIsDistinct(staging, found[1..]);
      forall j | 0 <= j < |rest| ensures rest[j].rel != found[0].0 {
        GoneIs(staging, found[1..], rest[j]);
        var k :| 0 <= k < |found[1..]| && found[1..][k].0 == rest[j].rel;
        assert found[k + 1].0 == rest[j].rel;
      }
    }
  }

  /** What a walk from the top meets. */
  lemma WalkIs(es: Entries, prune: bool, rel: Rel, content: Content)
    requires Proper(es)
    ensures (rel, content) in Walk([], es, prune) <==> Get(es, rel) == Some(content) && (prune ==> !Skipped(rel))
    ensures Listed(Walk([], es, prune), rel) <==> Get(es, rel).Some? && (prune ==> !Skipped(rel))
  {
    var found := Walk([], es, prune);
    forall i | 0 <= i < |found| && found[i].0 == rel ensures Get(es, rel) == Some(found[i].1) && (prune ==> !Skipped(rel)) {
      WalkFinds([], es, prune, i);
      assert rel[0..] == rel;
    }
    if Get(es, rel).Some? && (prune ==> !Skipped(rel)) {
      var i := WalkMeets([], es, prune, rel);
      assert [] + rel == rel;
    }
  }

  /** The paths the harvest is about. */
  ghost function Domain(baseTree: Entries, staging: Entries): iset<Rel> {
    iset rel: Rel | Get(baseTree, rel).Some? || Get(staging, rel).Some?
  }

  /** The two trees are read off the disk before anything changes; nothing on it gets in the way. */
  ghost predicate Ready(l: Layout, base: Files, baseTree: Entries, staging: Entries) {
    var rels := Domain(baseTree, staging);
    && Proper(baseTree) && Proper(staging) && Plain(l, rels) && NoTemps(l, rels, base)
    && forall rel :: rel in rels ==> BaseAt(l, base, rel) == Get(baseTree, rel)
  }

  /** A staged file that the base lacks or has otherwise, or an unskipped base file not staged. */
  predicate Differs(baseTree: Entries, staging: Entries, rel: Rel) {
    if Get(staging, rel).Some? then Get(baseTree, rel) != Get(staging, rel)
    else Get(baseTree, rel).Some? && !Skipped(rel)
  }

  lemma ChangesAre(l: Layout, base: Files, baseTree: Entries, staging: Entries, c: Change)
    requires Ready(l, base, baseTree, staging)
    ensures c in Changes(l, base, baseTree, staging) <==>
      Differs(baseTree, staging, c.rel) && c == match Get(staging, c.rel) case Some(content) => Write(c.rel, content) case None => Remove(c.rel)
  {
    var writes, removes := Differing(l, base, Walk([], staging, false)), Gone(staging, Walk([], baseTree, true));
    assert c in writes + removes <==> c in writes || c in removes;
    DifferingIs(l, base, Walk([], staging, false), c);
    GoneIs(staging, Walk([], baseTree, true), c);
    if c.Write? { WalkIs(staging, false, c.rel, c.content); }
    WalkIs(baseTree, true, c.rel, "");
    assert Get(staging, c.rel).Some? ==> c.rel in Domain(baseTree, staging);
  }

  lemma ChangesAreDistinct(l: Layout, base: Files, baseTree: Entries, staging: Entries)
    requires Ready(l, base, baseTree, staging)
    ensures DistinctRels(Changes(l, base, baseTree, staging))
  {
    WalkIsDistinct([], staging, false);
    WalkIsDistinct([], baseTree, true);
    var writes, removes := Differing(l, base, Walk([], staging, false)), Gone(staging, Walk([], baseTree, true));
    DifferingIsDistinct(l, base, Walk([], staging, false));
    GoneIsDistinct(staging, Walk([], baseTree, true));
    var all := writes + removes;
    forall i, j | 0 <= i < |writes| <= j < |all| ensures all[i].rel != all[j].rel {
      ChangesAre(l, base, baseTree, staging, writes[i]);
      DifferingIs(l, base, Walk([], staging, false), writes[i]);
      WalkIs(staging, false, writes[i].rel, writes[i].content);
      GoneIs(staging, Walk([], baseTree, true), all[j]);
    }
  }

  // ------------------------------------------------------------- what the harvest leaves

  ghost function Harvested(l: Layout, base: Files, baseTree: Entries, staging: Entries): Outcome {
    ApplyAll(l, Outcome(base, 0, 0, []), Changes(l, base, baseTree, staging))
  }

  /** What the path holds afterwards. */
  function After(l: Layout, baseTree: Entries, staging: Entries, rel: Rel): Option<Content> {
    if !Differs(baseTree, staging, rel) then Get(baseTree, rel)
    else match Get(staging, rel) case Some(content) => Some(l.lossy(content)) case None => None
  }

  /** No ticket is rejected; the paths reported are exactly the differing ones, each once;
      every path holds what it should; nothing else on the disk has changed. */
  lemma HarvestExactly(l: Layout, base: Files, baseTree: Entries, staging: Entries)
    requires Ready(l, base, baseTree, staging)
    ensures var o := Harvested(l, base, baseTree, staging);
      && o.rejected == 0 && o.applied == |o.paths|
      && (forall i, j :: 0 <= i < j < |o.paths| ==> o.paths[i] != o.paths[j])
      && (forall rel :: rel in o.paths <==> Differs(baseTree, staging, rel))
      && (forall rel :: rel in Domain(baseTree, staging) ==> BaseAt(l, o.base, rel) == After(l, baseTree, staging, rel))
      && (forall p :: (forall rel :: rel in Domain(baseTree, staging) ==> l.place(rel) != p) ==> Lookup(o.base, p) == Lookup(base, p))
  {
    TicketsApply(l, base, baseTree, staging);
    var o := Harvested(l, base, baseTree, staging);
    forall rel ensures rel in o.paths <==> Differs(baseTree, staging, rel) {
      RelsAre(l, base, baseTree, staging, rel);
    }
    forall rel | rel in Domain(baseTree, staging) ensures BaseAt(l, o.base, rel) == After(l, baseTree, staging, rel) {
      PathHolds(l, base, baseTree, staging, rel);
    }
    forall p | forall rel :: rel in Domain(baseTree, staging) ==> l.place(rel) != p ensures Lookup(o.base, p) == Lookup(base, p) {
      Elsewhere(l, base, baseTree, staging, p);
    }
  }

  lemma InDomain(l: Layout, base: Files, baseTree: Entries, staging: Entries)
    requires Ready(l, base, baseTree, staging)
    ensures forall c :: c in Changes(l, base, baseTree, staging) ==> c.rel in Domain(baseTree, staging)
  {
    forall c | c in Changes(l, base, baseTree, staging) ensures c.rel in Domain(baseTree, staging) {
      ChangesAre(l, base, baseTree, staging, c);
    }
  }

  lemma RelsDiffer(changes: seq<Change>)
    requires DistinctRels(changes)
    ensures forall i, j :: 0 <= i < j < |Rels(changes)| ==> Rels(changes)[i] != Rels(changes)[j]
  {
  }

  lemma TicketsApply(l: Layout, base: Files, baseTree: Entries, staging: Entries)
    requires Ready(l, base, baseTree, staging)
    ensures var o := Harvested(l, base, baseTree, staging);
      && o.rejected == 0 && o.applied == |o.paths| && o.paths == Rels(Changes(l, base, baseTree, staging))
      && forall i, j :: 0 <= i < j < |o.paths| ==> o.paths[i] != o.paths[j]
  {
    ChangesAreDistinct(l, base, baseTree, staging);
    InDomain(l, base, baseTree, staging);
    AllApply(l, Domain(baseTree, staging), Outcome(base, 0, 0, []), Changes(l, base, baseTree, staging));
    RelsDiffer(Changes(l, base, baseTree, staging));
    assert [] + Rels(Changes(l, base, baseTree, staging)) == Rels(Changes(l, base, baseTree, staging));
  }

  lemma Elsewhere(l: Layout, base: Files, baseTree: Entries, staging: Entries, p: Path)
    requires Ready(l, base, baseTree, staging)
    requires forall rel :: rel in Domain(baseTree, staging) ==> l.place(rel) != p
    ensures Lookup(Harvested(l, base, baseTree, staging).base, p) == Lookup(base, p)
  {
    ChangesAreDistinct(l, base, baseTree, staging);
    InDomain(l, base, baseTree, staging);
    AllApply(l, Domain(baseTree, staging), Outcome(base, 0, 0, []), Changes(l, base, baseTree, staging));
  }

  lemma RelsAre(l: Layout, base: Files, baseTree: Entries, staging: Entries, rel: Rel)
    requires Ready(l, base, baseTree, staging)
    ensures rel in Rels(Changes(l, base, baseTree, staging)) <==> Differs(baseTree, staging, rel)
  {
    var changes := Changes(l, base, baseTree, staging);
    if rel in Rels(changes) {
      var i :| 0 <= i < |changes| && Rels(changes)[i] == rel;
      ChangesAre(l, base, baseTree, staging, changes[i]);
    }
    if Differs(baseTree, staging, rel) {
      var c := match Get(staging, rel) case Some(content) => Write(rel, content) case None => Remove(rel);
      ChangesAre(l, base, baseTree, staging, c);
      var i :| 0 <= i < |changes| && changes[i] == c;
      assert Rels(changes)[i] == rel;
    }
  }

  lemma PathHolds(l: Layout, base: Files, baseTree: Entries, staging: Entries, rel: Rel)
    requires Ready(l, base, baseTree, staging) && rel in Domain(baseTree, staging)
    ensures BaseAt(l, Harvested(l, base, baseTree, staging).base, rel) == After(l, baseTree, staging, rel)
  {
    var changes := Changes(l, base, baseTree, staging);
    var rels := Domain(baseTree, staging);
    ChangesAreDistinct(l, base, baseTree, staging);
    InDomain(l, base, baseTree, staging);
    AllApply(l, rels, Outcome(base, 0, 0, []), changes);
    if Differs(baseTree, staging, rel) {
      var c := match Get(staging, rel) case Some(content) => Write(rel, content) case None => Remove(rel);
      ChangesAre(l, base, baseTree, staging, c);
      var i :| 0 <= i < |changes| && changes[i] == c;
      assert Left(l, changes[i]) == After(l, baseTree, staging, rel);
    } else {
      forall i | 0 <= i < |changes| ensures l.place(changes[i].rel) != l.place(rel) {
        ChangesAre(l, base, baseTree, staging, changes[i]);
      }
    }
  }

  // ------------------------------------------------------------- synchronised, exactly when

  /** The base equals the staging copy on every unskipped path exactly when every differing
      staged file there survives the conversion to text. */
  lemma SynchronisedExactly(l: Layout, base: Files, baseTree: Entries, staging: Entries)
    requires Ready(l, base, baseTree, staging)
    ensures (forall rel :: rel in Domain(baseTree, staging) && !Skipped(rel) ==>
               BaseAt(l, Harvested(l, base, baseTree, staging).base, rel) == Get(staging, rel))
       <==> (forall rel :: rel in Domain(baseTree, staging) && !Skipped(rel) && Get(staging, rel).Some? && Differs(baseTree, staging, rel) ==>
               l.lossy(Get(staging, rel).value) == Get(staging, rel).value)
  {
    HarvestExactly(l, base, baseTree, staging);
    var o := Harvested(l, base, baseTree, staging);
    forall rel | rel in Domain(baseTree, staging) && !Skipped(rel)
      ensures BaseAt(l, o.base, rel) == Get(staging, rel) <==>
        (Get(staging, rel).Some? && Differs(baseTree, staging, rel) ==> l.lossy(Get(staging, rel).value) == Get(staging, rel).value)
    {
      assert BaseAt(l, o.base, rel) == After(l, baseTree, staging, rel);
    }
  }

  /** Paths below a skipped name are left alone exactly when no staged file there would write
      something else: the walk over the staging copy does not skip them. */
  lemma SkippedUntouchedExactly(l: Layout, base: Files, baseTree: Entries, staging: Entries)
    requires Ready(l, base, baseTree, staging)
    ensures (forall rel :: rel in Domain(baseTree, staging) && Skipped(rel) ==>
               BaseAt(l, Harvested(l, base, baseTree, staging).base, rel) == Get(baseTree, rel))
       <==> (forall rel :: rel in Domain(baseTree, staging) && Skipped(rel) && Get(staging, rel).Some? ==>
               Get(baseTree, rel) == Get(staging, rel) || Get(baseTree, rel) == Some(l.lossy(Get(staging, rel).value)))
  {
    HarvestExactly(l, base, baseTree, staging);
    var o := Harvested(l, base, baseTree, staging);
    forall rel | rel in Domain(baseTree, staging) && Skipped(rel)
      ensures BaseAt(l, o.base, rel) == Get(baseTree, rel) <==>
        (Get(staging, rel).Some? ==> Get(baseTree, rel) == Get(staging, rel) || Get(baseTree, rel) == Some(l.lossy(Get(staging, rel).value)))
    {
      assert BaseAt(l, o.base, rel) == After(l, baseTree, staging, rel);
    }
  }

  // ------------------------------------------------------------- when others write meanwhile

  /** The two workspaces hold the same version at the path, as far as its hash tells. */
  predicate SameVersion(l: Layout, x: Files, y: Files, rel: Rel) {
    match (BaseAt(l, x, rel), BaseAt(l, y, rel))
    case (None, None) => true
    case (Some(a), Some(b)) => l.env.hash(a) == l.env.hash(b)
    case _ => false
  }

  /** A ticket made from `base` meets a workspace that others may have changed since: a write
      is applied exactly when the path still has the version the harvest saw, a removal whatever
      the path holds by then. */
  lemma GuardedExactly(l: Layout, base: Files, later: Files, c: Change)
    requires l.env.resolve(l.key(c.rel)) == Some(l.place(c.rel))
    ensures var (after, verdict) := ApplyTicket(l.env, later, TicketFor(l, base, c), NoFault);
      && (verdict == Applied <==> (c.Write? ==> SameVersion(l, base, later, c.rel)))
      && (verdict == Applied ==> BaseAt(l, after, c.rel) == Left(l, c))
  {
    var t, p := TicketFor(l, base, c), l.place(c.rel);
    match c
    case Write(_, _) => FullWriteExactly(l.env, later, t, NoFault, p);
    case Remove(_) => DeleteExactly(l.env, later, t, NoFault, p);
  }
}
