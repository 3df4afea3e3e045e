/** The overlay harvest (rolen-cliadapters/src/overlay.rs:55-168) as functions: what the two
    walks find, what the tickets do, and when the base ends up like the staging copy. */
module HarvestSpec {
  import opened Text
  import opened Tickets

  /** A path relative to the workspace, by its components. */
  type Rel = seq<string>

  /** A directory tree: a file, or a directory with its entries in listing order. */
  datatype Node = File(content: Content) | Dir(entries: Entries)
  datatype Entries = Nil | Entry(name: string, node: Node, rest: Entries)

  datatype Change = Write(rel: Rel, content: Content) | Remove(rel: Rel)

  /** How relative paths are spelled in tickets and where they lie; what
      `from_utf8_lossy` makes of a file. */
  datatype Layout = Layout(env: Env, key: Rel -> string, place: Rel -> Path, lossy: Content -> Content)

  const SkipDirs: set<string> := {".git", "target", "node_modules", ".rolen-overlay"}

  predicate Skipped(rel: Rel) {
    exists i :: 0 <= i < |rel| && rel[i] in SkipDirs
  }

  // ------------------------------------------------------------- trees

  predicate Fresh(name: string, es: Entries) {
    es.Entry? ==> es.name != name && Fresh(name, es.rest)
  }

  /** No directory lists a name twice. */
  predicate Proper(es: Entries) {
    es.Entry? ==> Fresh(es.name, es.rest) && (es.node.Dir? ==> Proper(es.node.entries)) && Proper(es.rest)
  }

  /** The file at a path. */
  function Get(es: Entries, rel: Rel): Option<Content> {
    if es.Nil? || rel == [] then None
    else if es.name != rel[0] then Get(es.rest, rel)
    else match es.node
      case File(content) => if |rel| == 1 then Some(content) else None
      case Dir(entries) => Get(entries, rel[1..])
  }

  type Found = (Rel, Content)

  /** The files a walk meets, in order; with `prune` it leaves out the skipped names. */
  function Walk(at: Rel, es: Entries, prune: bool): seq<Found>
    decreases es
  {
    if es.Nil? then []
    else
      var here :=
        if prune && es.name in SkipDirs then []
        else match es.node
          case File(content) => [(at + [es.name], content)]
          case Dir(entries) => Walk(at + [es.name], entries, prune);
      here + Walk(at, es.rest, prune)
  }

  predicate Listed(found: seq<Found>, rel: Rel) {
    exists i :: 0 <= i < |found| && found[i].0 == rel
  }

  ghost predicate Distinct(found: seq<Found>) {
    forall i, j :: 0 <= i < j < |found| ==> found[i].0 != found[j].0
  }

  /** Entry `i` of a walk lies below `at` under one of the names listed, and is the file there. */
  lemma {:induction false} WalkFinds(at: Rel, es: Entries, prune: bool, i: nat)
    requires Proper(es) && i < |Walk(at, es, prune)|
    ensures var (rel, content) := Walk(at, es, prune)[i];
      && |rel| > |at| && rel[..|at|] == at && !Fresh(rel[|at|], es)
      && Get(es, rel[|at|..]) == Some(content) && (prune ==> !Skipped(rel[|at|..]))
    decreases es
  {
    var whole := Walk(at, es, prune);
    var rest := Walk(at, es.rest, prune);
    var n := |whole| - |rest|;
    var (rel, content) := whole[i];
    if i >= n {
      WalkFinds(at, es.rest, prune, i - n);
      assert rest[i - n] == (rel, content);
      FreshDiffers(es.name, rel[|at|], es.rest);
      assert rel[|at|..][0] == rel[|at|];
    } else if es.node.File? {
      assert rel == at + [es.name];
      assert rel[|at|..] == [es.name];
    } else {
      var below := at + [es.name];
      WalkFinds(below, es.node.entries, prune, i);
      BelowEntry(at, es.name, rel);
      SkippedBelow(es.name, rel[|below|..]);
    }
  }

  lemma FreshDiffers(name: string, other: string, es: Entries)
    requires Fresh(name, es) && !Fresh(other, es)
    ensures name != other
  {
  }

  lemma BelowEntry(at: Rel, name: string, rel: Rel)
    requires |rel| > |at| + 1 && rel[..|at| + 1] == at + [name]
    ensures rel[..|at|] == at && rel[|at|] == name && rel[|at|..] == [name] + rel[|at| + 1..]
  {
    assert rel[..|at|] == rel[..|at| + 1][..|at|];
    assert rel[|at|] == rel[..|at| + 1][|at|];
  }

  lemma SkippedBelow(name: string, rel: Rel)
    ensures Skipped([name] + rel) <==> name in SkipDirs || Skipped(rel)
  {
    var whole := [name] + rel;
    if name in SkipDirs { assert whole[0] in SkipDirs; }
    if i :| 0 <= i < |rel| && rel[i] in SkipDirs { assert whole[i + 1] in SkipDirs; }
    assert forall i :: 1 <= i < |whole| ==> whole[i] == rel[i - 1];
  }

  /** And every file is met, unless it is pruned. */
  lemma {:induction false} WalkMeets(at: Rel, es: Entries, prune: bool, rel: Rel) returns (i: nat)
    requires Get(es, rel).Some? && (prune ==> !Skipped(rel))
    ensures i < |Walk(at, es, prune)| && Walk(at, es, prune)[i] == (at + rel, Get(es, rel).value)
    decreases es
  {
    var rest := Walk(at, es.rest, prune);
    var n := |Walk(at, es, prune)| - |rest|;
    if es.name != rel[0] {
      i := WalkMeets(at, es.rest, prune, rel);
      i := n + i;
    } else if es.node.File? {
      assert rel == [es.name];
      assert prune ==> rel[0] !in SkipDirs;
      i := 0;
    } else {
      assert prune ==> rel[0] !in SkipDirs;
      assert rel == [es.name] + rel[1..];
      SkippedBelow(es.name, rel[1..]);
      i := WalkMeets(at + [es.name], es.node.entries, prune, rel[1..]);
      Assoc(at, [es.name], rel[1..]);
    }
  }

  lemma {:induction false} WalkIsDistinct(at: Rel, es: Entries, prune: bool)
    requires Proper(es)
    ensures Distinct(Walk(at, es, prune))
    decreases es
  {
    if es.Entry? {
      var whole := Walk(at, es, prune);
      var rest := Walk(at, es.rest, prune);
      var n := |whole| - |rest|;
      WalkIsDistinct(at, es.rest, prune);
      if es.node.Dir? { WalkIsDistinct(at + [es.name], es.node.entries, prune); }
      forall i, j | 0 <= i < j < |whole| ensures whole[i].0 != whole[j].0 {
        if i < n <= j {
          WalkFinds(at, es.rest, prune, j - n);
          assert whole[j] == rest[j - n];
          FreshDiffers(es.name, whole[j].0[|at|], es.rest);
          FirstPart(at, es, prune, i);
        } else if i >= n {
          assert whole[i] == rest[i - n] && whole[j] == rest[j - n];
        } else {
          SamePart(at, es, prune, i, j);
        }
      }
    }
  }

  lemma SamePart(at: Rel, es: Entries, prune: bool, i: nat, j: nat)
    requires es.Entry? && i < j < |Walk(at, es, prune)| - |Walk(at, es.rest, prune)|
    requires es.node.Dir? ==> Distinct(Walk(at + [es.name], es.node.entries, prune))
    ensures Walk(at, es, prune)[i].0 != Walk(at, es, prune)[j].0
  {
  }

  lemma FirstPart(at: Rel, es: Entries, prune: bool, i: nat)
    requires es.Entry? && Proper(es) && i < |Walk(at, es, prune)| - |Walk(at, es.rest, prune)|
    ensures |Walk(at, es, prune)[i].0| > |at| && Walk(at, es, prune)[i].0[|at|] == es.name
  {
    if es.node.Dir? {
      WalkFinds(at + [es.name], es.node.entries, prune, i);
      BelowEntry(at, es.name, Walk(at, es, prune)[i].0);
    }
  }

  // ------------------------------------------------------------- the changes

  function BaseAt(l: Layout, base: Files, rel: Rel): Option<Content> {
    Lookup(base, l.place(rel))
  }

  /** Staged files that the base lacks or has with other bytes. */
  function Differing(l: Layout, base: Files, found: seq<Found>): seq<Change> {
    if found == [] then []
    else
      (if BaseAt(l, base, found[0].0) != Some(found[0].1) then [Write(found[0].0, found[0].1)] else [])
      + Differing(l, base, found[1..])
  }

  /** Base files that are no longer staged. */
  function Gone(staging: Entries, found: seq<Found>): seq<Change> {
    if found == [] then []
    else (if Get(staging, found[0].0).None? then [Remove(found[0].0)] else []) + Gone(staging, found[1..])
  }

  function Changes(l: Layout, base: Files, baseTree: Entries, staging: Entries): seq<Change> {
    Differing(l, base, Walk([], staging, false)) + Gone(staging, Walk([], baseTree, true))
  }

  // ------------------------------------------------------------- the tickets

  function TicketFor(l: Layout, base: Files, c: Change): Ticket {
    match c
    case Write(rel, content) =>
      var current := BaseAt(l, base, rel);
      Ticket(l.key(rel), if current.Some? then Replace else Create, l.lossy(content),
             if current.Some? then Some(l.env.hash(current.value)) else None)
    case Remove(rel) => Ticket(l.key(rel), Delete, "", None)
  }

  datatype Outcome = Outcome(base: Files, applied: nat, rejected: nat, paths: seq<Rel>)

  ghost function ApplyChange(l: Layout, o: Outcome, c: Change): Outcome {
    var (base, verdict) := ApplyTicket(l.env, o.base, TicketFor(l, o.base, c), NoFault);
    Outcome(base, o.applied + (if verdict == Applied then 1 else 0), o.rejected + (if verdict == Rejected then 1 else 0), o.paths + [c.rel])
  }

  ghost function ApplyAll(l: Layout, o: Outcome, changes: seq<Change>): Outcome
    decreases changes
  {
    if changes == [] then o else ApplyAll(l, ApplyChange(l, o, changes[0]), changes[1..])
  }

  /** What a change leaves at its path. */
  function Left(l: Layout, c: Change): Option<Content> {
    match c case Write(_, content) => Some(l.lossy(content)) case Remove(_) => None
  }

  /** No alias among `rels`: every path resolves to its own place, and none is another's
      temp file. */
  ghost predicate Plain(l: Layout, rels: iset<Rel>) {
    && (forall r :: r in rels ==> l.env.resolve(l.key(r)) == Some(l.place(r)))
    && (forall r, s :: r in rels && s in rels && l.place(r) == l.place(s) ==> r == s)
    && (forall r, s :: r in rels && s in rels ==> l.env.temp(l.place(r)) != l.place(s))
  }

  ghost predicate NoTemps(l: Layout, rels: iset<Rel>, base: Files) {
    forall r :: r in rels ==> l.env.temp(l.place(r)) !in base
  }

  /** One ticket: applied, its path as wanted, all other paths as they were. */
  lemma ChangeApplies(l: Layout, rels: iset<Rel>, o: Outcome, c: Change)
    requires Plain(l, rels) && NoTemps(l, rels, o.base) && c.rel in rels
    ensures var o' := ApplyChange(l, o, c);
      && NoTemps(l, rels, o'.base) && o'.applied == o.applied + 1 && o'.rejected == o.rejected && o'.paths == o.paths + [c.rel]
      && forall p :: Lookup(o'.base, p) == if p == l.place(c.rel) then Left(l, c) else Lookup(o.base, p)
  {
    var p := l.place(c.rel);
    var t := TicketFor(l, o.base, c);
    assert l.env.resolve(l.key(c.rel)) == Some(p);
    assert !Stale(l.env, t, Lookup(o.base, p));
    if c.Write? {
      var tmp := l.env.temp(p);
      assert tmp != p && tmp !in o.base;
      assert ApplyTicket(l.env, o.base, t, NoFault) == (Move(o.base[tmp := t.payload], tmp, p), Applied);
      assert Move(o.base[tmp := t.payload], tmp, p) == o.base[p := t.payload];
    }
  }

  ghost predicate DistinctRels(changes: seq<Change>) {
    forall i, j :: 0 <= i < j < |changes| ==> changes[i].rel != changes[j].rel
  }

  function Rels(changes: seq<Change>): seq<Rel> {
    seq(|changes|, i requires 0 <= i < |changes| => changes[i].rel)
  }

  lemma {:induction false} AllApply(l: Layout, rels: iset<Rel>, o: Outcome, changes: seq<Change>)
    requires Plain(l, rels) && NoTemps(l, rels, o.base) && DistinctRels(changes)
    requires forall i :: 0 <= i < |changes| ==> changes[i].rel in rels
    ensures var o' := ApplyAll(l, o, changes);
      && o'.applied == o.applied + |changes| && o'.rejected == o.rejected && o'.paths == o.paths + Rels(changes)
      && (forall i :: 0 <= i < |changes| ==> Lookup(o'.base, l.place(changes[i].rel)) == Left(l, changes[i]))
      && (forall p :: (forall i :: 0 <= i < |changes| ==> l.place(changes[i].rel) != p) ==> Lookup(o'.base, p) == Lookup(o.base, p))
    decreases changes
  {
    if changes != [] {
      var o1 := ApplyChange(l, o, changes[0]);
      ChangeApplies(l, rels, o, changes[0]);
      AllApply(l, rels, o1, changes[1..]);
      var o' := ApplyAll(l, o1, changes[1..]);
      RelsCons(o.paths, changes);
      forall i | 0 <= i < |changes| ensures Lookup(o'.base, l.place(changes[i].rel)) == Left(l, changes[i]) {
        if i == 0 {
          assert forall k :: 0 <= k < |changes[1..]| ==> changes[1..][k] == changes[k + 1];
        } else {
          assert changes[1..][i - 1] == changes[i];
        }
      }
      forall p | forall i :: 0 <= i < |changes| ==> l.place(changes[i].rel) != p
        ensures Lookup(o'.base, p) == Lookup(o.base, p)
      {
        assert forall k :: 0 <= k < |changes[1..]| ==> changes[1..][k] == changes[k + 1];
        assert l.place(changes[0].rel) != p;
      }
    }
  }

  lemma RelsCons(paths: seq<Rel>, changes: seq<Change>)
    requires changes != []
    ensures (paths + [changes[0].rel]) + Rels(changes[1..]) == paths + Rels(changes)
  {
    assert Rels(changes) == [changes[0].rel] + Rels(changes[1..]);
    Assoc(paths, [changes[0].rel], Rels(changes[1..]));
  }
}
