/** The harvest in place: walkers that push into one list of changes, then a loop that submits
    a ticket for each while the base changes under it (rolen-cliadapters/src/overlay.rs:55-168). */
module Harvest {
  import opened Text
  import opened Tickets
  import opened HarvestSpec

  function Size(es: Entries): nat {
    if es.Nil? then 0 else 1 + Size(es.rest) + (if es.node.Dir? then Size(es.node.entries) else 0)
  }

  lemma {:induction false} DifferingBoth(l: Layout, base: Files, a: seq<Found>, b: seq<Found>)
    ensures Differing(l, base, a + b) == Differing(l, base, a) + Differing(l, base, b)
  {
    if a == [] {
      assert a + b == b;
    } else {
      assert (a + b)[1..] == a[1..] + b;
      DifferingBoth(l, base, a[1..], b);
    }
  }

  lemma {:induction false} GoneBoth(staging: Entries, a: seq<Found>, b: seq<Found>)
    ensures Gone(staging, a + b) == Gone(staging, a) + Gone(staging, b)
  {
    if a == [] {
      assert a + b == b;
    } else {
      assert (a + b)[1..] == a[1..] + b;
      GoneBoth(staging, a[1..], b);
    }
  }

  class Harvester {
    const layout: Layout
    const staging: Entries
    var base: Files
    var changes: seq<Change>
    var applied: nat
    var rejected: nat
    var paths: seq<Rel>

    constructor (layout: Layout, staging: Entries, base: Files)
      ensures this.layout == layout && this.staging == staging
      ensures View() == Outcome(base, 0, 0, []) && changes == []
    {
      this.layout := layout;
      this.staging := staging;
      this.base := base;
      changes, applied, rejected, paths := [], 0, 0, [];
    }

    function View(): Outcome
      reads this
    {
      Outcome(base, applied, rejected, paths)
    }

    /** `collect_writes`: it descends into every directory. */
    method CollectWrites(at: Rel, dir: Entries)
      modifies this`changes
      ensures changes == old(changes) + Differing(layout, base, Walk(at, dir, false))
      decreases Size(dir)
    {
      var es := dir;
      while es.Entry?
        invariant Size(es) <= Size(dir)
        invariant changes + Differing(layout, base, Walk(at, es, false)) == old(changes) + Differing(layout, base, Walk(at, dir, false))
        decreases Size(es)
      {
        ghost var before := changes;
        ghost var here := match es.node case File(content) => [(at + [es.name], content)] case Dir(entries) => Walk(at + [es.name], entries, false);
        DifferingBoth(layout, base, here, Walk(at, es.rest, false));
        match es.node {
          case Dir(entries) => CollectWrites(at + [es.name], entries);
          case File(content) =>
            var rel := at + [es.name];
            if BaseAt(layout, base, rel) != Some(content) { changes := changes + [Write(rel, content)]; }
            OneDiffering(rel, content);
        }
        assert changes == before + Differing(layout, base, here);
        Assoc(before, Differing(layout, base, here), Differing(layout, base, Walk(at, es.rest, false)));
        es := es.rest;
      }
    }

    lemma OneDiffering(rel: Rel, content: Content)
      ensures Differing(layout, base, [(rel, content)]) ==
                if BaseAt(layout, base, rel) != Some(content) then [Write(rel, content)] else []
    {
      assert [(rel, content)][1..] == [];
    }

    /** `collect_deletes`: it passes over the skipped names. */
    method CollectDeletes(at: Rel, dir: Entries)
      modifies this`changes
      ensures changes == old(changes) + Gone(staging, Walk(at, dir, true))
      decreases Size(dir)
    {
      var es := dir;
      while es.Entry?
        invariant Size(es) <= Size(dir)
        invariant changes + Gone(staging, Walk(at, es, true)) == old(changes) + Gone(staging, Walk(at, dir, true))
        decreases Size(es)
      {
        if es.name !in SkipDirs {
          ghost var before := changes;
          ghost var here := match es.node case File(content) => [(at + [es.name], content)] case Dir(entries) => Walk(at + [es.name], entries, true);
          GoneBoth(staging, here, Walk(at, es.rest, true));
          match es.node {
            case Dir(entries) => CollectDeletes(at + [es.name], entries);
            case File(content) =>
              var rel := at + [es.name];
              if Get(staging, rel).None? { changes := changes + [Remove(rel)]; }
              OneGone(rel, content);
          }
          assert changes == before + Gone(staging, here);
          Assoc(before, Gone(staging, here), Gone(staging, Walk(at, es.rest, true)));
        } else {
          GoneBoth(staging, [], Walk(at, es.rest, true));
        }
        es := es.rest;
      }
    }

    lemma OneGone(rel: Rel, content: Content)
      ensures Gone(staging, [(rel, content)]) == if Get(staging, rel).None? then [Remove(rel)] else []
    {
      assert [(rel, content)][1..] == [];
    }

    /** Submit and wait: the queue applies the ticket. */
    method Submit(t: Ticket) returns (verdict: Verdict)
      requires t.op == Create || t.op == Replace || t.op == Delete
      modifies this`base
      ensures (base, verdict) == ApplyTicket(layout.env, old(base), t, NoFault)
    {
      var place := layout.env.resolve(t.key);
      if place.None? { return Rejected; }
      if Stale(layout.env, t, Lookup(base, place.value)) { return Rejected; }
      var (after, v) := Execute(layout.env, base, place.value, if t.op == Delete then Unlink else Put(t.payload), NoFault);
      base := after;
      verdict := v;
    }

    method SubmitChange(c: Change)
      modifies this`base, this`applied, this`rejected, this`paths
      ensures View() == ApplyChange(layout, old(View()), c)
    {
      var ticket := TicketFor(layout, base, c);
      paths := paths + [c.rel];
      var verdict := Submit(ticket);
      match verdict
      case Applied => applied := applied + 1;
      case Rejected => rejected := rejected + 1;
    }

    /** The loop of `harvest` over the collected changes. */
    method SubmitAll()
      modifies this`base, this`applied, this`rejected, this`paths
      ensures View() == ApplyAll(layout, old(View()), changes)
    {
      var i := 0;
      while i < |changes|
        invariant 0 <= i <= |changes|
        invariant ApplyAll(layout, View(), changes[i..]) == ApplyAll(layout, old(View()), changes)
      {
        assert changes[i..][0] == changes[i] && changes[i..][1..] == changes[i + 1..];
        SubmitChange(changes[i]);
        i := i + 1;
      }
    }

    method Run(baseTree: Entries)
      requires changes == []
      modifies this
      ensures View() == ApplyAll(layout, old(View()), Changes(layout, old(base), baseTree, staging))
    {
      CollectWrites([], staging);
      assert changes == Differing(layout, base, Walk([], staging, false));
      CollectDeletes([], baseTree);
      assert changes == Changes(layout, base, baseTree, staging);
      SubmitAll();
    }
  }
}
