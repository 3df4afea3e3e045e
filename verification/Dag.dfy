/** Task graphs (rolen-orchestrator/src/scheduler.rs): `validate_dag` by coloured
    depth-first search, `blocked_by_question` by a walk that shares its `seen` set. */
module Dag {
  import opened Text

  datatype Task = Task(id: string, deps: seq<string>, claims: seq<string>)

  datatype Verdict = Fine | Duplicate | Unknown(task: string, dep: string) | Cycle(id: string)

  type Spec = seq<Task>

  function Ids(spec: Spec): set<string> {
    set i | 0 <= i < |spec| :: spec[i].id
  }

  /** `iter().find(|t| t.id == id)`: the first task of that id. */
  function Find(spec: Spec, id: string): (r: Option<Task>)
    ensures r.Some? ==> r.value in spec && r.value.id == id
    ensures r.Some? <==> id in Ids(spec)
  {
    if spec == [] then None
    else if spec[0].id == id then Some(spec[0])
    else
      assert forall i :: 1 <= i < |spec| ==> spec[i] == spec[1..][i - 1];
      Find(spec[1..], id)
  }

  function Deps(spec: Spec, id: string): seq<string> {
    match Find(spec, id) case None => [] case Some(t) => t.deps
  }

  // ------------------------------------------------------------- the graph

  predicate Edge(spec: Spec, u: string, v: string) {
    v in Deps(spec, u)
  }

  predicate Walkable(spec: Spec, p: seq<string>) {
    forall i :: 0 <= i < |p| - 1 ==> Edge(spec, p[i], p[i + 1])
  }

  /** `p` leads from `u` to `v` over one or more dependency edges. */
  predicate Leads(spec: Spec, p: seq<string>, u: string, v: string) {
    |p| >= 2 && p[0] == u && p[|p| - 1] == v && Walkable(spec, p)
  }

  ghost predicate Reaches(spec: Spec, u: string, v: string) {
    exists p :: Leads(spec, p, u, v)
  }

  ghost predicate Acyclic(spec: Spec) {
    forall u :: !Reaches(spec, u, u)
  }

  predicate UniqueIds(spec: Spec) {
    forall i, j :: 0 <= i < j < |spec| ==> spec[i].id != spec[j].id
  }

  predicate KnownDeps(spec: Spec) {
    forall i, d :: 0 <= i < |spec| && d in spec[i].deps ==> d in Ids(spec)
  }

  ghost predicate WellFormed(spec: Spec) {
    UniqueIds(spec) && KnownDeps(spec) && Acyclic(spec)
  }

  // ------------------------------------------------------------- ranks

  /** Every node comes after all its dependencies. */
  ghost predicate DepsFirst(spec: Spec, order: seq<string>) {
    forall i :: 0 <= i < |order| ==> forall d :: d in Deps(spec, order[i]) ==> d in order[..i]
  }

  ghost predicate TopologicalOrder(spec: Spec, order: seq<string>) {
    DepsFirst(spec, order) && (forall id :: id in Ids(spec) <==> id in order)
  }

  lemma WalkableTail(spec: Spec, p: seq<string>)
    requires |p| >= 2 && Walkable(spec, p)
    ensures Walkable(spec, p[1..])
  {
    forall i | 0 <= i < |p[1..]| - 1 ensures Edge(spec, p[1..][i], p[1..][i + 1]) {
      assert Edge(spec, p[i + 1], p[i + 2]);
    }
  }

  lemma {:induction false} PathDescends(spec: Spec, order: seq<string>, i: nat, p: seq<string>) returns (j: nat)
    requires DepsFirst(spec, order) && i < |order| && |p| >= 2 && Walkable(spec, p) && order[i] == p[0]
    ensures j < i && order[j] == p[|p| - 1]
    decreases |p|
  {
    assert Edge(spec, p[0], p[1]);
    assert p[1] in order[..i];
    j :| 0 <= j < i && order[j] == p[1];
    if |p| > 2 {
      WalkableTail(spec, p);
      j := PathDescends(spec, order, j, p[1..]);
    }
  }

  lemma {:induction false} NoCycleThrough(spec: Spec, order: seq<string>, i: nat, p: seq<string>)
    requires DepsFirst(spec, order) && i < |order|
    ensures !Leads(spec, p, order[i], order[i])
  {
    if Leads(spec, p, order[i], order[i]) {
      var j := PathDescends(spec, order, i, p);
      NoCycleThrough(spec, order, j, p);
    }
  }

  /** A topological order rules cycles out. */
  lemma OrderedIsAcyclic(spec: Spec, order: seq<string>)
    requires TopologicalOrder(spec, order)
    ensures Acyclic(spec)
  {
    forall u, p ensures !Leads(spec, p, u, u) {
      if Leads(spec, p, u, u) {
        assert Edge(spec, p[0], p[1]);
        assert u in order;
        var i :| 0 <= i < |order| && order[i] == u;
        NoCycleThrough(spec, order, i, p);
      }
    }
  }

  // ------------------------------------------------------------- validate_dag

  lemma {:induction false} IdsCount(spec: Spec)
    ensures |Ids(spec)| <= |spec|
    ensures |Ids(spec)| == |spec| <==> UniqueIds(spec)
  {
    if spec != [] {
      var n := |spec| - 1;
      IdsCount(spec[..n]);
      IdsSnoc(spec);
      assert UniqueIds(spec) <==> UniqueIds(spec[..n]) && spec[n].id !in Ids(spec[..n]);
    }
  }

  lemma IdsSnoc(spec: Spec)
    requires spec != []
    ensures Ids(spec) == Ids(spec[..|spec| - 1]) + {spec[|spec| - 1].id}
  {
    var n := |spec| - 1;
    forall x | x in Ids(spec) ensures x in Ids(spec[..n]) + {spec[n].id} {
      var i :| 0 <= i < |spec| && spec[i].id == x;
      if i < n { assert spec[..n][i].id == x; }
    }
    forall x | x in Ids(spec[..n]) ensures x in Ids(spec) {
      var i :| 0 <= i < n && spec[..n][i].id == x;
      assert spec[i].id == x;
    }
  }

  /** The colours of the depth-first search: absent = unvisited, 1 = in stack, 2 = done. */
  class Colouring {
    const spec: Spec
    var color: map<string, int>
    ghost var order: seq<string>

    constructor (spec: Spec)
      ensures this.spec == spec && color == map[] && order == []
    {
      this.spec := spec;
      color := map[];
      order := [];
    }

    /** The stack is a path of distinct grey nodes; the black ones are ranked, dependencies first. */
    ghost predicate Sound(stack: seq<string>)
      reads this
    {
      && color.Keys <= Ids(spec)
      && (forall x :: x in color ==> color[x] == 1 || color[x] == 2)
      && (forall x :: x in color && color[x] == 1 <==> x in stack)
      && (forall x :: x in color && color[x] == 2 <==> x in order)
      && Walkable(spec, stack)
      && DepsFirst(spec, order)
    }

    method Visit(id: string, ghost stack: seq<string>) returns (r: Verdict)
      requires KnownDeps(spec) && id in Ids(spec) && Sound(stack)
      requires stack != [] ==> Edge(spec, stack[|stack| - 1], id)
      modifies this
      ensures r.Fine? || (r.Cycle? && Reaches(spec, r.id, r.id))
      ensures old(color.Keys) <= color.Keys && old(order) <= order
      ensures r.Fine? ==> Sound(stack) && id in order
      decreases Ids(spec) - color.Keys, 0
    {
      var mark := if id in color then color[id] else 0;
      if mark == 1 {
        GreyCloses(spec, stack, id);
        return Cycle(id);
      }
      if mark == 2 { return Fine; }
      Enter(id, stack);
      var task := Find(spec, id).value;
      assert forall d :: d in task.deps ==> d in Deps(spec, id);
      r := VisitAll(task.deps, stack + [id]);
      if !r.Fine? { return; }
      Leave(id, stack);
      r := Fine;
    }

    /** The loop over the dependencies of the node on top of the stack. */
    method VisitAll(deps: seq<string>, ghost stack: seq<string>) returns (r: Verdict)
      requires KnownDeps(spec) && Sound(stack) && stack != []
      requires forall d :: d in deps ==> d in Ids(spec) && Edge(spec, stack[|stack| - 1], d)
      modifies this
      ensures r.Fine? || (r.Cycle? && Reaches(spec, r.id, r.id))
      ensures old(color.Keys) <= color.Keys && old(order) <= order
      ensures r.Fine? ==> Sound(stack) && forall d :: d in deps ==> d in order
      decreases Ids(spec) - color.Keys, 1
    {
      var i := 0;
      while i < |deps|
        invariant 0 <= i <= |deps|
        invariant old(color.Keys) <= color.Keys && old(order) <= order
        invariant Sound(stack)
        invariant forall k :: 0 <= k < i ==> deps[k] in order
      {
        r := Visit(deps[i], stack);
        if !r.Fine? { return; }
        i := i + 1;
      }
      r := Fine;
    }

    /** An unvisited node goes grey, on top of the stack. */
    method Enter(id: string, ghost stack: seq<string>)
      requires id in Ids(spec) && id !in color && Sound(stack)
      requires stack != [] ==> Edge(spec, stack[|stack| - 1], id)
      modifies this`color
      ensures color.Keys == old(color.Keys) + {id} && Sound(stack + [id])
    {
      color := color[id := 1];
    }

    /** The node on top of the stack, its dependencies done, goes black. */
    method Leave(id: string, ghost stack: seq<string>)
      requires Sound(stack + [id]) && id !in stack
      requires forall d :: d in Deps(spec, id) ==> d in order
      modifies this
      ensures color.Keys == old(color.Keys) && order == old(order) + [id] && Sound(stack)
    {
      assert (stack + [id])[|stack|] == id;
      color := color[id := 2];
      order := order + [id];
      forall i | 0 <= i < |order| ensures forall d :: d in Deps(spec, order[i]) ==> d in order[..i] {
        assert order[..i] == old(order)[..i];
      }
      assert forall i :: 0 <= i < |stack| ==> (stack + [id])[i] == stack[i];
    }
  }

  /** Meeting a node of the stack again closes a cycle through it. */
  lemma GreyCloses(spec: Spec, stack: seq<string>, id: string)
    requires Walkable(spec, stack) && id in stack && Edge(spec, stack[|stack| - 1], id)
    ensures Reaches(spec, id, id)
  {
    var k :| 0 <= k < |stack| && stack[k] == id;
    var p := stack[k..] + [id];
    assert Leads(spec, p, id, id);
  }

  /** `validate_dag` accepts exactly the graphs with unique ids, known dependencies and no
      cycle; a reported cycle is real, and an accepted graph has a topological order. */
  method ValidateDag(spec: Spec) returns (r: Verdict)
    ensures r.Fine? <==> WellFormed(spec)
    ensures r.Duplicate? <==> !UniqueIds(spec)
    ensures r.Unknown? <==> UniqueIds(spec) && !KnownDeps(spec)
    ensures r.Cycle? <==> UniqueIds(spec) && KnownDeps(spec) && !Acyclic(spec)
    ensures r.Unknown? ==> r.dep in Deps(spec, r.task) && r.dep !in Ids(spec)
    ensures r.Cycle? ==> Reaches(spec, r.id, r.id)
    ensures r.Fine? ==> exists order :: TopologicalOrder(spec, order)
  {
    var ids := Ids(spec);
    IdsCount(spec);
    if |ids| != |spec| { return Duplicate; }
    var i := 0;
    while i < |spec|
      invariant 0 <= i <= |spec|
      invariant forall k, d :: 0 <= k < i && d in spec[k].deps ==> d in ids
    {
      var j := 0;
      while j < |spec[i].deps|
        invariant 0 <= j <= |spec[i].deps|
        invariant forall k :: 0 <= k < j ==> spec[i].deps[k] in ids
      {
        if spec[i].deps[j] !in ids {
          FindUnique(spec, i);
          return Unknown(spec[i].id, spec[i].deps[j]);
        }
        j := j + 1;
      }
      i := i + 1;
    }
    var colouring := new Colouring(spec);
    i := 0;
    while i < |spec|
      invariant 0 <= i <= |spec|
      invariant colouring.spec == spec && colouring.Sound([]) && fresh(colouring)
      invariant forall k :: 0 <= k < i ==> spec[k].id in colouring.order
    {
      r := colouring.Visit(spec[i].id, []);
      if !r.Fine? { return; }
      i := i + 1;
    }
    assert TopologicalOrder(spec, colouring.order);
    OrderedIsAcyclic(spec, colouring.order);
    r := Fine;
  }

  lemma {:induction false} FindUnique(spec: Spec, i: nat)
    requires i < |spec| && UniqueIds(spec)
    ensures Find(spec, spec[i].id) == Some(spec[i])
  {
    if i > 0 {
      assert spec[1..][i - 1] == spec[i];
      FindUnique(spec[1..], i - 1);
    }
  }

  // ------------------------------------------------------------- blocked_by_question

  function AllDeps(spec: Spec): set<string> {
    set i, d | 0 <= i < |spec| && d in spec[i].deps :: d
  }

  /** Some task reachable over one or more dependency edges has a pending question. */
  ghost predicate Blocked(spec: Spec, id: string, pending: set<string>) {
    exists d :: d in pending && Reaches(spec, id, d)
  }

  lemma BlockedByDep(spec: Spec, id: string, d: string, pending: set<string>)
    requires Edge(spec, id, d) && (d in pending || Blocked(spec, d, pending))
    ensures Blocked(spec, id, pending)
  {
    if d in pending {
      assert Leads(spec, [id, d], id, d);
    } else {
      var e :| e in pending && Reaches(spec, d, e);
      var p :| Leads(spec, p, d, e);
      assert Leads(spec, [id] + p, id, e);
    }
  }

  /** Every dependency of the node is in `seen` and has no question. */
  ghost predicate Clear(spec: Spec, v: string, seen: set<string>, pending: set<string>) {
    forall d :: d in Deps(spec, v) ==> d in seen && d !in pending
  }

  /** The nested `walk`: what it adds to `seen` is closed under dependencies and free of
      questions, so pruning by `seen` loses nothing. */
  method Walk(spec: Spec, id: string, pending: set<string>, seen0: set<string>) returns (blocked: bool,
      seen: set<string>)
    requires seen0 <= AllDeps(spec)
    ensures seen0 <= seen <= AllDeps(spec)
    ensures blocked ==> Blocked(spec, id, pending)
    ensures !blocked ==> forall v :: v == id || (v in seen && v !in seen0) ==> Clear(spec, v, seen, pending)
    decreases AllDeps(spec) - seen0
  {
    seen := seen0;
    var task := Find(spec, id);
    if task.None? { return false, seen; }
    var deps := task.value.deps;
    var i := 0;
    while i < |deps|
      invariant 0 <= i <= |deps|
      invariant seen0 <= seen <= AllDeps(spec)
      invariant forall k :: 0 <= k < i ==> deps[k] in seen && deps[k] !in pending
      invariant forall v :: v in seen && v !in seen0 ==> Clear(spec, v, seen, pending)
    {
      var dep := deps[i];
      assert Edge(spec, id, dep);
      if dep in pending {
        BlockedByDep(spec, id, dep, pending);
        return true, seen;
      }
      if dep !in seen {
        ghost var before := seen;
        seen := seen + {dep};
        assert dep in AllDeps(spec);
        blocked, seen := Walk(spec, dep, pending, seen);
        if blocked {
          BlockedByDep(spec, id, dep, pending);
          return true, seen;
        }
        forall v | v in seen && v !in seen0 ensures Clear(spec, v, seen, pending) {
          assert v in before || v == dep || v !in before + {dep};
        }
      }
      i := i + 1;
    }
    blocked := false;
  }

  lemma {:induction false} ClosedMisses(spec: Spec, seen: set<string>, pending: set<string>,
      p: seq<string>, u: string, v: string)
    requires Leads(spec, p, u, v) && Clear(spec, u, seen, pending)
    requires forall x :: x in seen ==> Clear(spec, x, seen, pending)
    ensures v !in pending
    decreases |p|
  {
    assert Edge(spec, p[0], p[1]);
    if |p| > 2 {
      WalkableTail(spec, p);
      ClosedMisses(spec, seen, pending, p[1..], p[1], v);
    }
  }

  /** `blocked_by_question` is exact on every spec, cyclic or not, and terminates on all. */
  method BlockedByQuestion(spec: Spec, id: string, pending: set<string>) returns (blocked: bool)
    ensures blocked <==> Blocked(spec, id, pending)
  {
    if pending == {} { return false; }
    var seen: set<string>;
    blocked, seen := Walk(spec, id, pending, {});
    if !blocked {
      forall d, p | d in pending ensures !Leads(spec, p, id, d) {
        if Leads(spec, p, id, d) { ClosedMisses(spec, seen, pending, p, id, d); }
      }
    }
  }
}
