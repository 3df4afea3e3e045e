/** `apply_ticket` (rolen-orchestrator/src/queue.rs): what one write ticket does to the
    workspace when nothing else happens meanwhile. */
module Tickets {
  import opened Text
  import Patch

  type Path = string
  type Content = string
  type Files = map<Path, Content>

  datatype WriteOp = Create | Patch | Replace | Delete | Rename
  datatype Verdict = Applied | Rejected
  datatype Ticket = Ticket(key: string, op: WriteOp, payload: Content, baseHash: Option<string>)

  /** The workspace's own functions: `resolve_in`, `with_extension("rolen-tmp")`, the content hash. */
  datatype Env = Env(resolve: string -> Option<Path>, temp: Path -> Path, hash: Content -> string)

  /** What the file system refuses to do for a ticket. A read that fails, alone or before
      another failure, passes for a file that is not there. */
  datatype Fault = NoFault | WriteFails(residue: Option<Content>) | RenameFails | ReadFails(next: Fault)

  datatype Plan = Put(text: Content) | Unlink | MoveTo(target: Path)
  datatype Check = Refuse | Panic | Go(plan: Plan)

  function Lookup(files: Files, p: Path): Option<Content> {
    if p in files then Some(files[p]) else None
  }

  /** The optimistic-concurrency test on the content the applier finds. */
  predicate Stale(env: Env, t: Ticket, current: Option<Content>) {
    if t.op == Patch then false
    else match (t.baseHash, current)
      case (None, None) => false
      case (Some(want), Some(got)) => want != env.hash(got)
      case (None, Some(_)) => t.op == Create
      case (Some(_), None) => true
  }

  /** What the applier decides from the content it finds at the ticket's path. */
  ghost function CheckTicket(env: Env, t: Ticket, current: Option<Content>): Check {
    if Stale(env, t, current) then Refuse
    else match t.op
      case Create => Go(Put(t.payload))
      case Replace => Go(Put(t.payload))
      case Delete => Go(Unlink)
      case Rename =>
        (match env.resolve(t.payload) case None => Refuse case Some(q) => Go(MoveTo(q)))
      case Patch =>
        match Patch.ApplyPatch(if current.Some? then current.value else "", t.payload)
        case Crash => Panic
        case Reject => Refuse
        case Patched(text) => Go(Put(text))
  }

  /** `std::fs::rename` of an existing source. */
  function Move(files: Files, src: Path, dst: Path): Files
    requires src in files
  {
    if src == dst then files else (files - {src})[dst := files[src]]
  }

  function Leave(files: Files, p: Path, residue: Option<Content>): Files {
    match residue case None => files case Some(text) => files[p := text]
  }

  /** The failure met after the check. */
  function Later(fault: Fault): (r: Fault)
    ensures !r.ReadFails?
  {
    if fault.ReadFails? then Later(fault.next) else fault
  }

  /** What the check finds at the path. */
  function Seen(fault: Fault, current: Option<Content>): Option<Content> {
    if fault.ReadFails? then None else current
  }

  function Execute(env: Env, files: Files, p: Path, plan: Plan, fault: Fault): (Files, Verdict) {
    match plan
    case Put(text) =>
      var tmp := env.temp(p);
      (match Later(fault)
       case WriteFails(residue) => (Leave(files, tmp, residue), Rejected)
       case RenameFails => (files[tmp := text], Rejected)
       case _ => (Move(files[tmp := text], tmp, p), Applied))
    case Unlink =>
      if p !in files then (files, Applied)
      else if Later(fault) != NoFault then (files, Rejected)
      else (files - {p}, Applied)
    case MoveTo(q) =>
      if p !in files || Later(fault) != NoFault then (files, Rejected) else (Move(files, p, q), Applied)
  }

  /** The ticket applied in one go. */
  ghost function ApplyTicket(env: Env, files: Files, t: Ticket, fault: Fault): (Files, Verdict) {
    match env.resolve(t.key)
    case None => (files, Rejected)
    case Some(p) =>
      match CheckTicket(env, t, Seen(fault, Lookup(files, p)))
      case Refuse => (files, Rejected)
      case Panic => (files, Rejected)
      case Go(plan) => Execute(env, files, p, plan, fault)
  }

  // ------------------------------------------------------------- locality

  /** Every path a ticket reads or writes: its resolved path, the temp file beside it,
      the target of a rename. */
  function Footprint(env: Env, t: Ticket): set<Path> {
    match env.resolve(t.key)
    case None => {}
    case Some(p) =>
      match t.op
      case Delete => {p}
      case Rename => (match env.resolve(t.payload) case None => {p} case Some(q) => {p, q})
      case Create => {p, env.temp(p)}
      case Replace => {p, env.temp(p)}
      case Patch => {p, env.temp(p)}
  }

  ghost predicate Agree(x: Files, y: Files, paths: set<Path>) {
    forall p :: p in paths ==> Lookup(x, p) == Lookup(y, p)
  }

  function PlanPaths(env: Env, p: Path, plan: Plan): set<Path> {
    match plan case Put(_) => {p, env.temp(p)} case Unlink => {p} case MoveTo(q) => {p, q}
  }

  lemma ExecuteTouchesPlanOnly(env: Env, x: Files, p: Path, plan: Plan, fault: Fault, q: Path)
    requires q !in PlanPaths(env, p, plan)
    ensures Lookup(Execute(env, x, p, plan, fault).0, q) == Lookup(x, q)
  {
  }

  lemma ExecuteLocal(env: Env, x: Files, y: Files, p: Path, plan: Plan, fault: Fault)
    requires Agree(x, y, PlanPaths(env, p, plan))
    ensures Execute(env, x, p, plan, fault).1 == Execute(env, y, p, plan, fault).1
    ensures Agree(Execute(env, x, p, plan, fault).0, Execute(env, y, p, plan, fault).0, PlanPaths(env, p, plan))
  {
    assert p in PlanPaths(env, p, plan);
    assert Lookup(x, p) == Lookup(y, p);
    assert p in x <==> p in y;
  }

  lemma PlanStaysInFootprint(env: Env, t: Ticket, current: Option<Content>)
    requires env.resolve(t.key).Some? && CheckTicket(env, t, current).Go?
    ensures PlanPaths(env, env.resolve(t.key).value, CheckTicket(env, t, current).plan) == Footprint(env, t)
  {
  }

  lemma TouchesFootprintOnly(env: Env, files: Files, t: Ticket, fault: Fault, q: Path)
    requires q !in Footprint(env, t)
    ensures Lookup(ApplyTicket(env, files, t, fault).0, q) == Lookup(files, q)
  {
    if env.resolve(t.key).Some? {
      var p := env.resolve(t.key).value;
      var current := Seen(fault, Lookup(files, p));
      var check := CheckTicket(env, t, current);
      if check.Go? {
        PlanStaysInFootprint(env, t, current);
        ExecuteTouchesPlanOnly(env, files, p, check.plan, fault, q);
      }
    }
  }

  lemma DependsOnFootprintOnly(env: Env, x: Files, y: Files, t: Ticket, fault: Fault)
    requires Agree(x, y, Footprint(env, t))
    ensures ApplyTicket(env, x, t, fault).1 == ApplyTicket(env, y, t, fault).1
    ensures Agree(ApplyTicket(env, x, t, fault).0, ApplyTicket(env, y, t, fault).0, Footprint(env, t))
  {
    if env.resolve(t.key).Some? {
      var p := env.resolve(t.key).value;
      assert p in Footprint(env, t);
      assert Lookup(x, p) == Lookup(y, p);
      var current := Seen(fault, Lookup(x, p));
      var check := CheckTicket(env, t, current);
      if check.Go? {
        PlanStaysInFootprint(env, t, current);
        ExecuteLocal(env, x, y, p, check.plan, fault);
      }
    }
  }

  /** A rejected ticket changes no content: nothing but, after an I/O failure, its own temp file. */
  lemma RejectedChangesNothing(env: Env, files: Files, t: Ticket, fault: Fault, q: Path)
    requires ApplyTicket(env, files, t, fault).1 == Rejected
    requires Later(fault) == NoFault || env.resolve(t.key).None? || q != env.temp(env.resolve(t.key).value)
    ensures Lookup(ApplyTicket(env, files, t, fault).0, q) == Lookup(files, q)
  {
  }

  /** A file that cannot be read at the check passes for absent: a create that would be turned
      down overwrites it. */
  lemma UnreadableIsOverwritten(env: Env, files: Files, t: Ticket)
    requires t.op == Create && t.baseHash == None && env.resolve(t.key).Some? && env.resolve(t.key).value in files
    ensures ApplyTicket(env, files, t, NoFault) == (files, Rejected)
    ensures var (after, verdict) := ApplyTicket(env, files, t, ReadFails(NoFault));
            verdict == Applied && Lookup(after, env.resolve(t.key).value) == Some(t.payload)
  {
  }
}
