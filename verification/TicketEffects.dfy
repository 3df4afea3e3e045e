/** What each kind of ticket leaves when it is applied, and when it is
    (rolen-orchestrator/src/queue.rs:261-325). */
module TicketEffects {
  import opened Text
  import opened Tickets
  import P = Patch
  import U = UnifiedDiff

  /** The applier finds the version the ticket names. A patch names none; without a base hash
      only a create insists, on there being no file. */
  predicate VersionMet(env: Env, t: Ticket, found: Option<Content>) {
    || t.op == Patch
    || (t.baseHash.Some? && found.Some? && env.hash(found.value) == t.baseHash.value)
    || (t.baseHash.None? && (found.None? || t.op != Create))
  }

  ghost predicate ChangedOnly(before: Files, after: Files, paths: set<Path>) {
    forall q :: q !in paths ==> Lookup(after, q) == Lookup(before, q)
  }

  /** The path holds the text, its temp file is gone, all else is as it was. */
  ghost predicate Wrote(env: Env, before: Files, after: Files, p: Path, text: Content) {
    && Lookup(after, p) == Some(text)
    && (env.temp(p) != p ==> env.temp(p) !in after)
    && ChangedOnly(before, after, {p, env.temp(p)})
  }

  /** A create or replace is applied exactly when it finds its version and nothing fails, and
      then its path holds its payload. */
  lemma FullWriteExactly(env: Env, files: Files, t: Ticket, fault: Fault, p: Path)
    requires (t.op == Create || t.op == Replace) && env.resolve(t.key) == Some(p)
    ensures var (after, verdict) := ApplyTicket(env, files, t, fault);
      && (verdict == Applied <==> VersionMet(env, t, Seen(fault, Lookup(files, p))) && Later(fault) == NoFault)
      && (verdict == Applied ==> Wrote(env, files, after, p, t.payload))
  {
  }

  /** The text a patch starts from: that of the file, or none if there is none to read. */
  function PatchedText(files: Files, fault: Fault, p: Path): Content {
    match Seen(fault, Lookup(files, p)) case None => "" case Some(text) => text
  }

  /** A patch ticket is applied exactly when its payload patches the text it finds and nothing
      fails, and then its path holds the patched text. */
  lemma PatchExactly(env: Env, files: Files, t: Ticket, fault: Fault, p: Path)
    requires t.op == Patch && env.resolve(t.key) == Some(p)
    ensures var (after, verdict) := ApplyTicket(env, files, t, fault);
            var patched := P.ApplyPatch(PatchedText(files, fault, p), t.payload);
      && (verdict == Applied <==> patched.Patched? && Later(fault) == NoFault)
      && (verdict == Applied ==> Wrote(env, files, after, p, patched.value))
  {
  }

  /** A delete is applied exactly when it finds its version and the removal of a file that is
      there does not fail, and then that file alone is gone. */
  lemma DeleteExactly(env: Env, files: Files, t: Ticket, fault: Fault, p: Path)
    requires t.op == Delete && env.resolve(t.key) == Some(p)
    ensures var (after, verdict) := ApplyTicket(env, files, t, fault);
      && (verdict == Applied <==>
            VersionMet(env, t, Seen(fault, Lookup(files, p))) && (p !in files || Later(fault) == NoFault))
      && (verdict == Applied ==> p !in after && ChangedOnly(files, after, {p}))
  {
  }

  /** A rename is applied exactly when it finds its version, its target resolves, its source is
      there and nothing fails, and then the target holds what the source held. */
  lemma RenameExactly(env: Env, files: Files, t: Ticket, fault: Fault, p: Path)
    requires t.op == Rename && env.resolve(t.key) == Some(p)
    ensures var (after, verdict) := ApplyTicket(env, files, t, fault);
            var target := env.resolve(t.payload);
      && (verdict == Applied <==>
            && VersionMet(env, t, Seen(fault, Lookup(files, p)))
            && target.Some? && p in files && Later(fault) == NoFault)
      && (verdict == Applied ==>
            && Lookup(after, target.value) == Lookup(files, p)
            && (target.value != p ==> p !in after)
            && ChangedOnly(files, after, {p, target.value}))
  {
  }

  /** A path that leads out of the workspace gets a ticket rejected, and nothing is touched. */
  lemma UnresolvedIsRejected(env: Env, files: Files, t: Ticket, fault: Fault)
    requires env.resolve(t.key).None?
    ensures ApplyTicket(env, files, t, fault) == (files, Rejected)
  {
  }

  /** A patch ticket that carries a diff written from any cut of an edit script turns the file
      into its successor. */
  lemma WrittenDiffIsApplied(env: Env, files: Files, t: Ticket, p: Path, old_: Content, new_: Content, pieces: seq<U.Piece>)
    requires t.op == Patch && env.resolve(t.key) == Some(p) && PatchedText(files, NoFault, p) == old_
    requires t.payload == U.DiffText(pieces) && U.Written(pieces) && U.Between(pieces, old_, new_) && new_ != ""
    ensures var (after, verdict) := ApplyTicket(env, files, t, NoFault);
      verdict == Applied && Wrote(env, files, after, p, new_)
  {
    U.PatchMakesSuccessor(old_, new_, pieces);
    PatchExactly(env, files, t, NoFault, p);
  }
}
