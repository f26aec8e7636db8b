/** Writing an edit through a version-gated server that other clients write to at any moment. */
module ReconcileWrites {
  import opened Options
  import opened Json
  import PatchMerge

  datatype BaseVersion = Any | At(version: nat)

  datatype VersionedModel = VersionedModel(model: Json, baseVersion: nat)

  /** `sent` tells whether the refused write reached the server. */
  datatype ConflictError = ConflictError(actualVersion: nat, sent: bool)

  datatype Reply = Landed | Refused(conflict: ConflictError) | Failed

  /**
   * A write that landed: what was written, on which claimed base, and the root and version the server held right then.
   */
  datatype Landing = Landing(model: Json, claimed: BaseVersion, onto: Json, version: nat)

  /** In a history of roots by version, `w` is the one step from the root it was made on to the next. */
  predicate IsStep(w: Landing, roots: seq<Json>) {
    w.version + 1 < |roots| && roots[w.version] == w.onto && roots[w.version + 1] == w.model
  }

  /**
   * The server, with its history: the root of each version, in order. It also logs what this caller wrote. Every method
   * starts with whatever other clients commit while its caller awaits it.
   */
  class Server {
    var model: Json
    var version: nat
    ghost var roots: seq<Json>
    ghost var landed: seq<Landing>
    ghost var persists: nat

    /** The current root ends the history, in which each write of the caller's is one step. */
    ghost predicate Valid()
      reads this
    {
      && |roots| == version + 1 && roots[version] == model
      && forall w | w in landed :: IsStep(w, roots)
    }

    /** The history only grows: nothing that was written is unwritten. */
    twostate predicate Remembers()
      reads this
    {
      old(roots) <= roots
    }

    /** A read of the root that was current at some moment since. */
    twostate predicate WasCurrent(read: VersionedModel)
      reads this
    {
      old(version) <= read.baseVersion <= version && read.baseVersion < |roots| && roots[read.baseVersion] == read.model
    }

    constructor (root: Json)
      ensures Valid() && landed == [] && persists == 0
    {
      model, version := root, 0;
      roots, landed, persists := [root], [], 0;
    }

    method Commit(root: Json)
      requires Valid()
      modifies this`model, this`version, this`roots
      ensures Valid() && roots == old(roots) + [root]
    {
      model, version := root, version + 1;
      roots := roots + [root];
    }

    /** Any number of writes by other clients. */
    method OthersCommit()
      requires Valid()
      modifies this`model, this`version, this`roots
      ensures Valid() && Remembers()
    {
      var more: nat := *;
      while more > 0
        invariant Valid() && Remembers()
      {
        var root: Json := *;
        Commit(root);
        more := more - 1;
      }
    }

    /** A write, gated on the version it claims. It may be refused before it is sent, and its answer may be lost. */
    method Persist(root: Json, claimed: BaseVersion) returns (reply: Reply, ghost wrote: seq<Landing>)
      requires Valid()
      modifies this
      ensures Valid() && Remembers() && persists == old(persists) + 1
      ensures landed == old(landed) + wrote && |wrote| <= 1
      ensures wrote != [] ==>
                var w := wrote[0];
                && w.model == root && w.claimed == claimed && (claimed.At? ==> w.version == claimed.version)
                && old(version) <= w.version && IsStep(w, roots) && |roots| == w.version + 2
      ensures reply.Landed? ==> wrote != []
      ensures reply.Refused? ==>
                && wrote == []
                && (reply.conflict.sent ==> claimed.At? && claimed.version != version == reply.conflict.actualVersion)
    {
      persists, wrote := persists + 1, [];
      var beforeSending: bool := *;
      if beforeSending {
        var known: nat := *;
        return Refused(ConflictError(known, false)), [];
      }
      var lostOnTheWay: bool := *;
      if lostOnTheWay {
        return Failed, [];
      }
      OthersCommit();
      if claimed.At? && claimed.version != version {
        return Refused(ConflictError(version, true)), [];
      }
      wrote := [Landing(root, claimed, model, version)];
      Commit(root);
      landed := landed + wrote;
      var answerLost: bool := *;
      reply := if answerLost then Failed else Landed;
    }

    /** The current root with the version read in the same moment, or nothing. */
    method Refetch() returns (refetched: Option<VersionedModel>)
      requires Valid()
      modifies this
      ensures Valid() && Remembers() && landed == old(landed) && persists == old(persists)
      ensures refetched.Some? ==> WasCurrent(refetched.value)
    {
      OthersCommit();
      var unavailable: bool := *;
      refetched := if unavailable then None else Some(VersionedModel(model, version));
    }
  }

  type Document = root: Json | root.Obj? witness Obj(map[])

  /**
   * A strategy for resolving conflicts: whether it runs the refetch for an edit, and what it makes of the edit and the
   * refetch, `None` for a refetch that produced nothing or was not run.
   */
  datatype Resolver = Resolver(refetches: (Document, Document) -> bool,
    resolve: (Document, Document, Option<Json>) -> PatchMerge.Outcome)

  function Root(refetched: Option<VersionedModel>): Option<Json> {
    if refetched.Some? then Some(refetched.value.model) else None
  }

  /** Resolves one conflict; `refetched` is what it refetched, if it did. */
  method Resolve(server: Server, resolver: Resolver, base: Document, ours: Document)
        returns (outcome: PatchMerge.Outcome, refetched: Option<VersionedModel>)
    requires server.Valid()
    modifies server
    ensures server.Valid() && server.Remembers() && server.landed == old(server.landed)
            && server.persists == old(server.persists)
    ensures outcome == resolver.resolve(base, ours, Root(refetched))
    ensures refetched.Some? ==> resolver.refetches(base, ours) && server.WasCurrent(refetched.value)
  {
    refetched := None;
    if resolver.refetches(base, ours) {
      refetched := server.Refetch();
    }
    outcome := resolver.resolve(base, ours, Root(refetched));
  }

  datatype Status = Merged | AlreadyApplied | Unchanged | Conflicting | Dropped | Unavailable

  datatype WriteOutcome =
    | Persisted
    | After(status: Status, conflict: ConflictError, writes: nat)
    | Thrown

  /** The caller's own write, on the base version it names. */
  predicate Own(w: Landing, model: Json, baseVersion: BaseVersion) {
    w.model == model && w.claimed == baseVersion && (baseVersion.At? ==> w.version == baseVersion.version)
  }

  /**
   * What the resolver made of the whole edit and the very root the write replaces; of the edit alone, where it
   * refetched nothing.
   */
  predicate Resolved(w: Landing, resolver: Resolver, base: Document, model: Document) {
    || (w.claimed == At(w.version) && resolver.resolve(base, model, Some(w.onto)) == PatchMerge.Merged(w.model))
    || (w.claimed == Any && resolver.resolve(base, model, None) == PatchMerge.Merged(w.model))
  }

  /** The base that a write of what the resolver made names. */
  function Claim(refetched: Option<VersionedModel>): BaseVersion {
    if refetched.Some? then At(refetched.value.baseVersion) else Any
  }

  predicate Tells(status: Status, outcome: PatchMerge.Outcome) {
    match outcome
    case Merged(_) => status.Merged? || status.Dropped?
    case AlreadyApplied(_) => status.AlreadyApplied?
    case NoOp => status.Unchanged?
    case Conflict(_) => status.Conflicting?
    case Unavailable => status.Unavailable?
  }

  const DEFAULT_MAX_WRITES := 3

  /** The writes a call may count, the first of which is always made. */
  function Cap(maxWrites: Option<nat>): nat {
    if maxWrites.Some? then maxWrites.value else DEFAULT_MAX_WRITES
  }

  /** The persists `made` and the writes counted are bounded, and a merge is dropped only at the cap. */
  predicate Bounded(outcome: WriteOutcome, made: int, cap: nat, tellsSent: bool) {
    var counted := if cap == 0 then 1 else cap;
    && 1 <= made <= counted + (if tellsSent then cap else 0)
    && (outcome.After? ==> outcome.writes <= made <= outcome.writes + if tellsSent then cap else 0)
    && (outcome.After? && outcome.status.Dropped? ==> outcome.writes == counted)
  }

  /** The outcome of a call of which the writes `landed`: at most one, and one exactly on `persisted` and `merged`. */
  predicate Lands(outcome: WriteOutcome, landed: seq<Landing>, resolver: Resolver, base: Document, model: Document,
          baseVersion: BaseVersion)
  {
    match outcome
    case Persisted => |landed| == 1 && Own(landed[0], model, baseVersion)
    case After(Merged, _, _) => |landed| == 1 && Resolved(landed[0], resolver, base, model)
    case After(_, _, _) => landed == []
    case Thrown =>
      || landed == []
      || (|landed| == 1 && (Own(landed[0], model, baseVersion) || Resolved(landed[0], resolver, base, model)))
  }

  /** Persists `model`, and on each conflict merges the edit `base` to `model` onto a refetch and writes that. */
  method ReconcileWrite(server: Server, resolver: Resolver, model: Document, baseVersion: BaseVersion, base: Document,
                        maxWrites: Option<nat>, tellsSent: bool)
    returns (outcome: WriteOutcome, ghost wrote: seq<Landing>, ghost last: Option<VersionedModel>)
    requires server.Valid()
    modifies server
    ensures server.Valid() && server.Remembers()
    ensures server.landed == old(server.landed) + wrote
    ensures Lands(outcome, wrote, resolver, base, model, baseVersion)
    ensures wrote != [] ==> old(server.version) <= wrote[0].version && IsStep(wrote[0], server.roots)
    ensures outcome.After? ==> Tells(outcome.status, resolver.resolve(base, model, Root(last)))
    ensures last.Some? ==> server.WasCurrent(last.value)
    ensures Bounded(outcome, server.persists - old(server.persists), Cap(maxWrites), tellsSent)
  {
    var cap := Cap(maxWrites);
    var candidate: Json, claimed := model, baseVersion;
    var previous: Option<ConflictError> := None;
    var writes, unsent := 0, 0;
    wrote, last := [], None;
    while true
      invariant server.Valid() && server.Remembers() && server.landed == old(server.landed)
      invariant previous.None? ==> candidate == model && claimed == baseVersion && writes == unsent == 0
      invariant previous.Some? ==> writes < cap && unsent <= (if tellsSent then cap else 0) && writes + unsent > 0
      invariant previous.Some?
            ==> resolver.resolve(base, model, Root(last)) == PatchMerge.Merged(candidate) && claimed == Claim(last)
      invariant last.Some? ==> server.WasCurrent(last.value)
      invariant server.persists == old(server.persists) + writes + unsent
      decreases 2 * cap - writes - unsent
    {
      var reply;
      reply, wrote := server.Persist(candidate, claimed);
      if reply.Failed? {
        return Thrown, wrote, last;
      }
      if reply.Refused? && unsent < cap && tellsSent && !reply.conflict.sent {
        unsent := unsent + 1;
      } else {
        writes := writes + 1;
      }
      if reply.Landed? {
        return if previous.Some? then After(Merged, previous.value, writes) else Persisted, wrote, last;
      }
      var conflict := reply.conflict;
      previous := Some(conflict);
      var next;
      next, last := Decide(server, resolver, base, model);
      if next.Stop? {
        return After(next.status, conflict, writes), [], last;
      }
      if writes >= cap {
        return After(Dropped, conflict, writes), [], last;
      }
      candidate, claimed := next.candidate, next.claimed;
    }
  }

  /** Whether a conflict leaves a merge to write, and on which base, or else how the call ends. */
  datatype Decision = Write(candidate: Json, claimed: BaseVersion) | Stop(status: Status)

  method Decide(server: Server, resolver: Resolver, base: Document, model: Document)
        returns (next: Decision, ghost last: Option<VersionedModel>)
    requires server.Valid()
    modifies server
    ensures server.Valid() && server.Remembers() && server.landed == old(server.landed)
            && server.persists == old(server.persists)
    ensures last.Some? ==> server.WasCurrent(last.value)
    ensures match next
            case Write(candidate, claimed) =>
              resolver.resolve(base, model, Root(last)) == PatchMerge.Merged(candidate) && claimed == Claim(last)
            case Stop(status) =>
              !status.Merged? && !status.Dropped? && Tells(status, resolver.resolve(base, model, Root(last)))
  {
    var outcome, refetched := Resolve(server, resolver, base, model);
    last := refetched;
    match outcome
    case Merged(merged) => next := Write(merged, Claim(refetched));
    case AlreadyApplied(_) => next := Stop(AlreadyApplied);
    case NoOp => next := Stop(Unchanged);
    case Conflict(_) => next := Stop(Conflicting);
    case Unavailable =>
      server.OthersCommit();
      next := Stop(Unavailable);
  }
}
