/**
  `CompletionArtifactGate.promote` (`artifact_staging_lifecycle.py`): the lifecycle's way
  through the store, and what a retry of it does after a crash.
 */
module CompletionGate {
  import opened Wrappers
  import opened Manifests
  import opened Places
  import opened PathLookup
  import opened Trees
  import opened Rollback
  import opened Promotions
  import opened Staging
  import opened StagingStore
  import opened StagingRuns

  datatype GateRefusal = NoVerificationRecord | Refused(refusal: Refusal)

  datatype Event = StagedArtifactPromoted(task: TaskId, result: PromotionResult)

  /** The first half: accept the proposal, unless an earlier call already has. */
  function AcceptOnce(s: State, task: TaskId, verificationId: string): (State, Result<string, Refusal>) {
    if !SafeId(task) then (s, Err(UnsafeId))
    else if task !in s.records then (s, Err(NoRecord))
    else
      var r := s.records[task];
      match r.status
      case Proposed =>
        var (after, reply) := MarkVerified(s, task, verificationId);
        (after, if reply.Err? then Err(reply.error) else Ok(verificationId))
      case Verified => (s, if r.verificationId.None? || r.verificationId.value == "" then Err(NoVerificationId)
        else Ok(r.verificationId.value))
      case Promoted => (s, if r.verificationId.None? || r.verificationId.value == "" then Err(NoVerificationId)
        else Ok(r.verificationId.value))
      case _ => (s, Err(WrongStatus))
  }

  ghost function GatePromote(s: State, task: TaskId, verificationId: string,
    trouble: Trouble): (State, Result<PromotionResult, Refusal>) {
    var (accepted, id) := AcceptOnce(s, task, verificationId);
    match id
    case Err(refusal) => (accepted, Err(refusal))
    case Ok(acceptedId) => Promote(accepted, task, Some(acceptedId), trouble)
  }

  class CompletionArtifactGate {
    const store: ArtifactStagingStore?
    var recorded: Option<PromotionResult>  // session["artifact_promotion"]
    var journal: seq<Event>

    constructor (store: ArtifactStagingStore?)
      ensures this.store == store && recorded == None && journal == []
    {
      this.store, recorded, journal := store, None, [];
    }

    /** A task that is not staged passes; otherwise the session and the journal hear only of a promotion. */
    method PromoteCompleted(task: TaskId, verificationId: Option<string>, trouble: Trouble)
      returns (reply: Result<Option<PromotionResult>, GateRefusal>)
      requires store != null ==> store.project.Valid()
      modifies this`recorded, this`journal
      modifies if store == null then {} else {store, store.project}
      ensures store != null ==> store.project.Valid()
      ensures store == null ==> reply == Ok(None) && recorded == old(recorded) && journal == old(journal)
      ensures store != null && verificationId.None? ==>
        reply == Err(NoVerificationRecord) && store.Current() == old(store.Current())
      ensures store != null && verificationId.Some? ==>
        var (after, outcome) := GatePromote(old(store.Current()), task, verificationId.value, trouble);
        && store.Current() == after
        && reply == (match outcome case Ok(result) => Ok(Some(result)) case Err(refusal) => Err(Refused(refusal)))
      ensures reply.Ok? && reply.value.Some? ==>
        recorded == reply.value && journal == old(journal) + [StagedArtifactPromoted(task, reply.value.value)]
      ensures reply.Err? ==> recorded == old(recorded) && journal == old(journal)
    {
      if store == null {
        return Ok(None);
      }
      if verificationId.None? {
        return Err(NoVerificationRecord);
      }
      if !SafeId(task) {
        return Err(Refused(UnsafeId));
      }
      if task !in store.records {
        return Err(Refused(NoRecord));
      }
      var artifact := store.records[task];
      var acceptedId := artifact.verificationId;
      if artifact.status == Proposed {
        var accepted := store.AcceptTask(task, verificationId.value);
        if accepted.Err? {
          return Err(Refused(accepted.error));
        }
        acceptedId := accepted.value.verificationId;
      } else if artifact.status != Verified && artifact.status != Promoted {
        return Err(Refused(WrongStatus));
      }
      if acceptedId.None? || acceptedId.value == "" {
        return Err(Refused(NoVerificationId));
      }
      var promotion := store.PromoteTask(task, acceptedId, trouble);
      if promotion.Err? {
        return Err(Refused(promotion.error));
      }
      recorded := Some(promotion.value);
      journal := journal + [StagedArtifactPromoted(task, promotion.value)];
      return Ok(Some(promotion.value));
    }
  }

  /** The id a call acts under: the one it brings while the proposal is to be accepted, then the one accepted. */
  predicate ActsUnder(s: State, task: TaskId, verificationId: string, id: string) {
    && SafeId(task) && task in s.records && id != ""
    && match s.records[task].status
       case Proposed => s.records[task].proposalSha.Some? && id == verificationId
       case Verified => s.records[task].verificationId == Some(id)
       case Promoted => s.records[task].verificationId == Some(id)
       case _ => false
  }

  /**
    With such an id the proposal is accepted under it, if it is not yet, and promoted under it
    and no other; without one the call is refused and nothing changes.
   */
  lemma GateActsExactly(s: State, task: TaskId, verificationId: string, trouble: Trouble)
    ensures forall id :: ActsUnder(s, task, verificationId, id) ==>
      GatePromote(s, task, verificationId, trouble) ==
        Promote(
          if s.records[task].status != Proposed then s
          else s.(records := s.records[task := s.records[task].(status := Verified, verificationId := Some(id))]),
          task, Some(id), trouble)
    ensures (forall id :: !ActsUnder(s, task, verificationId, id)) ==>
      GatePromote(s, task, verificationId, trouble).0 == s && GatePromote(s, task, verificationId, trouble).1.Err?
  {
    var id := AcceptOnce(s, task, verificationId).1;
    assert id.Ok? ==> ActsUnder(s, task, verificationId, id.value);
  }

  // ----- Retries -----

  /**
    A crash between the two store calls: the retry, whatever verification id it passes,
    does what the first call would have done, under the id accepted first.
   */
  lemma RetryAfterAccept(s: State, task: TaskId, first: string, second: string, trouble: Trouble)
    requires task in s.records && s.records[task].status == Proposed
    requires MarkVerified(s, task, first).1.Ok?
    ensures GatePromote(MarkVerified(s, task, first).0, task, second, trouble) == GatePromote(s, task, first, trouble)
  {
  }

  /** On a completed promotion the gate only answers. */
  lemma CompletedIsNeverRepeated(s: State, task: TaskId, verificationId: string, trouble: Trouble)
    requires task in s.records && s.records[task].status == Promoted
    ensures GatePromote(s, task, verificationId, trouble).0 == s
    ensures SafeId(task) && s.records[task].verificationId.Some? && s.records[task].verificationId.value != "" ==>
      GatePromote(s, task, verificationId, trouble).1 ==
        CompletedResult(s, s.records[task], s.records[task].verificationId)
  {
  }

  /** A promotion cut short by a crash or a failed rollback is refused by the gate, and nothing moves. */
  lemma UnfinishedIsRefused(s: State, task: TaskId, verificationId: string, trouble: Trouble)
    requires task in s.records && s.records[task].status == Promoting
    ensures GatePromote(s, task, verificationId, trouble).0 == s && GatePromote(s, task, verificationId, trouble).1.Err?
  {
  }

  lemma NestingShows(changes: seq<Change>)
    requires forall c, d :: c in changes && d in changes && !Installs(d) ==> !IsAncestor(c.path, d.path)
    ensures NoNesting(changes) <==> Paths(changes) !! InstalledParents(changes)
  {
    if !NoNesting(changes) {
      var c, d :| c in changes && d in changes && IsAncestor(c.path, d.path);
      assert Installs(d) && c.path in Ancestors(d.path);
      assert c.path in Paths(changes) && c.path in InstalledParents(changes);
    }
  }

  /** Nothing changed lies above a deleted path. */
  lemma AboveInstalled(t: Tree, baseline: Manifest, entries: Manifest)
    requires WellFormed(t) && PrefixFree(baseline) && Landed(t, baseline, entries).Some?
    ensures var changes := Diff(baseline, entries); NoNesting(changes) <==> Paths(changes) !! InstalledParents(changes)
  {
    var changes := Diff(baseline, entries);
    DiffDescribes(baseline, entries);
    forall c, d | c in changes && d in changes && !Installs(d) ensures !IsAncestor(c.path, d.path) {
      assert Describes(d, baseline, entries);
      LandedWasThere(t, baseline, entries, c);
      LandedWasThere(t, baseline, entries, d);
    }
    NestingShows(changes);
  }

  lemma LandedAlreadyIsPlain(m: Tree, c: Change)
    requires WellFormed(m) && Placeable(m.files, c)
    ensures LandedAlready(m, c) <==> c.path !in m.dirs && Lookup(m.files, c.path) == c.staged
  {
    ObservedPlain(m, c.path);
  }

  /** After a promotion lands, every changed path is as sealed, unless one has become a directory. */
  lemma LandedExactly(t: Tree, baseline: Manifest, entries: Manifest)
    requires WellFormed(t) && PrefixFree(baseline) && Landed(t, baseline, entries).Some?
    ensures AllLanded(Landed(t, baseline, entries).value, Diff(baseline, entries)) <==>
      NoNesting(Diff(baseline, entries))
  {
    var changes := Diff(baseline, entries);
    var m := Landed(t, baseline, entries).value;
    LandedIs(t, baseline, entries);
    DiffDescribes(baseline, entries);
    AboveInstalled(t, baseline, entries);
    forall c | c in changes ensures LandedAlready(m, c) <==> c.path !in InstalledParents(changes) {
      assert Describes(c, baseline, entries);
      LandedAt(t, baseline, entries, c.path);
      LandedAlreadyIsPlain(m, c);
    }
    assert forall p :: p in Paths(changes) ==> exists c :: c in changes && c.path == p;
  }

  /** The record that a result was returned for. */
  ghost predicate ReportedFrom(s: State, task: TaskId, result: PromotionResult) {
    && task in s.records && s.records[task].status == Promoted
    && s.records[task].verificationId == Some(result.verificationId) && result.verificationId != ""
    && s.records[task].proposal.Some? && s.records[task].proposal.value.changes == result.changes
    && s.records[task].proposalSha == result.proposalSha
    && s.records[task].promotion.Some? && s.records[task].promotion.value.snapshot == result.snapshot
  }

  lemma TransactReports(s: State, task: TaskId, r: Record, trouble: Trouble)
    requires task in s.workspaces && r.verificationId.Some? && r.verificationId.value != "" && r.proposal.Some?
    requires Transact(s, task, r, trouble).1.Ok?
    ensures var (after, reply) := Transact(s, task, r, trouble);
      ReportedFrom(after, task, reply.value) && reply.value.changes == r.proposal.value.changes
  {
  }

  /** Asked again, the gate gives the same answer as long as every changed path is as sealed. */
  lemma AskedAgain(s: State, task: TaskId, result: PromotionResult, id: string, trouble: Trouble)
    requires SafeId(task) && ReportedFrom(s, task, result)
    ensures GatePromote(s, task, id, trouble) ==
      (s, if AllLanded(s.tree, result.changes) then Ok(result) else Err(CanonicalDrift))
  {
  }

  /** The tree that a completed transaction leaves. */
  lemma TransactedTree(s: State, task: TaskId, r: Record, trouble: Trouble)
    requires WellFormed(s.tree) && ProposalOk(r) && r.verificationId.Some? && r.proposal.Some?
    requires task in s.workspaces && s.workspaces[task] == r.proposal.value.entries
    requires NoDrift(s.tree, r.proposal.value.changes) && Transact(s, task, r, trouble).1.Ok?
    ensures AllLanded(Transact(s, task, r, trouble).0.tree, r.proposal.value.changes) <==>
      NoNesting(r.proposal.value.changes)
  {
    TransactLands(s, task, r, trouble);
    CompletedApply(s.tree, r.baseline, r.proposal.value.entries, trouble.apply);
    LandedExactly(s.tree, r.baseline, r.proposal.value.entries);
  }

  /** What lies behind a promotion that the gate reports for the first time. */
  lemma GateTransacts(s: State, task: TaskId, id: string, trouble: Trouble)
    requires task in s.records && s.records[task].status != Promoted && GatePromote(s, task, id, trouble).1.Ok?
    ensures SafeId(task)
    ensures var accepted := AcceptOnce(s, task, id).0;
      && task in accepted.records && accepted.tree == s.tree
      && ProposalOk(s.records[task]) == ProposalOk(accepted.records[task])
      && Transacts(accepted, task, accepted.records[task].verificationId)
      && GatePromote(s, task, id, trouble) == Transact(accepted, task, accepted.records[task], trouble)
  {
  }

  /** The first report of a promotion, and the state it leaves. */
  lemma GateReports(s: State, task: TaskId, id: string, trouble: Trouble)
    requires WellFormed(s.tree) && task in s.records && ProposalOk(s.records[task])
    requires s.records[task].status != Promoted
    requires GatePromote(s, task, id, trouble).1.Ok?
    ensures var (after, reply) := GatePromote(s, task, id, trouble);
      && SafeId(task) && ReportedFrom(after, task, reply.value)
      && (AllLanded(after.tree, reply.value.changes) <==> NoNesting(reply.value.changes))
  {
    var accepted := AcceptOnce(s, task, id).0;
    GateTransacts(s, task, id, trouble);
    TransactReports(accepted, task, accepted.records[task], trouble);
    TransactedTree(accepted, task, accepted.records[task], trouble);
  }

  /**
    A crash after the promotion was saved: the retry writes nothing and, exactly when the
    proposal replaced no file by a directory, says again what the first call said.  With
    such a replacement it refuses, because the old path is now a directory.
   */
  lemma RetryAfterPromotion(s: State, task: TaskId, first: string, second: string, trouble: Trouble, again: Trouble)
    requires WellFormed(s.tree) && task in s.records && ProposalOk(s.records[task])
    requires s.records[task].status != Promoted
    requires GatePromote(s, task, first, trouble).1.Ok?
    ensures var (after, reply) := GatePromote(s, task, first, trouble);
      GatePromote(after, task, second, again) ==
        (after, if NoNesting(reply.value.changes) then reply else Err(CanonicalDrift))
  {
    var (after, reply) := GatePromote(s, task, first, trouble);
    GateReports(s, task, first, trouble);
    AskedAgain(after, task, reply.value, second, again);
  }

  // ----- An undisturbed call -----

  /** A sealed proposal, its workspace untouched, and the project still what it was copied from. */
  ghost predicate IsReady(s: State, task: TaskId) {
    && SafeId(task) && task in s.records && task in s.workspaces
    && s.records[task].status == Proposed && s.records[task].proposal.Some? && ProposalOk(s.records[task])
    && s.workspaces[task] == s.records[task].proposal.value.entries
    && WellFormed(s.tree) && s.tree.files == s.records[task].baseline
  }

  lemma ReadyIsAccepted(s: State, task: TaskId, id: string)
    requires IsReady(s, task) && id != ""
    ensures var (accepted, reply) := AcceptOnce(s, task, id);
      && reply == Ok(id) && accepted.tree == s.tree && accepted.workspaces == s.workspaces && task in accepted.records
      && accepted.records[task] == s.records[task].(status := Verified, verificationId := Some(id))
  {
  }

  lemma SmoothTransact(s: State, task: TaskId, r: Record)
    requires r.verificationId.Some? && r.proposal.Some? && task in s.workspaces
    ensures var reply := Transact(s, task, r, SMOOTH).1;
      && (reply.Ok? <==> ApplyAll(s.tree, s.workspaces[task], r.proposal.value.changes, None).Done?)
      && (reply.Ok? ==> reply.value.changes == r.proposal.value.changes)
  {
  }

  lemma DriftedIsRefused(s: State, task: TaskId, id: string)
    requires SafeId(task) && task in s.records && s.records[task].status == Verified && s.records[task].proposal.Some?
    requires !NoDrift(s.tree, s.records[task].proposal.value.changes)
    ensures Promote(s, task, Some(id), SMOOTH).1.Err?
  {
  }

  lemma AcceptedLands(s: State, task: TaskId, id: string)
    requires SafeId(task) && task in s.records && task in s.workspaces && WellFormed(s.tree) && id != ""
    requires var r := s.records[task];
      && r.status == Verified && r.verificationId == Some(id) && r.proposal.Some? && ProposalOk(r)
      && s.workspaces[task] == r.proposal.value.entries && s.tree.files == r.baseline
    ensures var changes := s.records[task].proposal.value.changes; var reply := Promote(s, task, Some(id), SMOOTH).1;
      && (reply.Ok? <==> NoDrift(s.tree, changes) && LinksStay(s.tree.around, s.tree.files, changes))
      && (reply.Ok? ==> reply.value.changes == changes)
  {
    if NoDrift(s.tree, s.records[task].proposal.value.changes) {
      assert Transacts(s, task, Some(id));
      PromoteTransacts(s, task, Some(id), SMOOTH);
      SmoothTransact(s, task, s.records[task]);
      UndriftedPromotionCompletes(s.tree, s.workspaces[task]);
    } else {
      DriftedIsRefused(s, task, id);
    }
  }

  /**
    Without a disturbance such a proposal lands exactly when the drift check finds nothing
    and every staged link stays inside the project.
   */
  lemma ReadyLands(s: State, task: TaskId, id: string)
    requires IsReady(s, task) && id != ""
    ensures var changes := s.records[task].proposal.value.changes; var reply := GatePromote(s, task, id, SMOOTH).1;
      && (reply.Ok? <==> NoDrift(s.tree, changes) && LinksStay(s.tree.around, s.tree.files, changes))
      && (reply.Ok? ==> reply.value.changes == changes)
  {
    ReadyIsAccepted(s, task, id);
    AcceptedLands(AcceptOnce(s, task, id).0, task, id);
  }

  function SwapPrepared(): Record {
    Record("r", Prepared, Some({}), ["t"], map["a" := File("1", 420)], None, None, None, None)
  }

  /** A sealed proposal that turns file "a" into directory "a" with file "a/b". */
  ghost function SwapSealed(around: Around, task: TaskId): State {
    var workspace := map["a/b" := File("2", 420)];
    State(Tree(SwapPrepared().baseline, {}, around), map[task := Sealed(SwapPrepared(), workspace)],
      map[task := workspace], [], {})
  }

  lemma SwapStays(t: Tree, entries: Manifest)
    requires t.files == map["a" := File("1", 420)] && entries == map["a/b" := File("2", 420)]
    ensures LinksStay(t.around, t.files, Diff(t.files, entries))
    ensures !NoNesting(Diff(t.files, entries))
  {
    DiffDescribes(t.files, entries);
    DiffIsInOrder(t.files, entries);
    forall c | c in Diff(t.files, entries) && c.staged.Some? ensures c.staged.value.File? {
      assert Describes(c, t.files, entries);
    }
    FilesStay(t.around, t.files, Diff(t.files, entries));
    var c, k := SwapChanges(t, entries, Diff(t.files, entries));
    assert Diff(t.files, entries)[k] in Diff(t.files, entries);
  }

  lemma SealedIsReady(s: State, task: TaskId, r: Record, workspace: Manifest)
    requires SafeId(task) && task in s.records && task in s.workspaces && WellFormed(s.tree) && PrefixFree(workspace)
    requires PrefixFree(r.baseline) && s.records[task] == Sealed(r, workspace) && s.workspaces[task] == workspace
    requires s.tree.files == r.baseline
    ensures IsReady(s, task) && s.records[task].proposal.value.changes == Diff(s.tree.files, workspace)
  {
    SealedIsOk(r, workspace);
  }

  lemma SwapIsReady(around: Around, task: TaskId)
    requires SafeId(task)
    ensures IsReady(SwapSealed(around, task), task)
    ensures var s := SwapSealed(around, task);
      s.records[task].proposal.value.changes == Diff(s.tree.files, s.workspaces[task])
  {
    var s := SwapSealed(around, task);
    SwapPreconditions(s.tree, s.workspaces[task]);
    HeldIsPrefixFree(s.tree);
    SealedIsReady(s, task, SwapPrepared(), s.workspaces[task]);
  }

  lemma SwapNests(t: Tree, entries: Manifest)
    requires t.files == map["a" := File("1", 420)] && t.dirs == {} && entries == map["a/b" := File("2", 420)]
    ensures var changes := Diff(t.files, entries);
      NoDrift(t, changes) && LinksStay(t.around, t.files, changes) && !NoNesting(changes)
  {
    SwapPreconditions(t, entries);
    SwapStays(t, entries);
  }

  lemma NestedIsRefusedOnRetry(s: State, task: TaskId, first: string, second: string, again: Trouble)
    requires IsReady(s, task) && first != ""
    requires var changes := s.records[task].proposal.value.changes;
      NoDrift(s.tree, changes) && LinksStay(s.tree.around, s.tree.files, changes) && !NoNesting(changes)
    ensures var (after, reply) := GatePromote(s, task, first, SMOOTH);
      reply.Ok? && GatePromote(after, task, second, again) == (after, Err(CanonicalDrift))
  {
    ReadyLands(s, task, first);
    RetryAfterPromotion(s, task, first, second, SMOOTH, again);
  }

  /** That proposal lands, and the retry after it, under whatever id, is refused as drift. */
  lemma SwapIsRefusedOnRetry(around: Around, task: TaskId, first: string, second: string, again: Trouble)
    requires SafeId(task) && first != ""
    ensures var (after, reply) := GatePromote(SwapSealed(around, task), task, first, SMOOTH);
      reply.Ok? && GatePromote(after, task, second, again) == (after, Err(CanonicalDrift))
  {
    SwapIsReady(around, task);
    SwapNests(SwapSealed(around, task).tree, SwapSealed(around, task).workspaces[task]);
    NestedIsRefusedOnRetry(SwapSealed(around, task), task, first, second, again);
  }
}
