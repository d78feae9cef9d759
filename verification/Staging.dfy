/**
  The side-effect gate as a state machine (`artifact_staging.py`).  Every method of the
  store runs under one exclusive lock, so each is one step from state to state; the other
  steps are the worker's edits of its workspace and writes to the project from outside.
 */
module Staging {
  import opened Wrappers
  import opened Manifests
  import opened Places
  import opened PathLookup
  import opened Entries
  import opened Trees
  import opened Rollback

  type TaskId = string

  predicate IsLetter(c: char) {
    'A' <= c <= 'Z' || 'a' <= c <= 'z'
  }

  predicate IsIdCharacter(c: char) {
    IsLetter(c) || '0' <= c <= '9' || c == '.' || c == '_' || c == '-'
  }

  /** `_SAFE_ID`: a dot is allowed. */
  predicate SafeId(id: TaskId) {
    1 <= |id| <= 128 && IsLetter(id[0]) && forall i :: 0 <= i < |id| ==> IsIdCharacter(id[i])
  }

  datatype Status = Prepared | Proposed | RevisionRequired | Verified | Promoting | Promoted | Abandoned

  datatype Proposal = Proposal(entries: Manifest, changes: seq<Change>)

  /** SHA-256 of a proposal, taken to be injective. */
  datatype Digest = Sha256(content: Proposal)

  datatype PromotionStage = Started | RolledBack | RollbackFailed | Completed

  datatype Promotion = Promotion(snapshot: Snapshot, verificationId: string, stage: PromotionStage)

  datatype Record = Record(
    runId: string,
    status: Status,
    promotedWhenStaged: Option<set<TaskId>>,
    tokens: seq<string>,
    baseline: Manifest,
    proposal: Option<Proposal>,
    proposalSha: Option<Digest>,
    verificationId: Option<string>,
    promotion: Option<Promotion>)

  datatype SetAside = SetAside(task: TaskId, record: Record, workspace: Manifest)

  datatype State = State(
    tree: Tree,
    records: map<TaskId, Record>,
    workspaces: map<TaskId, Manifest>,
    aside: seq<SetAside>,      // stale copies moved to a dotted name, never read again
    untracked: set<TaskId>)    // task directories without a record: a copy that failed

  datatype Refusal =
    | UnsafeId | EmptyArgument | NoRecord
    | AnotherRun | AlreadyFinished | UntrackedDirectory | CopyFailed
    | WrongStatus | NoDigest
    | NoVerificationId | OtherVerification | NoProposal | CorruptDigest
    | StagedArtifactChanged | CanonicalDrift | SnapshotFailed
    | PromotionRolledBack | RollbackDidNotWork | ProcessDied | IncompletePromotion

  datatype PromotionResult = PromotionResult(
    verificationId: string, proposalSha: Option<Digest>, changes: seq<Change>, snapshot: Snapshot)

  /** `_promoted_task_ids`: names with a dot are taken for directories set aside. */
  function PromotedIds(records: map<TaskId, Record>): set<TaskId> {
    set t | t in records && '.' !in t && records[t].status == Promoted
  }

  /** `_workspace_is_stale` */
  predicate IsStale(records: map<TaskId, Record>, r: Record) {
    && PromotedIds(records) != {}
    && (r.promotedWhenStaged.None? || PromotedIds(records) - r.promotedWhenStaged.value != {})
  }

  // ----- prepare -----

  function Reserved(r: Record, token: string): Record {
    if token in r.tokens then r else r.(tokens := r.tokens + [token])
  }

  function FreshRecord(s: State, runId: string, token: string): Record {
    Record(runId, Prepared, Some(PromotedIds(s.records)), [token], s.tree.files, None, None, None, None)
  }

  /** `_set_aside_stale`: the copy is fenced and moved away, not destroyed. */
  function MoveAside(s: State, task: TaskId): State
    requires task in s.records && task in s.workspaces
  {
    s.(records := s.records - {task}, workspaces := s.workspaces - {task},
       aside := s.aside + [SetAside(task, s.records[task].(status := Abandoned), s.workspaces[task])])
  }

  function StageCopy(s: State, runId: string, task: TaskId, token: string,
    copyFails: bool): (State, Result<Record, Refusal>) {
    if task in s.untracked then (s, Err(UntrackedDirectory))
    else if copyFails then (s.(untracked := s.untracked + {task}), Err(CopyFailed))
    else
      var r := FreshRecord(s, runId, token);
      (s.(records := s.records[task := r], workspaces := s.workspaces[task := s.tree.files]), Ok(r))
  }

  function Prepare(s: State, runId: string, task: TaskId, token: string,
    copyFails: bool): (State, Result<Record, Refusal>) {
    if !SafeId(task) then (s, Err(UnsafeId))
    else if runId == "" || token == "" then (s, Err(EmptyArgument))
    else if task !in s.records || task !in s.workspaces then StageCopy(s, runId, task, token, copyFails)
    else
      var r := s.records[task];
      if r.runId != runId then (s, Err(AnotherRun))
      else if r.status == Promoted || r.status == Abandoned then (s, Err(AlreadyFinished))
      else if IsStale(s.records, r) then StageCopy(MoveAside(s, task), runId, task, token, copyFails)
      else (s.(records := s.records[task := Reserved(r, token)]), Ok(Reserved(r, token)))
  }

  // ----- seal, accept, send back, abandon -----

  /** The record once the workspace is frozen as the proposal; an earlier acceptance is gone. */
  ghost function Sealed(r: Record, workspace: Manifest): Record {
    var p := Proposal(workspace, Diff(r.baseline, workspace));
    r.(proposal := Some(p), proposalSha := Some(Sha256(p)), verificationId := None, status := Proposed)
  }

  ghost function Seal(s: State, task: TaskId): (State, Result<Record, Refusal>) {
    if !SafeId(task) then (s, Err(UnsafeId))
    else if task !in s.records || task !in s.workspaces then (s, Err(NoRecord))
    else
      var r := s.records[task];
      if r.status != Prepared && r.status != Proposed && r.status != RevisionRequired then (s, Err(WrongStatus))
      else
        var sealed := Sealed(r, s.workspaces[task]);
        (s.(records := s.records[task := sealed]), Ok(sealed))
  }

  function MarkRevisionRequired(s: State, task: TaskId): (State, Result<Record, Refusal>) {
    if !SafeId(task) then (s, Err(UnsafeId))
    else if task !in s.records then (s, Err(NoRecord))
    else if s.records[task].status != Proposed then (s, Err(WrongStatus))
    else
      var r := s.records[task].(status := RevisionRequired, verificationId := None);
      (s.(records := s.records[task := r]), Ok(r))
  }

  function MarkVerified(s: State, task: TaskId, verificationId: string): (State, Result<Record, Refusal>) {
    if !SafeId(task) then (s, Err(UnsafeId))
    else if verificationId == "" then (s, Err(EmptyArgument))
    else if task !in s.records then (s, Err(NoRecord))
    else if s.records[task].status != Proposed then (s, Err(WrongStatus))
    else if s.records[task].proposalSha.None? then (s, Err(NoDigest))
    else
      var r := s.records[task].(status := Verified, verificationId := Some(verificationId));
      (s.(records := s.records[task := r]), Ok(r))
  }

  function Abandon(s: State, task: TaskId, reason: string): (State, Result<Record, Refusal>) {
    if !SafeId(task) then (s, Err(UnsafeId))
    else if reason == "" then (s, Err(EmptyArgument))
    else if task !in s.records then (s, Err(NoRecord))
    else if s.records[task].status == Promoted then (s, Err(WrongStatus))
    else
      var r := s.records[task].(status := Abandoned);
      (s.(records := s.records[task := r]), Ok(r))
  }

  // ----- promote -----

  /** What the disk and the process do to one promotion. */
  datatype Trouble = Trouble(snapshotFails: bool, apply: Option<Fault>, dies: bool, rollback: Option<nat>)

  const SMOOTH := Trouble(false, None, false, None)

  predicate LandedAlready(t: Tree, c: Change) {
    Observed(t, c.path) == if c.staged.Some? then Leaf(c.staged.value) else Nothing
  }

  predicate AllLanded(t: Tree, changes: seq<Change>) {
    forall c :: c in changes ==> LandedAlready(t, c)
  }

  /** `_completed_promotion_result`: a retry of a completed promotion writes nothing. */
  function CompletedResult(s: State, r: Record, expected: Option<string>): Result<PromotionResult, Refusal> {
    if r.verificationId.None? || r.verificationId.value == ""
      || (expected.Some? && r.verificationId.value != expected.value) then Err(OtherVerification)
    else if r.proposal.None? || r.promotion.None? then Err(IncompletePromotion)
    else if !AllLanded(s.tree, r.proposal.value.changes) then Err(CanonicalDrift)
    else Ok(PromotionResult(r.verificationId.value, r.proposalSha, r.proposal.value.changes,
      r.promotion.value.snapshot))
  }

  /** The checks made before anything is written. */
  function PromotionRefusal(s: State, task: TaskId, r: Record, expected: Option<string>): Option<Refusal> {
    if r.status != Verified then Some(WrongStatus)
    else if r.verificationId.None? || r.verificationId.value == "" then Some(NoVerificationId)
    else if expected.Some? && r.verificationId.value != expected.value then Some(OtherVerification)
    else if r.proposal.None? then Some(NoProposal)
    else if r.proposalSha != Some(Sha256(r.proposal.value)) then Some(CorruptDigest)
    else if task !in s.workspaces || s.workspaces[task] != r.proposal.value.entries then Some(StagedArtifactChanged)
    else if !NoDrift(s.tree, r.proposal.value.changes) then Some(CanonicalDrift)
    else None
  }

  function Settle(s: State, task: TaskId, r: Record, tree: Tree, status: Status, stage: PromotionStage,
    snapshot: Snapshot): State
    requires r.verificationId.Some?
  {
    s.(tree := tree,
       records := s.records[task := r.(status := status,
         promotion := Some(Promotion(snapshot, r.verificationId.value, stage)))])
  }

  /** The transaction itself: snapshot, apply, and on failure roll back. */
  ghost function Transact(s: State, task: TaskId, r: Record,
    trouble: Trouble): (State, Result<PromotionResult, Refusal>)
    requires r.verificationId.Some? && r.proposal.Some? && task in s.workspaces
  {
    var changes := r.proposal.value.changes;
    var snapshot := TakeSnapshot(s.tree, changes);
    var applied := ApplyAll(s.tree, s.workspaces[task], changes, trouble.apply);
    if trouble.snapshotFails then (s, Err(SnapshotFailed))
    else if trouble.dies then (Settle(s, task, r, applied.tree, Promoting, Started, snapshot), Err(ProcessDied))
    else if applied.Done? then
      (Settle(s, task, r, applied.tree, Promoted, Completed, snapshot),
       Ok(PromotionResult(r.verificationId.value, r.proposalSha, changes, snapshot)))
    else
      var restored := Restore(applied.tree, snapshot, changes, trouble.rollback);
      if restored.Failed? then
        (Settle(s, task, r, restored.tree, Promoting, RollbackFailed, snapshot), Err(RollbackDidNotWork))
      else
        (Settle(s, task, r, restored.tree, Verified, RolledBack, snapshot), Err(PromotionRolledBack))
  }

  ghost function Promote(s: State, task: TaskId, expected: Option<string>,
    trouble: Trouble): (State, Result<PromotionResult, Refusal>) {
    if !SafeId(task) then (s, Err(UnsafeId))
    else if task !in s.records then (s, Err(NoRecord))
    else
      var r := s.records[task];
      if r.status == Promoted then (s, CompletedResult(s, r, expected))
      else
        match PromotionRefusal(s, task, r, expected)
        case Some(refusal) => (s, Err(refusal))
        case None => Transact(s, task, r, trouble)
  }
}
