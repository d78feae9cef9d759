/**
  `ArtifactStagingStore`: the durable records under the state directory and the project
  tree, changed step by step as the source's methods change them.  Each method is proved
  to take the step that `Staging` defines for it, on every field of the store.
 */
module StagingStore {
  import opened Wrappers
  import opened Manifests
  import opened Places
  import opened Entries
  import opened Trees
  import opened Rollback
  import opened ProjectTrees
  import opened Staging

  class ArtifactStagingStore {
    const project: ProjectTree
    var records: map<TaskId, Record>
    var workspaces: map<TaskId, Manifest>
    var aside: seq<SetAside>
    var untracked: set<TaskId>

    constructor (project: ProjectTree)
      ensures this.project == project
      ensures Current() == State(project.Value(), map[], map[], [], {})
    {
      this.project := project;
      records, workspaces, aside, untracked := map[], map[], [], {};
    }

    ghost function Current(): State
      reads this, project
    {
      State(project.Value(), records, workspaces, aside, untracked)
    }

    method SaveRecord(task: TaskId, r: Record)
      modifies this
      ensures Current() == old(Current()).(records := old(records)[task := r])
    {
      records := records[task := r];
    }

    /** `_promoted_task_ids`: a walk over the sibling records. */
    method PromotedTaskIds() returns (found: set<TaskId>)
      ensures found == PromotedIds(records)
    {
      found := {};
      var rest := records.Keys;
      while rest != {}
        invariant rest <= records.Keys
        invariant found == set t | t in records && t !in rest && '.' !in t && records[t].status == Promoted
        decreases rest
      {
        var t :| t in rest;
        rest := rest - {t};
        if '.' !in t && records[t].status == Promoted {
          found := found + {t};
        }
      }
    }

    /** The fresh path of `prepare`: copy the project and record what it looked like. */
    method StageFresh(runId: string, task: TaskId, token: string, copyFails: bool)
      returns (reply: Result<Record, Refusal>)
      modifies this
      ensures (Current(), reply) == StageCopy(old(Current()), runId, task, token, copyFails)
    {
      if task in untracked {
        return Err(UntrackedDirectory);
      }
      var promoted := PromotedTaskIds();
      untracked := untracked + {task};
      if copyFails {
        return Err(CopyFailed);
      }
      workspaces := workspaces[task := project.files];
      var r := Record(runId, Prepared, Some(promoted), [token], project.files, None, None, None, None);
      SaveRecord(task, r);
      untracked := untracked - {task};
      assert untracked == old(untracked);
      return Ok(r);
    }

    method PrepareTask(runId: string, task: TaskId, token: string, copyFails: bool)
      returns (reply: Result<Record, Refusal>)
      modifies this
      ensures (Current(), reply) == Prepare(old(Current()), runId, task, token, copyFails)
    {
      if !SafeId(task) {
        return Err(UnsafeId);
      }
      if runId == "" || token == "" {
        return Err(EmptyArgument);
      }
      if task in records && task in workspaces {
        var existing := records[task];
        if existing.runId != runId {
          return Err(AnotherRun);
        }
        if existing.status == Promoted || existing.status == Abandoned {
          return Err(AlreadyFinished);
        }
        var promoted := PromotedTaskIds();
        var stale := promoted != {}
          && (existing.promotedWhenStaged.None? || promoted - existing.promotedWhenStaged.value != {});
        if !stale {
          if token !in existing.tokens {
            existing := existing.(tokens := existing.tokens + [token]);
          }
          SaveRecord(task, existing);
          return Ok(existing);
        }
        aside := aside + [SetAside(task, existing.(status := Abandoned), workspaces[task])];
        records, workspaces := records - {task}, workspaces - {task};
      }
      reply := StageFresh(runId, task, token, copyFails);
    }

    method SealTask(task: TaskId) returns (reply: Result<Record, Refusal>)
      modifies this
      ensures (Current(), reply) == Seal(old(Current()), task)
    {
      if !SafeId(task) {
        return Err(UnsafeId);
      }
      if task !in records || task !in workspaces {
        return Err(NoRecord);
      }
      var r := records[task];
      if r.status != Prepared && r.status != Proposed && r.status != RevisionRequired {
        return Err(WrongStatus);
      }
      var changes := DiffManifests(r.baseline, workspaces[task]);
      var proposal := Proposal(workspaces[task], changes);
      r := r.(proposal := Some(proposal), proposalSha := Some(Sha256(proposal)), verificationId := None,
        status := Proposed);
      SaveRecord(task, r);
      return Ok(r);
    }

    method AcceptTask(task: TaskId, verificationId: string) returns (reply: Result<Record, Refusal>)
      modifies this
      ensures (Current(), reply) == MarkVerified(old(Current()), task, verificationId)
    {
      if !SafeId(task) {
        return Err(UnsafeId);
      }
      if verificationId == "" {
        return Err(EmptyArgument);
      }
      if task !in records {
        return Err(NoRecord);
      }
      var r := records[task];
      if r.status != Proposed {
        return Err(WrongStatus);
      }
      if r.proposalSha.None? {
        return Err(NoDigest);
      }
      r := r.(status := Verified, verificationId := Some(verificationId));
      SaveRecord(task, r);
      return Ok(r);
    }

    method SendBackTask(task: TaskId) returns (reply: Result<Record, Refusal>)
      modifies this
      ensures (Current(), reply) == MarkRevisionRequired(old(Current()), task)
    {
      if !SafeId(task) {
        return Err(UnsafeId);
      }
      if task !in records {
        return Err(NoRecord);
      }
      var r := records[task];
      if r.status != Proposed {
        return Err(WrongStatus);
      }
      r := r.(status := RevisionRequired, verificationId := None);
      SaveRecord(task, r);
      return Ok(r);
    }

    method AbandonTask(task: TaskId, reason: string) returns (reply: Result<Record, Refusal>)
      modifies this
      ensures (Current(), reply) == Abandon(old(Current()), task, reason)
    {
      if !SafeId(task) {
        return Err(UnsafeId);
      }
      if reason == "" {
        return Err(EmptyArgument);
      }
      if task !in records {
        return Err(NoRecord);
      }
      var r := records[task];
      if r.status == Promoted {
        return Err(WrongStatus);
      }
      r := r.(status := Abandoned);
      SaveRecord(task, r);
      return Ok(r);
    }

    /** The checks of `promote`, in the source's order. */
    method CheckPromotion(task: TaskId, r: Record, expected: Option<string>) returns (refusal: Option<Refusal>)
      ensures refusal == PromotionRefusal(Current(), task, r, expected)
    {
      if r.status != Verified {
        return Some(WrongStatus);
      }
      if r.verificationId.None? || r.verificationId.value == "" {
        return Some(NoVerificationId);
      }
      if expected.Some? && r.verificationId.value != expected.value {
        return Some(OtherVerification);
      }
      if r.proposal.None? {
        return Some(NoProposal);
      }
      if r.proposalSha != Some(Sha256(r.proposal.value)) {
        return Some(CorruptDigest);
      }
      if task !in workspaces || workspaces[task] != r.proposal.value.entries {
        return Some(StagedArtifactChanged);
      }
      var drifted := project.CheckDrift(r.proposal.value.changes);
      if drifted {
        return Some(CanonicalDrift);
      }
      return None;
    }

    method PromoteTask(task: TaskId, expected: Option<string>, trouble: Trouble)
      returns (reply: Result<PromotionResult, Refusal>)
      requires project.Valid()
      modifies this, project
      ensures project.Valid()
      ensures (Current(), reply) == Promote(old(Current()), task, expected, trouble)
    {
      if !SafeId(task) {
        return Err(UnsafeId);
      }
      if task !in records {
        return Err(NoRecord);
      }
      var r := records[task];
      if r.status == Promoted {
        return CompletedResult(State(project.Value(), records, workspaces, aside, untracked), r, expected);
      }
      var refusal := CheckPromotion(task, r, expected);
      if refusal.Some? {
        return Err(refusal.value);
      }
      reply := RunTransaction(task, r, trouble);
    }

    /** The handler around `_apply_changes`: back to VERIFIED, or left PROMOTING. */
    method UndoPromotion(task: TaskId, promoting: Record, started: Promotion, changes: seq<Change>,
      rollback: Option<nat>)
      returns (restored: bool)
      requires project.Valid()
      modifies this`records, project
      ensures project.Valid()
      ensures Restore(old(project.Value()), started.snapshot, changes, rollback) ==
        if restored then Done(project.Value()) else Failed(project.Value())
      ensures records == old(records)[task :=
        promoting.(status := if restored then Verified else promoting.status,
          promotion := Some(started.(stage := if restored then RolledBack else RollbackFailed)))]
    {
      restored := project.RestoreSnapshot(started.snapshot, changes, rollback);
      if restored {
        records := records[task := promoting.(status := Verified, promotion := Some(started.(stage := RolledBack)))];
      } else {
        records := records[task := promoting.(promotion := Some(started.(stage := RollbackFailed)))];
      }
    }

    method RunTransaction(task: TaskId, r: Record, trouble: Trouble) returns (reply: Result<PromotionResult, Refusal>)
      requires project.Valid() && r.verificationId.Some? && r.proposal.Some? && task in workspaces
      modifies this`records, project
      ensures project.Valid()
      ensures (Current(), reply) == Transact(old(Current()), task, r, trouble)
    {
      var changes := r.proposal.value.changes;
      if trouble.snapshotFails {
        return Err(SnapshotFailed);
      }
      var snapshot := project.WriteSnapshot(changes);
      var started := Promotion(snapshot, r.verificationId.value, Started);
      var promoting := r.(status := Promoting, promotion := Some(started));
      records := records[task := promoting];
      var applied := project.ApplyChanges(workspaces[task], changes, trouble.apply);
      if trouble.dies {
        return Err(ProcessDied);
      }
      if !applied {
        var restored := UndoPromotion(task, promoting, started, changes, trouble.rollback);
        assert records == old(records)[task := records[task]];
        return Err(if restored then PromotionRolledBack else RollbackDidNotWork);
      }
      records := records[task := promoting.(status := Promoted, promotion := Some(started.(stage := Completed)))];
      assert records == old(records)[task := records[task]];
      return Ok(PromotionResult(r.verificationId.value, r.proposalSha, changes, snapshot));
    }
  }
}
