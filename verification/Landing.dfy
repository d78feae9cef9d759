/** What was verified is what lands: a history of every write the gate makes to the project. */
module Landing {
  import opened Wrappers
  import opened Manifests
  import opened Places
  import opened Entries
  import opened Trees
  import opened Rollback
  import opened Promotions
  import opened Staging
  import opened StagingRuns

  // ----- What one promotion can write -----

  /** Every path holds what it held or what was sealed. */
  ghost predicate Mixed(before: Manifest, entries: Manifest, after: Manifest) {
    forall p :: Lookup(after, p) == Lookup(before, p) || Lookup(after, p) == Lookup(entries, p)
  }

  ghost predicate SealedAs(changes: seq<Change>, entries: Manifest) {
    forall c :: c in changes ==> c.staged == Lookup(entries, c.path) && (Installs(c) <==> c.staged.Some?)
  }

  lemma InstallMixes(before: Manifest, entries: Manifest, t: Tree, path: Path, entry: Entry, cut: Option<nat>)
    requires Mixed(before, entries, t.files)
    requires (Lookup(entries, path) == Some(entry) || Lookup(before, path) == Some(entry))
    ensures Mixed(before, entries, PlainInstall(t, path, entry, cut).tree.files)
  {
  }

  lemma ApplyOneMixes(before: Manifest, entries: Manifest, t: Tree, c: Change, fault: Option<nat>)
    requires Mixed(before, entries, t.files) && SealedAs([c], entries)
    ensures Mixed(before, entries, ApplyOne(t, entries, c, fault).tree.files)
  {
    assert c in [c];
    if c.staged.Some? {
      InstallMixes(before, entries, t, c.path, c.staged.value, fault);
      InstallMixes(before, entries, t, c.path, c.staged.value, Some(|c.path|));
      InstallMixes(before, entries, t, c.path, c.staged.value, None);
      assert Written(entries, c) == c.staged;
    }
  }

  lemma {:induction false} ApplyMixes(t: Tree, entries: Manifest, changes: seq<Change>, fault: Option<Fault>)
    requires SealedAs(changes, entries)
    ensures Mixed(t.files, entries, ApplyAll(t, entries, changes, fault).tree.files)
  {
    if changes != [] {
      var k := |changes| - 1;
      assert changes == changes[..k] + [changes[k]];
      ApplyMixes(t, entries, changes[..k], fault);
      ApplyOneMixes(t.files, entries, ApplyAll(t, entries, changes[..k], fault).tree, changes[k], FaultOf(fault, k));
    }
  }

  lemma {:induction false} RestoreMixes(before: Manifest, entries: Manifest, snapshot: Snapshot, changes: seq<Change>,
    x: Tree, fault: Option<nat>)
    requires Mixed(before, entries, x.files)
    requires forall c :: c in changes ==> Saved(snapshot, c.path) == Lookup(before, c.path)
    ensures Mixed(before, entries, PlainRestoreAll(x, snapshot, changes, fault).tree.files)
    decreases |changes|
  {
    if changes != [] {
      var k := |changes| - 1;
      assert changes[k] in changes;
      if Saved(snapshot, changes[k].path).Some? {
        InstallMixes(before, entries, x, changes[k].path, Saved(snapshot, changes[k].path).value, None);
      }
      RestoreMixes(before, entries, snapshot, changes[..k], PlainRestoreOne(x, snapshot, changes[k]).tree, fault);
    }
  }

  lemma DiffIsSealed(baseline: Manifest, entries: Manifest)
    ensures SealedAs(Diff(baseline, entries), entries)
  {
    DiffDescribes(baseline, entries);
    forall c | c in Diff(baseline, entries)
      ensures c.staged == Lookup(entries, c.path) && (Installs(c) <==> c.staged.Some?)
    {
      assert Describes(c, baseline, entries);
    }
  }

  /** The call ended in a rollback, and a changed path lies below a link. */
  ghost predicate UndoneThroughLink(s: State, task: TaskId, reply: Result<PromotionResult, Refusal>) {
    ReachesThroughLink(s, task) && (reply == Err(PromotionRolledBack) || reply == Err(RollbackDidNotWork))
  }

  lemma RollbackMixes(t: Tree, entries: Manifest, changes: seq<Change>, fault: Option<Fault>, again: Option<nat>)
    requires WellFormed(t) && NoDrift(t, changes) && ClearOfLinks(t, changes) && SealedAs(changes, entries)
    ensures Mixed(t.files, entries,
      Restore(ApplyAll(t, entries, changes, fault).tree, TakeSnapshot(t, changes), changes, again).tree.files)
  {
    ApplyMixes(t, entries, changes, fault);
    SnapshotIsPlain(t, changes);
    RollbackIsPlain(t, entries, changes, fault, again);
    RestoreMixes(t.files, entries, TakeSnapshot(t, changes), changes, ApplyAll(t, entries, changes, fault).tree, again);
  }

  lemma TransactMixes(s: State, task: TaskId, r: Record, trouble: Trouble)
    requires WellFormed(s.tree) && r.verificationId.Some? && r.proposal.Some? && task in s.workspaces
    requires NoDrift(s.tree, r.proposal.value.changes) && SealedAs(r.proposal.value.changes, s.workspaces[task])
    ensures var (after, reply) := Transact(s, task, r, trouble);
      || Mixed(s.tree.files, s.workspaces[task], after.tree.files)
      || (!ClearOfLinks(s.tree, r.proposal.value.changes)
          && (reply == Err(PromotionRolledBack) || reply == Err(RollbackDidNotWork)))
  {
    var changes := r.proposal.value.changes;
    var entries := s.workspaces[task];
    ApplyMixes(s.tree, entries, changes, trouble.apply);
    if ClearOfLinks(s.tree, changes) {
      RollbackMixes(s.tree, entries, changes, trouble.apply, trouble.rollback);
    }
  }

  /**
    Completed, interrupted or half rolled back: a promotion writes only what was sealed,
    unless it is rolled back through a link.
   */
  lemma PromotionWritesSealed(s: State, task: TaskId, expected: Option<string>, trouble: Trouble)
    requires WellFormed(s.tree) && Transacts(s, task, expected) && ProposalOk(s.records[task])
    ensures var (after, reply) := Promote(s, task, expected, trouble);
      UndoneThroughLink(s, task, reply) ||
      Mixed(s.tree.files, s.records[task].proposal.value.entries, after.tree.files)
  {
    var r := s.records[task];
    PromoteTransacts(s, task, expected, trouble);
    DiffIsSealed(r.baseline, r.proposal.value.entries);
    if !ReachesThroughLink(s, task) {
      ProposalIsClear(s.tree, r);
    }
    TransactMixes(s, task, r, trouble);
  }

  // ----- Where an acceptance and a proposal come from -----

  ghost predicate SameProposal(a: Record, b: Record) {
    a.proposal == b.proposal && a.baseline == b.baseline
  }

  /** The acceptance of a record was there before the step, or the step is `mark_verified` on what was PROPOSED. */
  ghost predicate AcceptanceTraced(s: State, step: Step, task: TaskId, after: Record) {
    && task in s.records && SameProposal(s.records[task], after)
    && (|| (IsAccepted(s.records[task].status) && s.records[task].verificationId == after.verificationId)
        || (s.records[task].status == Proposed && step.AcceptStep? && step.task == task
            && after.verificationId == Some(step.verificationId)))
  }

  /** The proposal was there before the step, or the step is `seal` and it is what the workspace holds. */
  ghost predicate ProposalTraced(s: State, step: Step, task: TaskId, after: Record)
    requires after.proposal.Some?
  {
    || (task in s.records && SameProposal(s.records[task], after))
    || (step == SealStep(task) && task in s.workspaces && s.workspaces[task] == after.proposal.value.entries)
  }

  ghost predicate Traced(s: State, step: Step, task: TaskId, after: Record) {
    && (IsAccepted(after.status) ==> AcceptanceTraced(s, step, task, after))
    && (after.proposal.Some? ==> ProposalTraced(s, step, task, after))
  }

  lemma SealTraces(s: State, task: TaskId, other: TaskId)
    requires other in Seal(s, task).0.records
    ensures Traced(s, SealStep(task), other, Seal(s, task).0.records[other])
  {
    SealStores(s, task);
  }

  lemma PrepareTraces(s: State, runId: string, task: TaskId, token: string, copyFails: bool, other: TaskId)
    requires other in Prepare(s, runId, task, token, copyFails).0.records
    ensures Traced(s, PrepareStep(runId, task, token, copyFails), other,
      Prepare(s, runId, task, token, copyFails).0.records[other])
  {
  }

  lemma AcceptTraces(s: State, task: TaskId, id: string, other: TaskId)
    requires other in MarkVerified(s, task, id).0.records
    ensures Traced(s, AcceptStep(task, id), other, MarkVerified(s, task, id).0.records[other])
  {
  }

  lemma SendBackTraces(s: State, task: TaskId, other: TaskId)
    requires other in MarkRevisionRequired(s, task).0.records
    ensures Traced(s, SendBackStep(task), other, MarkRevisionRequired(s, task).0.records[other])
  {
  }

  lemma AbandonTraces(s: State, task: TaskId, reason: string, other: TaskId)
    requires other in Abandon(s, task, reason).0.records
    ensures Traced(s, AbandonStep(task, reason), other, Abandon(s, task, reason).0.records[other])
  {
  }

  lemma TransactTraces(s: State, task: TaskId, r: Record, trouble: Trouble, other: TaskId)
    requires r.verificationId.Some? && r.proposal.Some? && task in s.workspaces
    requires task in s.records && s.records[task] == r && r.status == Verified
    requires other in Transact(s, task, r, trouble).0.records
    ensures other in s.records && SameProposal(s.records[other], Transact(s, task, r, trouble).0.records[other])
    ensures var after := Transact(s, task, r, trouble).0.records[other];
      IsAccepted(after.status) ==>
        IsAccepted(s.records[other].status) && s.records[other].verificationId == after.verificationId
  {
  }

  lemma PromoteTraces(s: State, task: TaskId, expected: Option<string>, trouble: Trouble, other: TaskId)
    requires other in Promote(s, task, expected, trouble).0.records
    ensures Traced(s, PromoteStep(task, expected, trouble), other, Promote(s, task, expected, trouble).0.records[other])
  {
    if Transacts(s, task, expected) {
      PromoteTransacts(s, task, expected, trouble);
      TransactTraces(s, task, s.records[task], trouble, other);
    }
  }

  lemma StepTraces(s: State, step: Step, task: TaskId)
    requires task in Next(s, step).records
    ensures Traced(s, step, task, Next(s, step).records[task])
  {
    match step
    case PrepareStep(runId, t, token, copyFails) => PrepareTraces(s, runId, t, token, copyFails, task);
    case SealStep(t) => SealTraces(s, t, task);
    case AcceptStep(t, id) => AcceptTraces(s, t, id, task);
    case SendBackStep(t) => SendBackTraces(s, t, task);
    case PromoteStep(t, expected, trouble) => PromoteTraces(s, t, expected, trouble, task);
    case AbandonStep(t, reason) => AbandonTraces(s, t, reason, task);
    case WorkStep(t, workspace) =>
    case OutsideStep(tree) =>
  }

  ghost function At(tree: Tree, steps: seq<Step>, n: nat): State
    requires n <= |steps|
  {
    Run(Start(tree), steps[..n])
  }

  lemma AtNext(tree: Tree, steps: seq<Step>, n: nat)
    requires n < |steps|
    ensures At(tree, steps, n + 1) == Next(At(tree, steps, n), steps[n])
  {
    assert steps[..n + 1][..n] == steps[..n];
  }

  /** At step `i` the workspace of the task was sealed and held `entries`. */
  ghost predicate SealedAtStep(tree: Tree, steps: seq<Step>, i: nat, task: TaskId, entries: Manifest)
    requires i < |steps|
  {
    && steps[i] == SealStep(task)
    && task in At(tree, steps, i).workspaces && At(tree, steps, i).workspaces[task] == entries
  }

  ghost predicate HasProposal(s: State, task: TaskId, entries: Manifest) {
    task in s.records && s.records[task].proposal.Some? && s.records[task].proposal.value.entries == entries
  }

  /** At step `j` the task's proposal of `entries` was PROPOSED and accepted as `id`. */
  ghost predicate AcceptedAtStep(tree: Tree, steps: seq<Step>, j: nat, task: TaskId, entries: Manifest, id: string)
    requires j < |steps|
  {
    && steps[j] == AcceptStep(task, id)
    && HasProposal(At(tree, steps, j), task, entries) && At(tree, steps, j).records[task].status == Proposed
  }

  ghost predicate HasAcceptance(s: State, task: TaskId, entries: Manifest, id: string) {
    HasProposal(s, task, entries) && IsAccepted(s.records[task].status) && s.records[task].verificationId == Some(id)
  }

  lemma SealedOrKept(tree: Tree, steps: seq<Step>, n: nat, task: TaskId, entries: Manifest)
    requires n < |steps| && HasProposal(At(tree, steps, n + 1), task, entries)
    ensures HasProposal(At(tree, steps, n), task, entries) || SealedAtStep(tree, steps, n, task, entries)
  {
    AtNext(tree, steps, n);
    StepTraces(At(tree, steps, n), steps[n], task);
  }

  lemma AcceptedOrKept(tree: Tree, steps: seq<Step>, n: nat, task: TaskId, entries: Manifest, id: string)
    requires n < |steps| && HasAcceptance(At(tree, steps, n + 1), task, entries, id)
    ensures HasAcceptance(At(tree, steps, n), task, entries, id) || AcceptedAtStep(tree, steps, n, task, entries, id)
  {
    AtNext(tree, steps, n);
    StepTraces(At(tree, steps, n), steps[n], task);
  }

  lemma {:induction false} SealedEarlier(tree: Tree, steps: seq<Step>, n: nat, task: TaskId, entries: Manifest)
    requires n <= |steps| && HasProposal(At(tree, steps, n), task, entries)
    ensures exists i :: 0 <= i < n && SealedAtStep(tree, steps, i, task, entries)
  {
    if n > 0 {
      SealedOrKept(tree, steps, n - 1, task, entries);
      if !SealedAtStep(tree, steps, n - 1, task, entries) {
        SealedEarlier(tree, steps, n - 1, task, entries);
      }
    }
  }

  lemma {:induction false} AcceptedEarlier(tree: Tree, steps: seq<Step>, n: nat, task: TaskId, entries: Manifest,
    id: string)
    requires n <= |steps| && HasAcceptance(At(tree, steps, n), task, entries, id)
    ensures exists j :: 0 <= j < n && AcceptedAtStep(tree, steps, j, task, entries, id)
  {
    if n > 0 {
      AcceptedOrKept(tree, steps, n - 1, task, entries, id);
      if !AcceptedAtStep(tree, steps, n - 1, task, entries, id) {
        AcceptedEarlier(tree, steps, n - 1, task, entries, id);
      }
    }
  }

  /** The call of `promote` at step `n` ends in a rollback through a link. */
  ghost predicate UndoneThroughLinkAt(tree: Tree, steps: seq<Step>, n: nat)
    requires n < |steps| && steps[n].PromoteStep?
  {
    var s := At(tree, steps, n);
    UndoneThroughLink(s, steps[n].task, Promote(s, steps[n].task, steps[n].expected, steps[n].trouble).1)
  }

  lemma WritingTransacts(s: State, task: TaskId, expected: Option<string>, trouble: Trouble)
    requires Promote(s, task, expected, trouble).0.tree != s.tree
    ensures Transacts(s, task, expected)
  {
  }

  lemma AcceptedAndSealedEarlier(tree: Tree, steps: seq<Step>, n: nat, task: TaskId, entries: Manifest, id: string)
    requires n <= |steps| && HasAcceptance(At(tree, steps, n), task, entries, id)
    ensures exists i, j ::
      0 <= i < j < n && SealedAtStep(tree, steps, i, task, entries) && AcceptedAtStep(tree, steps, j, task, entries, id)
  {
    AcceptedEarlier(tree, steps, n, task, entries, id);
    var j :| 0 <= j < n && AcceptedAtStep(tree, steps, j, task, entries, id);
    SealedEarlier(tree, steps, j, task, entries);
    var i :| 0 <= i < j && SealedAtStep(tree, steps, i, task, entries);
  }

  /**
    In every run, whatever a call of `promote` writes to the project is what the task's
    workspace held when it was sealed, before that very proposal was accepted, whatever
    the worker has done to the workspace since.  Only a rollback through a link can write
    anything else.
   */
  lemma VerifiedIsWhatLands(tree: Tree, steps: seq<Step>, n: nat, p: Path)
    requires WellFormed(tree) && n < |steps| && steps[n].PromoteStep? && !UndoneThroughLinkAt(tree, steps, n)
    requires Lookup(At(tree, steps, n + 1).tree.files, p) != Lookup(At(tree, steps, n).tree.files, p)
    ensures exists i, j, entries, id ::
      && 0 <= i < j < n && SealedAtStep(tree, steps, i, steps[n].task, entries)
      && AcceptedAtStep(tree, steps, j, steps[n].task, entries, id)
      && Lookup(At(tree, steps, n + 1).tree.files, p) == Lookup(entries, p)
  {
    var s := At(tree, steps, n);
    var task, expected := steps[n].task, steps[n].expected;
    AtNext(tree, steps, n);
    RunKeeps(tree, steps[..n]);
    WritingTransacts(s, task, expected, steps[n].trouble);
    PromoteTransacts(s, task, expected, steps[n].trouble);
    var r := s.records[task];
    assert RecordOk(s.records, r);
    PromotionWritesSealed(s, task, expected, steps[n].trouble);
    AcceptedAndSealedEarlier(tree, steps, n, task, r.proposal.value.entries, r.verificationId.value);
  }

  /** Nothing but a promotion or an outside writer touches the project. */
  lemma OnlyPromotionWrites(s: State, step: Step)
    ensures Next(s, step).tree != s.tree ==> step.PromoteStep? || step.OutsideStep?
  {
  }
}
