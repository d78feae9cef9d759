/** Runs of the gate: any sequence of store calls, worker edits and outside writes. */
module StagingRuns {
  import opened Wrappers
  import opened Manifests
  import opened Places
  import opened Entries
  import opened Trees
  import opened Rollback
  import opened Promotions
  import opened Staging

  datatype Step =
    | PrepareStep(runId: string, task: TaskId, token: string, copyFails: bool)
    | SealStep(task: TaskId)
    | AcceptStep(task: TaskId, verificationId: string)
    | SendBackStep(task: TaskId)
    | PromoteStep(task: TaskId, expected: Option<string>, trouble: Trouble)
    | AbandonStep(task: TaskId, reason: string)
    | WorkStep(task: TaskId, workspace: Manifest)   // the worker leaves its workspace like this
    | OutsideStep(tree: Tree)                       // someone leaves the project like this

  ghost function Next(s: State, step: Step): State {
    match step
    case PrepareStep(runId, task, token, copyFails) => Prepare(s, runId, task, token, copyFails).0
    case SealStep(task) => Seal(s, task).0
    case AcceptStep(task, id) => MarkVerified(s, task, id).0
    case SendBackStep(task) => MarkRevisionRequired(s, task).0
    case PromoteStep(task, expected, trouble) => Promote(s, task, expected, trouble).0
    case AbandonStep(task, reason) => Abandon(s, task, reason).0
    case WorkStep(task, workspace) =>
      if task in s.workspaces && PrefixFree(workspace) then s.(workspaces := s.workspaces[task := workspace]) else s
    case OutsideStep(tree) => if WellFormed(tree) && tree.around.root == s.tree.around.root then s.(tree := tree) else s
  }

  ghost function Run(s: State, steps: seq<Step>): State {
    if steps == [] then s else Next(Run(s, steps[..|steps| - 1]), steps[|steps| - 1])
  }

  function Start(tree: Tree): State {
    State(tree, map[], map[], [], {})
  }

  // ----- What every reachable state satisfies -----

  predicate IsAccepted(status: Status) {
    status == Verified || status == Promoting || status == Promoted
  }

  /** The proposal of a record is the difference of its baseline and what was sealed. */
  ghost predicate ProposalOk(r: Record) {
    PrefixFree(r.baseline) &&
    match r.proposal
    case None => r.proposalSha.None?
    case Some(p) =>
      && p.changes == Diff(r.baseline, p.entries) && PrefixFree(p.entries)
      && r.proposalSha == Some(Sha256(p))
  }

  /** An acceptance is always bound to a proposal, and an unaccepted record names none. */
  ghost predicate AcceptanceOk(r: Record) {
    && (IsAccepted(r.status) ==> r.proposal.Some? && r.verificationId.Some? && r.verificationId.value != "")
    && (r.status == Proposed || r.status == RevisionRequired ==> r.proposal.Some? && r.verificationId.None?)
    && (r.status == Prepared ==> r.proposal.None? && r.verificationId.None?)
    && (r.status == Promoted ==>
      && r.promotion.Some?
      && r.promotion.value.stage == Completed
      && r.verificationId == Some(r.promotion.value.verificationId))
  }

  ghost predicate RecordOk(records: map<TaskId, Record>, r: Record) {
    && ProposalOk(r) && AcceptanceOk(r)
    && r.promotedWhenStaged.Some? && r.promotedWhenStaged.value <= PromotedIds(records)
  }

  ghost predicate RecordsOk(records: map<TaskId, Record>) {
    forall t :: t in records ==> RecordOk(records, records[t])
  }

  ghost predicate InShape(s: State) {
    && WellFormed(s.tree)
    && s.records.Keys == s.workspaces.Keys
    && s.records.Keys !! s.untracked
    && (forall t :: t in s.workspaces ==> PrefixFree(s.workspaces[t]))
  }

  ghost predicate Invariant(s: State) {
    InShape(s) && RecordsOk(s.records)
  }

  /** Promotion is absorbing. */
  ghost predicate KeepsPromoted(before: map<TaskId, Record>, after: map<TaskId, Record>) {
    forall t :: t in before && before[t].status == Promoted ==> t in after && after[t].status == Promoted
  }

  lemma KeptIds(before: map<TaskId, Record>, after: map<TaskId, Record>)
    requires KeepsPromoted(before, after)
    ensures PromotedIds(before) <= PromotedIds(after)
  {
  }

  lemma RecordStaysOk(before: map<TaskId, Record>, after: map<TaskId, Record>, r: Record)
    requires RecordOk(before, r) && KeepsPromoted(before, after)
    ensures RecordOk(after, r)
  {
    KeptIds(before, after);
  }

  lemma StoredRecordsOk(records: map<TaskId, Record>, task: TaskId, r: Record)
    requires RecordsOk(records) && (task in records ==> records[task].status != Promoted)
    requires ProposalOk(r) && AcceptanceOk(r)
    requires r.promotedWhenStaged.Some? && r.promotedWhenStaged.value <= PromotedIds(records)
    ensures RecordsOk(records[task := r]) && KeepsPromoted(records, records[task := r])
  {
    var after := records[task := r];
    KeptIds(records, after);
    forall t | t in after ensures RecordOk(after, after[t]) {
      if t != task {
        RecordStaysOk(records, after, records[t]);
      }
    }
  }

  lemma UpdateInShape(s: State, task: TaskId, r: Record)
    requires InShape(s) && task in s.records
    ensures InShape(s.(records := s.records[task := r]))
  {
  }

  lemma AddInShape(s: State, task: TaskId, r: Record, workspace: Manifest)
    requires InShape(s) && task !in s.untracked && PrefixFree(workspace)
    ensures InShape(s.(records := s.records[task := r], workspaces := s.workspaces[task := workspace]))
  {
  }

  lemma UpdateKeeps(s: State, task: TaskId, r: Record)
    requires Invariant(s) && task in s.records && s.records[task].status != Promoted
    requires ProposalOk(r) && AcceptanceOk(r) && r.promotedWhenStaged == s.records[task].promotedWhenStaged
    ensures Invariant(s.(records := s.records[task := r]))
    ensures KeepsPromoted(s.records, s.records[task := r])
  {
    assert RecordOk(s.records, s.records[task]);
    StoredRecordsOk(s.records, task, r);
    UpdateInShape(s, task, r);
  }

  lemma TreeKeeps(s: State, tree: Tree)
    requires Invariant(s) && WellFormed(tree)
    ensures Invariant(s.(tree := tree))
  {
  }

  lemma RemovedRecordsOk(records: map<TaskId, Record>, task: TaskId)
    requires RecordsOk(records) && (task in records ==> records[task].status != Promoted)
    ensures RecordsOk(records - {task}) && KeepsPromoted(records, records - {task})
  {
    forall t | t in records - {task} ensures RecordOk(records - {task}, records[t]) {
      RecordStaysOk(records, records - {task}, records[t]);
    }
  }

  lemma MoveAsideKeeps(s: State, task: TaskId)
    requires Invariant(s) && task in s.records && s.records[task].status != Promoted
    ensures Invariant(MoveAside(s, task))
    ensures KeepsPromoted(s.records, MoveAside(s, task).records)
  {
    RemovedRecordsOk(s.records, task);
  }

  lemma FreshIsOk(s: State, runId: string, token: string)
    requires WellFormed(s.tree)
    ensures ProposalOk(FreshRecord(s, runId, token)) && AcceptanceOk(FreshRecord(s, runId, token))
    ensures FreshRecord(s, runId, token).promotedWhenStaged == Some(PromotedIds(s.records))
  {
    HeldIsPrefixFree(s.tree);
  }

  lemma AddRecordKeeps(s: State, task: TaskId, r: Record, workspace: Manifest)
    requires Invariant(s) && task !in s.records && task !in s.untracked && PrefixFree(workspace)
    requires ProposalOk(r) && AcceptanceOk(r) && r.promotedWhenStaged == Some(PromotedIds(s.records))
    ensures Invariant(s.(records := s.records[task := r], workspaces := s.workspaces[task := workspace]))
    ensures KeepsPromoted(s.records, s.records[task := r])
  {
    StoredRecordsOk(s.records, task, r);
    AddInShape(s, task, r, workspace);
  }

  lemma StageCopyKeeps(s: State, runId: string, task: TaskId, token: string, copyFails: bool)
    requires Invariant(s) && task !in s.records
    ensures Invariant(StageCopy(s, runId, task, token, copyFails).0)
    ensures KeepsPromoted(s.records, StageCopy(s, runId, task, token, copyFails).0.records)
  {
    if task !in s.untracked && !copyFails {
      FreshIsOk(s, runId, token);
      AddRecordKeeps(s, task, FreshRecord(s, runId, token), s.tree.files);
    }
  }

  lemma ReservedIsOk(r: Record, token: string)
    requires ProposalOk(r) && AcceptanceOk(r)
    ensures ProposalOk(Reserved(r, token)) && AcceptanceOk(Reserved(r, token))
  {
  }

  lemma OkParts(records: map<TaskId, Record>, r: Record)
    requires RecordOk(records, r)
    ensures ProposalOk(r) && AcceptanceOk(r)
  {
  }

  lemma RestageKeeps(s: State, runId: string, task: TaskId, token: string, copyFails: bool)
    requires Invariant(s) && task in s.records && s.records[task].status != Promoted
    ensures var after := StageCopy(MoveAside(s, task), runId, task, token, copyFails).0;
      Invariant(after) && KeepsPromoted(s.records, after.records)
  {
    MoveAsideKeeps(s, task);
    StageCopyKeeps(MoveAside(s, task), runId, task, token, copyFails);
  }

  lemma ReserveKeeps(s: State, task: TaskId, token: string)
    requires Invariant(s) && task in s.records && s.records[task].status != Promoted
    ensures Invariant(s.(records := s.records[task := Reserved(s.records[task], token)]))
    ensures KeepsPromoted(s.records, s.records[task := Reserved(s.records[task], token)])
  {
    OkParts(s.records, s.records[task]);
    ReservedIsOk(s.records[task], token);
    UpdateKeeps(s, task, Reserved(s.records[task], token));
  }

  lemma PrepareKeeps(s: State, runId: string, task: TaskId, token: string, copyFails: bool)
    requires Invariant(s)
    ensures Invariant(Prepare(s, runId, task, token, copyFails).0)
    ensures KeepsPromoted(s.records, Prepare(s, runId, task, token, copyFails).0.records)
  {
    if SafeId(task) && runId != "" && token != "" {
      if task !in s.records {
        StageCopyKeeps(s, runId, task, token, copyFails);
      } else {
        var r := s.records[task];
        if r.runId == runId && r.status != Promoted && r.status != Abandoned {
          if IsStale(s.records, r) {
            RestageKeeps(s, runId, task, token, copyFails);
          } else {
            ReserveKeeps(s, task, token);
          }
        }
      }
    }
  }

  lemma TransactKeeps(s: State, task: TaskId, trouble: Trouble)
    requires Invariant(s) && task in s.records && s.records[task].status == Verified
    requires NoDrift(s.tree, s.records[task].proposal.value.changes)
    ensures Invariant(Transact(s, task, s.records[task], trouble).0)
    ensures KeepsPromoted(s.records, Transact(s, task, s.records[task], trouble).0.records)
  {
    var r := s.records[task];
    assert RecordOk(s.records, r);
    var changes := r.proposal.value.changes;
    var applied := ApplyAll(s.tree, s.workspaces[task], changes, trouble.apply);
    var after := Transact(s, task, r, trouble).0;
    ApplyTouches(s.tree, s.workspaces[task], changes, trouble.apply);
    RestoreKeepsForm(applied.tree, TakeSnapshot(s.tree, changes), changes, trouble.rollback);
    TreeKeeps(s, after.tree);
    if after.records != s.records {
      UpdateKeeps(s.(tree := after.tree), task, after.records[task]);
      assert after == s.(tree := after.tree).(records := s.records[task := after.records[task]]);
    }
  }

  lemma SealedIsOk(r: Record, workspace: Manifest)
    requires PrefixFree(r.baseline) && PrefixFree(workspace)
    ensures ProposalOk(Sealed(r, workspace)) && AcceptanceOk(Sealed(r, workspace))
    ensures Sealed(r, workspace).promotedWhenStaged == r.promotedWhenStaged
  {
  }

  lemma SealStores(s: State, task: TaskId)
    ensures Seal(s, task).0 == s || (task in s.records && task in s.workspaces && s.records[task].status != Promoted
      && Seal(s, task).0 == s.(records := s.records[task := Sealed(s.records[task], s.workspaces[task])]))
  {
  }

  lemma SealKeeps(s: State, task: TaskId)
    requires Invariant(s)
    ensures Invariant(Seal(s, task).0) && KeepsPromoted(s.records, Seal(s, task).0.records)
  {
    SealStores(s, task);
    var after := Seal(s, task).0;
    if after != s {
      assert RecordOk(s.records, s.records[task]);
      SealedIsOk(s.records[task], s.workspaces[task]);
      UpdateKeeps(s, task, Sealed(s.records[task], s.workspaces[task]));
    }
  }

  lemma AcceptStores(s: State, task: TaskId, id: string)
    ensures MarkVerified(s, task, id).0 == s || (task in s.records && s.records[task].status == Proposed && id != ""
      && MarkVerified(s, task, id).0 ==
          s.(records := s.records[task := s.records[task].(status := Verified, verificationId := Some(id))]))
  {
  }

  lemma AcceptedIsOk(r: Record, id: string)
    requires ProposalOk(r) && AcceptanceOk(r) && r.status == Proposed && id != ""
    ensures ProposalOk(r.(status := Verified, verificationId := Some(id)))
    ensures AcceptanceOk(r.(status := Verified, verificationId := Some(id)))
  {
  }

  lemma AcceptKeeps(s: State, task: TaskId, id: string)
    requires Invariant(s)
    ensures Invariant(MarkVerified(s, task, id).0) && KeepsPromoted(s.records, MarkVerified(s, task, id).0.records)
  {
    AcceptStores(s, task, id);
    if MarkVerified(s, task, id).0 != s {
      OkParts(s.records, s.records[task]);
      AcceptedIsOk(s.records[task], id);
      UpdateKeeps(s, task, s.records[task].(status := Verified, verificationId := Some(id)));
    }
  }

  lemma SendBackStores(s: State, task: TaskId)
    ensures MarkRevisionRequired(s, task).0 == s || (task in s.records && s.records[task].status == Proposed
      && MarkRevisionRequired(s, task).0 ==
          s.(records := s.records[task := s.records[task].(status := RevisionRequired, verificationId := None)]))
  {
  }

  lemma SentBackIsOk(r: Record)
    requires ProposalOk(r) && AcceptanceOk(r) && r.status == Proposed
    ensures ProposalOk(r.(status := RevisionRequired, verificationId := None))
    ensures AcceptanceOk(r.(status := RevisionRequired, verificationId := None))
  {
  }

  lemma SendBackKeeps(s: State, task: TaskId)
    requires Invariant(s)
    ensures Invariant(MarkRevisionRequired(s, task).0)
    ensures KeepsPromoted(s.records, MarkRevisionRequired(s, task).0.records)
  {
    SendBackStores(s, task);
    if MarkRevisionRequired(s, task).0 != s {
      OkParts(s.records, s.records[task]);
      SentBackIsOk(s.records[task]);
      UpdateKeeps(s, task, s.records[task].(status := RevisionRequired, verificationId := None));
    }
  }

  lemma AbandonStores(s: State, task: TaskId, reason: string)
    ensures Abandon(s, task, reason).0 == s || (task in s.records && s.records[task].status != Promoted
      && Abandon(s, task, reason).0 == s.(records := s.records[task := s.records[task].(status := Abandoned)]))
  {
  }

  lemma AbandonedIsOk(r: Record)
    requires ProposalOk(r) && AcceptanceOk(r)
    ensures ProposalOk(r.(status := Abandoned)) && AcceptanceOk(r.(status := Abandoned))
  {
  }

  lemma AbandonKeeps(s: State, task: TaskId, reason: string)
    requires Invariant(s)
    ensures Invariant(Abandon(s, task, reason).0) && KeepsPromoted(s.records, Abandon(s, task, reason).0.records)
  {
    AbandonStores(s, task, reason);
    if Abandon(s, task, reason).0 != s {
      OkParts(s.records, s.records[task]);
      AbandonedIsOk(s.records[task]);
      UpdateKeeps(s, task, s.records[task].(status := Abandoned));
    }
  }

  /** A call of `promote` that gets past its checks. */
  predicate Transacts(s: State, task: TaskId, expected: Option<string>) {
    SafeId(task) && task in s.records && PromotionRefusal(s, task, s.records[task], expected).None?
  }

  lemma PromoteTransacts(s: State, task: TaskId, expected: Option<string>, trouble: Trouble)
    requires Transacts(s, task, expected)
    ensures var r := s.records[task];
      && r.verificationId.Some? && r.proposal.Some? && NoDrift(s.tree, r.proposal.value.changes)
      && task in s.workspaces && s.workspaces[task] == r.proposal.value.entries
      && Promote(s, task, expected, trouble) == Transact(s, task, r, trouble)
  {
  }

  lemma PromoteKeeps(s: State, task: TaskId, expected: Option<string>, trouble: Trouble)
    requires Invariant(s)
    ensures Invariant(Promote(s, task, expected, trouble).0)
    ensures KeepsPromoted(s.records, Promote(s, task, expected, trouble).0.records)
  {
    if Transacts(s, task, expected) {
      PromoteTransacts(s, task, expected, trouble);
      TransactKeeps(s, task, trouble);
    } else {
      assert Promote(s, task, expected, trouble).0 == s;
    }
  }

  lemma WorkKeeps(s: State, task: TaskId, workspace: Manifest)
    requires Invariant(s) && task in s.workspaces && PrefixFree(workspace)
    ensures Invariant(s.(workspaces := s.workspaces[task := workspace]))
  {
  }

  lemma NextKeeps(s: State, step: Step)
    requires Invariant(s)
    ensures Invariant(Next(s, step))
    ensures KeepsPromoted(s.records, Next(s, step).records)
  {
    match step
    case PrepareStep(runId, task, token, copyFails) => PrepareKeeps(s, runId, task, token, copyFails);
    case SealStep(task) => SealKeeps(s, task);
    case AcceptStep(task, id) => AcceptKeeps(s, task, id);
    case SendBackStep(task) => SendBackKeeps(s, task);
    case PromoteStep(task, expected, trouble) => PromoteKeeps(s, task, expected, trouble);
    case AbandonStep(task, reason) => AbandonKeeps(s, task, reason);
    case WorkStep(task, workspace) =>
      if task in s.workspaces && PrefixFree(workspace) {
        WorkKeeps(s, task, workspace);
      }
    case OutsideStep(tree) =>
      if WellFormed(tree) && tree.around.root == s.tree.around.root {
        TreeKeeps(s, tree);
      }
  }

  /** Every reachable state satisfies the invariant. */
  lemma {:induction false} RunKeeps(tree: Tree, steps: seq<Step>)
    requires WellFormed(tree)
    ensures Invariant(Run(Start(tree), steps))
  {
    if steps != [] {
      RunKeeps(tree, steps[..|steps| - 1]);
      NextKeeps(Run(Start(tree), steps[..|steps| - 1]), steps[|steps| - 1]);
    }
  }

  // ----- All or nothing -----

  function SealedAt(before: Manifest, baseline: Manifest, entries: Manifest, p: Path): Option<Entry> {
    if p in Differing(baseline, entries) then Lookup(entries, p) else Lookup(before, p)
  }

  /** `after` is `before` with the sealed entries at the changed paths, and nothing else new. */
  ghost predicate Overlaid(before: Manifest, baseline: Manifest, entries: Manifest, after: Manifest) {
    forall p :: Lookup(after, p) == SealedAt(before, baseline, entries, p)
  }

  lemma CompletedApply(t: Tree, baseline: Manifest, entries: Manifest, fault: Option<Fault>)
    requires WellFormed(t) && PrefixFree(baseline) && NoDrift(t, Diff(baseline, entries))
    requires ApplyAll(t, entries, Diff(baseline, entries), fault).Done?
    ensures Landed(t, baseline, entries) == Some(ApplyAll(t, entries, Diff(baseline, entries), fault).tree)
    ensures Overlaid(t.files, baseline, entries, Landed(t, baseline, entries).value.files)
  {
    DoneMeansNoFault(t, entries, Diff(baseline, entries), fault);
    forall p ensures Lookup(Landed(t, baseline, entries).value.files, p) == SealedAt(t.files, baseline, entries, p) {
      LandedAt(t, baseline, entries, p);
    }
  }

  lemma TransactLands(s: State, task: TaskId, r: Record, trouble: Trouble)
    requires r.verificationId.Some? && r.proposal.Some? && task in s.workspaces
    requires Transact(s, task, r, trouble).1.Ok?
    ensures var after := Transact(s, task, r, trouble).0;
      && task in after.records && after.records[task].status == Promoted
      && ApplyAll(s.tree, s.workspaces[task], r.proposal.value.changes, trouble.apply) == Done(after.tree)
  {
  }

  lemma VerifiedTransactLands(s: State, task: TaskId, r: Record, trouble: Trouble)
    requires WellFormed(s.tree) && r.verificationId.Some? && r.proposal.Some? && ProposalOk(r)
    requires task in s.workspaces && s.workspaces[task] == r.proposal.value.entries
    requires NoDrift(s.tree, r.proposal.value.changes)
    requires Transact(s, task, r, trouble).1.Ok?
    ensures var after := Transact(s, task, r, trouble).0;
      && task in after.records && after.records[task].status == Promoted
      && Landed(s.tree, r.baseline, r.proposal.value.entries) == Some(after.tree)
      && Overlaid(s.tree.files, r.baseline, r.proposal.value.entries, after.tree.files)
  {
    TransactLands(s, task, r, trouble);
    CompletedApply(s.tree, r.baseline, r.proposal.value.entries, trouble.apply);
  }

  lemma PromotionLands(s: State, task: TaskId, expected: Option<string>, trouble: Trouble)
    requires WellFormed(s.tree) && Transacts(s, task, expected) && ProposalOk(s.records[task])
    requires Promote(s, task, expected, trouble).1.Ok?
    ensures var after := Promote(s, task, expected, trouble).0; var r := s.records[task];
      && task in after.records && after.records[task].status == Promoted
      && Landed(s.tree, r.baseline, r.proposal.value.entries) == Some(after.tree)
      && Overlaid(s.tree.files, r.baseline, r.proposal.value.entries, after.tree.files)
  {
    PromoteTransacts(s, task, expected, trouble);
    VerifiedTransactLands(s, task, s.records[task], trouble);
  }

  /** A changed path of the proposal lies below a link of the project. */
  ghost predicate ReachesThroughLink(s: State, task: TaskId) {
    && task in s.records && s.records[task].proposal.Some?
    && !Unlinked(s.tree, s.records[task].proposal.value.changes)
  }

  lemma ProposalIsClear(t: Tree, r: Record)
    requires WellFormed(t) && ProposalOk(r) && r.proposal.Some?
    requires NoDrift(t, r.proposal.value.changes) && Unlinked(t, r.proposal.value.changes)
    ensures ClearOfLinks(t, r.proposal.value.changes)
  {
    DiffStagesNoLinkAbove(t, r.baseline, r.proposal.value.entries);
  }

  lemma FailedTransactChangesNothing(s: State, task: TaskId, r: Record, trouble: Trouble)
    requires WellFormed(s.tree) && r.verificationId.Some? && r.proposal.Some? && task in s.workspaces
    requires NoDrift(s.tree, r.proposal.value.changes) && ClearOfLinks(s.tree, r.proposal.value.changes)
    requires Transact(s, task, r, trouble).1.Err?
    ensures var after := Transact(s, task, r, trouble).0;
      after.tree == s.tree || (task in after.records && after.records[task].status == Promoting)
  {
    RollbackIsExactOrRaises(s.tree, s.workspaces[task], r.proposal.value.changes, trouble.apply, trouble.rollback);
  }

  /**
    Whatever goes wrong, a refused call leaves the project alone or the record PROMOTING,
    unless it was rolled back through a link.
   */
  lemma RefusalChangesNothing(s: State, task: TaskId, expected: Option<string>, trouble: Trouble)
    requires WellFormed(s.tree) && (task in s.records ==> ProposalOk(s.records[task]))
    requires Promote(s, task, expected, trouble).1.Err?
    ensures var (after, reply) := Promote(s, task, expected, trouble);
      || after.tree == s.tree || (task in after.records && after.records[task].status == Promoting)
      || (reply == Err(PromotionRolledBack) && ReachesThroughLink(s, task))
  {
    if Transacts(s, task, expected) {
      var r := s.records[task];
      PromoteTransacts(s, task, expected, trouble);
      if !ReachesThroughLink(s, task) {
        ProposalIsClear(s.tree, r);
        FailedTransactChangesNothing(s, task, r, trouble);
      }
    }
  }

  lemma OverlaidBaseline(baseline: Manifest, entries: Manifest, files: Manifest)
    requires Overlaid(baseline, baseline, entries, files)
    ensures files == entries
  {
    forall p ensures Lookup(files, p) == Lookup(entries, p) {
      assert Lookup(files, p) == SealedAt(baseline, baseline, entries, p);
    }
    assert Differing(files, entries) == {};
    SameLookups(files, entries);
  }

  /** When the project is still what was copied, a promotion makes it what was sealed. */
  lemma PromotionOfUndrifted(s: State, task: TaskId, expected: Option<string>, trouble: Trouble)
    requires WellFormed(s.tree) && Transacts(s, task, expected) && ProposalOk(s.records[task])
    requires s.tree.files == s.records[task].baseline && Promote(s, task, expected, trouble).1.Ok?
    ensures Promote(s, task, expected, trouble).0.tree.files == s.records[task].proposal.value.entries
  {
    var r := s.records[task];
    PromotionLands(s, task, expected, trouble);
    OverlaidBaseline(r.baseline, r.proposal.value.entries, Promote(s, task, expected, trouble).0.tree.files);
  }
}
