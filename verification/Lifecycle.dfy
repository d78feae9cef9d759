/**
  What each call of the store does to the copies and records, said from outside: which calls
  are refused, what a call leaves alone, and that no call ever loses a worker's work or
  changes what was accepted.
 */
module Lifecycle {
  import opened Wrappers
  import opened Manifests
  import opened Places
  import opened PathLookup
  import opened Trees
  import opened Rollback
  import opened Promotions
  import opened Staging
  import opened StagingRuns
  import opened Landing

  // ----- prepare -----

  /** The call has arguments that name a task and a worker. */
  predicate WellNamed(runId: string, task: TaskId, token: string) {
    SafeId(task) && runId != "" && token != ""
  }

  predicate Held(s: State, task: TaskId) {
    task in s.records && task in s.workspaces
  }

  /** Some other work was merged into the project since the copy was taken. */
  predicate Outdated(s: State, task: TaskId)
    requires task in s.records
  {
    exists t :: t in s.records && s.records[t].status == Promoted && '.' !in t
      && (s.records[task].promotedWhenStaged.None? || t !in s.records[task].promotedWhenStaged.value)
  }

  lemma StaleMeansOutdated(s: State, task: TaskId)
    requires task in s.records
    ensures IsStale(s.records, s.records[task]) <==> Outdated(s, task)
  {
    var r := s.records[task];
    if IsStale(s.records, r) {
      if r.promotedWhenStaged.None? {
        var t :| t in PromotedIds(s.records);
      } else {
        var t :| t in PromotedIds(s.records) - r.promotedWhenStaged.value;
      }
    }
    if Outdated(s, task) {
      var t :| t in s.records && s.records[t].status == Promoted && '.' !in t
        && (r.promotedWhenStaged.None? || t !in r.promotedWhenStaged.value);
      assert t in PromotedIds(s.records);
      if r.promotedWhenStaged.Some? {
        assert t in PromotedIds(s.records) - r.promotedWhenStaged.value;
      }
    }
  }

  /** The task's copy belongs to this run and is still being worked on. */
  predicate InHand(s: State, runId: string, task: TaskId) {
    && Held(s, task) && s.records[task].runId == runId
    && s.records[task].status != Promoted && s.records[task].status != Abandoned
  }

  /** The call makes a new copy, if the directory is free and copying works. */
  predicate NeedsCopy(s: State, runId: string, task: TaskId) {
    Held(s, task) ==> InHand(s, runId, task) && Outdated(s, task)
  }

  /** Which calls of `prepare` are refused, and why. */
  lemma PrepareRefusesExactly(s: State, runId: string, task: TaskId, token: string, copyFails: bool, e: Refusal)
    ensures Prepare(s, runId, task, token, copyFails).1 == Err(e) <==>
      match e
      case UnsafeId => !SafeId(task)
      case EmptyArgument => SafeId(task) && (runId == "" || token == "")
      case AnotherRun => WellNamed(runId, task, token) && Held(s, task) && s.records[task].runId != runId
      case AlreadyFinished =>
        && WellNamed(runId, task, token) && Held(s, task) && s.records[task].runId == runId
        && s.records[task].status in {Promoted, Abandoned}
      case UntrackedDirectory => WellNamed(runId, task, token) && NeedsCopy(s, runId, task) && task in s.untracked
      case CopyFailed =>
        WellNamed(runId, task, token) && NeedsCopy(s, runId, task) && task !in s.untracked && copyFails
      case _ => false
  {
    if task in s.records {
      StaleMeansOutdated(s, task);
    }
  }

  /** The record, the copy and the directory of a task are as they were. */
  ghost predicate TaskStays(s: State, after: State, t: TaskId) {
    && (t in after.untracked <==> t in s.untracked)
    && (t in after.records <==> t in s.records) && (t in s.records ==> after.records[t] == s.records[t])
    && (t in after.workspaces <==> t in s.workspaces) && (t in s.workspaces ==> after.workspaces[t] == s.workspaces[t])
  }

  /** Nothing but what belongs to the task is touched. */
  ghost predicate OthersStay(s: State, after: State, task: TaskId) {
    after.tree == s.tree && s.aside <= after.aside && forall t :: t != task ==> TaskStays(s, after, t)
  }

  lemma PrepareLeavesOther(s: State, runId: string, task: TaskId, token: string, copyFails: bool, t: TaskId)
    requires t != task
    ensures TaskStays(s, Prepare(s, runId, task, token, copyFails).0, t)
  {
  }

  /** A call touches the task it names, and nothing at all if it is refused before a copy is due. */
  lemma PrepareLeavesOthers(s: State, runId: string, task: TaskId, token: string, copyFails: bool)
    ensures OthersStay(s, Prepare(s, runId, task, token, copyFails).0, task)
    ensures var (after, reply) := Prepare(s, runId, task, token, copyFails);
      reply.Err? && !NeedsCopy(s, runId, task) ==> after == s
  {
    forall t | t != task ensures TaskStays(s, Prepare(s, runId, task, token, copyFails).0, t) {
      PrepareLeavesOther(s, runId, task, token, copyFails, t);
    }
    if task in s.records {
      StaleMeansOutdated(s, task);
    }
  }

  /** All of the record but its status and its workers' tokens. */
  ghost predicate SameContent(a: Record, b: Record) {
    && a.runId == b.runId && a.promotedWhenStaged == b.promotedWhenStaged && a.baseline == b.baseline
    && a.proposal == b.proposal && a.proposalSha == b.proposalSha && a.verificationId == b.verificationId
    && a.promotion == b.promotion
  }

  /** The worker's copy comes back as the worker left it, and the record notes the new token. */
  lemma ReusedAsItWas(s: State, runId: string, task: TaskId, token: string, copyFails: bool)
    requires Held(s, task) && !Outdated(s, task) && Prepare(s, runId, task, token, copyFails).1.Ok?
    ensures var (after, reply) := Prepare(s, runId, task, token, copyFails);
      && after.workspaces == s.workspaces && after.aside == s.aside && after.untracked == s.untracked
      && task in after.records && after.records[task] == reply.value
      && SameContent(s.records[task], reply.value) && reply.value.status == s.records[task].status
      && reply.value.tokens ==
          s.records[task].tokens + if token in s.records[task].tokens then [] else [token]
  {
    StaleMeansOutdated(s, task);
  }

  /** The record and the copy, as the worker left it, are moved away together. */
  ghost predicate MovedAside(s: State, after: State, task: TaskId)
    requires Held(s, task)
  {
    && |after.aside| == |s.aside| + 1 && s.aside <= after.aside
    && var moved := after.aside[|s.aside|];
       && moved.task == task && moved.workspace == s.workspaces[task]
       && SameContent(s.records[task], moved.record) && moved.record.tokens == s.records[task].tokens
       && moved.record.status == Abandoned
  }

  /** A copy of the project as it is now, with nothing proposed yet. */
  ghost predicate StagedAnew(s: State, after: State, runId: string, task: TaskId, token: string) {
    && Held(after, task) && after.workspaces[task] == s.tree.files
    && var r := after.records[task];
       && r.runId == runId && r.status == Prepared && r.tokens == [token] && r.baseline == s.tree.files
       && r.proposal.None? && r.proposalSha.None? && r.verificationId.None? && r.promotion.None?
       && r.promotedWhenStaged.Some?
       && forall t :: t in r.promotedWhenStaged.value <==>
            t in s.records && s.records[t].status == Promoted && '.' !in t
  }

  /** An outdated copy is set aside, whether or not the new one can be made. */
  lemma OutdatedIsSetAside(s: State, runId: string, task: TaskId, token: string, copyFails: bool)
    requires WellNamed(runId, task, token) && InHand(s, runId, task) && Outdated(s, task)
    ensures var (after, reply) := Prepare(s, runId, task, token, copyFails);
      && MovedAside(s, after, task)
      && (reply.Ok? ==> StagedAnew(s, after, runId, task, token) && after.records[task] == reply.value)
      && (reply.Err? ==> task !in after.records && task !in after.workspaces && task in after.untracked)
  {
    StaleMeansOutdated(s, task);
    var after := Prepare(s, runId, task, token, copyFails).0;
    assert after.aside[|s.aside|] == SetAside(task, s.records[task].(status := Abandoned), s.workspaces[task]);
  }

  /** A task without a copy gets one, or its directory stays behind without a record; nothing is set aside. */
  lemma FirstCopy(s: State, runId: string, task: TaskId, token: string, copyFails: bool)
    requires !Held(s, task)
    ensures var (after, reply) := Prepare(s, runId, task, token, copyFails);
      && after.aside == s.aside
      && (reply.Ok? ==> StagedAnew(s, after, runId, task, token) && after.records[task] == reply.value)
      && (reply.Err? ==> after.records == s.records && after.workspaces == s.workspaces)
      && (task in after.untracked <==> task in s.untracked || reply == Err(CopyFailed))
  {
  }

  // ----- seal, accept, send back, abandon -----

  /** The record of one task is replaced, and nothing else. */
  ghost predicate OnlyRecord(s: State, after: State, task: TaskId, r: Record) {
    && after.tree == s.tree && after.workspaces == s.workspaces && after.aside == s.aside
    && after.untracked == s.untracked && after.records == s.records[task := r]
  }

  /** When a copy can be sealed, and what the proposal is. */
  lemma SealsExactly(s: State, task: TaskId)
    ensures var (after, reply) := Seal(s, task);
      && (reply.Ok? <==>
          SafeId(task) && Held(s, task) && s.records[task].status in {Prepared, Proposed, RevisionRequired})
      && (reply.Err? ==> after == s)
      && (reply.Ok? ==>
          var r := s.records[task];
          && OnlyRecord(s, after, task, reply.value)
          && reply.value.status == Proposed && reply.value.verificationId.None? && reply.value.proposal.Some?
          && reply.value.proposal.value.entries == s.workspaces[task]
          && reply.value.proposal.value.changes == Diff(r.baseline, s.workspaces[task])
          && reply.value.proposalSha == Some(Sha256(reply.value.proposal.value))
          && reply.value.runId == r.runId && reply.value.baseline == r.baseline && reply.value.tokens == r.tokens
          && reply.value.promotedWhenStaged == r.promotedWhenStaged && reply.value.promotion == r.promotion)
  {
  }

  /** When a proposal can be accepted: the acceptance names what it is bound to and changes nothing else. */
  lemma AcceptsExactly(s: State, task: TaskId, id: string)
    ensures var (after, reply) := MarkVerified(s, task, id);
      && (reply.Ok? <==>
          && SafeId(task) && id != "" && task in s.records
          && s.records[task].status == Proposed && s.records[task].proposalSha.Some?)
      && (reply.Err? ==> after == s)
      && (reply.Ok? ==>
          && OnlyRecord(s, after, task, reply.value)
          && reply.value.status == Verified && reply.value.verificationId == Some(id)
          && reply.value.tokens == s.records[task].tokens
          && SameContent(s.records[task].(verificationId := Some(id)), reply.value))
  {
  }

  /** When a proposal can be sent back: what was proposed stays to be worked on. */
  lemma SendsBackExactly(s: State, task: TaskId)
    ensures var (after, reply) := MarkRevisionRequired(s, task);
      && (reply.Ok? <==> SafeId(task) && task in s.records && s.records[task].status == Proposed)
      && (reply.Err? ==> after == s)
      && (reply.Ok? ==>
          && OnlyRecord(s, after, task, reply.value)
          && reply.value.status == RevisionRequired && reply.value.tokens == s.records[task].tokens
          && SameContent(s.records[task].(verificationId := None), reply.value))
  {
  }

  /** When a task can be abandoned: always, but for what has been promoted. */
  lemma AbandonsExactly(s: State, task: TaskId, reason: string)
    ensures var (after, reply) := Abandon(s, task, reason);
      && (reply.Ok? <==> SafeId(task) && reason != "" && task in s.records && s.records[task].status != Promoted)
      && (reply.Err? ==> after == s)
      && (reply.Ok? ==>
          && OnlyRecord(s, after, task, reply.value)
          && reply.value.status == Abandoned && reply.value.tokens == s.records[task].tokens
          && SameContent(s.records[task], reply.value))
  {
  }

  // ----- promote -----

  /** The record names an acceptance, and the caller asks for that one or for none in particular. */
  predicate IsBoundTo(r: Record, expected: Option<string>) {
    && r.verificationId.Some? && r.verificationId.value != ""
    && (expected.None? || expected.value == r.verificationId.value)
  }

  /** The digest is that of the proposal. */
  predicate IsIntact(r: Record) {
    r.proposal.Some? && r.proposalSha == Some(Sha256(r.proposal.value))
  }

  predicate HoldsSealed(s: State, task: TaskId, r: Record) {
    r.proposal.Some? && task in s.workspaces && s.workspaces[task] == r.proposal.value.entries
  }

  lemma TransactReplies(s: State, task: TaskId, r: Record, trouble: Trouble)
    requires r.verificationId.Some? && r.proposal.Some? && task in s.workspaces
    ensures var reply := Transact(s, task, r, trouble).1;
      reply.Err? ==> reply.error in {SnapshotFailed, PromotionRolledBack, RollbackDidNotWork, ProcessDied}
  {
  }

  /** The first check that an accepted record fails, in the order in which they are made. */
  lemma PromoteRefusesExactly(s: State, task: TaskId, expected: Option<string>, trouble: Trouble, e: Refusal)
    requires SafeId(task) && task in s.records && s.records[task].status == Verified
    requires e !in {SnapshotFailed, PromotionRolledBack, RollbackDidNotWork, ProcessDied}
    ensures var r := s.records[task];
      Promote(s, task, expected, trouble).1 == Err(e) <==>
        match e
        case NoVerificationId => !IsBoundTo(r, None)
        case OtherVerification => IsBoundTo(r, None) && !IsBoundTo(r, expected)
        case NoProposal => IsBoundTo(r, expected) && r.proposal.None?
        case CorruptDigest => IsBoundTo(r, expected) && r.proposal.Some? && !IsIntact(r)
        case StagedArtifactChanged => IsBoundTo(r, expected) && IsIntact(r) && !HoldsSealed(s, task, r)
        case CanonicalDrift =>
          && IsBoundTo(r, expected) && IsIntact(r) && HoldsSealed(s, task, r)
          && exists c :: c in r.proposal.value.changes && !NoDriftAt(s.tree, c)
        case _ => false
    ensures Promote(s, task, expected, trouble).1 == Err(e) ==> Promote(s, task, expected, trouble).0 == s
  {
    if Transacts(s, task, expected) {
      PromoteTransacts(s, task, expected, trouble);
      TransactReplies(s, task, s.records[task], trouble);
    }
  }

  /** The status of the record, and the stage of the promotion noted in it. */
  ghost predicate LeftAs(r: Record, status: Status, stage: PromotionStage) {
    r.status == status && r.promotion.Some? && r.promotion.value.stage == stage
  }

  lemma TransactOutcomes(s: State, task: TaskId, r: Record, trouble: Trouble)
    requires r.verificationId.Some? && r.proposal.Some? && task in s.workspaces
    ensures var (after, reply) := Transact(s, task, r, trouble);
      && (reply == Err(SnapshotFailed) <==> trouble.snapshotFails)
      && (trouble.snapshotFails ==> after == s)
      && (!trouble.snapshotFails ==>
          && task in after.records
          && (reply == Err(ProcessDied) <==> trouble.dies)
          && match reply
             case Ok(_) => LeftAs(after.records[task], Promoted, Completed)
             case Err(ProcessDied) => LeftAs(after.records[task], Promoting, Started)
             case Err(PromotionRolledBack) => LeftAs(after.records[task], Verified, RolledBack)
             case Err(RollbackDidNotWork) => LeftAs(after.records[task], Promoting, RollbackFailed)
             case Err(_) => false)
  {
  }

  lemma TransactNotes(s: State, task: TaskId, r: Record, trouble: Trouble)
    requires r.verificationId.Some? && r.proposal.Some? && task in s.workspaces && !trouble.snapshotFails
    ensures var (after, reply) := Transact(s, task, r, trouble);
      && task in after.records && after.records[task].promotion.Some?
      && var noted := after.records[task].promotion.value;
         && Some(noted.verificationId) == r.verificationId
         && noted.snapshot == TakeSnapshot(s.tree, r.proposal.value.changes)
         && (reply.Ok? ==>
             && reply.value.verificationId == noted.verificationId && reply.value.snapshot == noted.snapshot
             && reply.value.proposalSha == r.proposalSha && reply.value.changes == r.proposal.value.changes)
  {
  }

  /** Once the checks are passed: how each end of a promotion leaves the record, and what it notes and replies. */
  lemma PromotionOutcomes(s: State, task: TaskId, expected: Option<string>, trouble: Trouble)
    requires SafeId(task) && task in s.records && s.records[task].status == Verified
    requires IsBoundTo(s.records[task], expected) && IsIntact(s.records[task]) && HoldsSealed(s, task, s.records[task])
    requires NoDrift(s.tree, s.records[task].proposal.value.changes)
    ensures var (after, reply) := Promote(s, task, expected, trouble); var r := s.records[task];
      && (reply == Err(SnapshotFailed) <==> trouble.snapshotFails)
      && (trouble.snapshotFails ==> after == s)
      && (!trouble.snapshotFails ==>
          && task in after.records && after.records[task].promotion.Some?
          && Some(after.records[task].promotion.value.verificationId) == r.verificationId
          && after.records[task].promotion.value.snapshot == TakeSnapshot(s.tree, r.proposal.value.changes)
          && (reply == Err(ProcessDied) <==> trouble.dies)
          && match reply
             case Ok(result) =>
               && LeftAs(after.records[task], Promoted, Completed)
               && r.verificationId == Some(result.verificationId) && result.proposalSha == r.proposalSha
               && result.changes == r.proposal.value.changes
               && result.snapshot == after.records[task].promotion.value.snapshot
             case Err(ProcessDied) => LeftAs(after.records[task], Promoting, Started)
             case Err(PromotionRolledBack) => LeftAs(after.records[task], Verified, RolledBack)
             case Err(RollbackDidNotWork) => LeftAs(after.records[task], Promoting, RollbackFailed)
             case Err(_) => false)
  {
    assert Transacts(s, task, expected);
    PromoteTransacts(s, task, expected, trouble);
    TransactOutcomes(s, task, s.records[task], trouble);
    if !trouble.snapshotFails {
      TransactNotes(s, task, s.records[task], trouble);
    }
  }

  /** A promoted record is answered without a write: with its own promotion, if all it changed is still there. */
  lemma PromotedAnswersExactly(s: State, task: TaskId, expected: Option<string>, trouble: Trouble)
    requires SafeId(task) && task in s.records && s.records[task].status == Promoted
    ensures var (after, reply) := Promote(s, task, expected, trouble); var r := s.records[task];
      && after == s
      && (reply.Ok? <==>
          && IsBoundTo(r, expected) && r.proposal.Some? && r.promotion.Some?
          && forall c :: c in r.proposal.value.changes ==>
               Observed(s.tree, c.path) == if c.staged.Some? then Leaf(c.staged.value) else Nothing)
      && (reply.Ok? ==>
          && r.verificationId == Some(reply.value.verificationId) && reply.value.proposalSha == r.proposalSha
          && reply.value.changes == r.proposal.value.changes && reply.value.snapshot == r.promotion.value.snapshot)
      && (reply == Err(OtherVerification) <==> !IsBoundTo(r, expected))
  {
    if IsBoundTo(s.records[task], expected) && s.records[task].proposal.Some? {
      var changes := s.records[task].proposal.value.changes;
      forall c | c in changes
        ensures LandedAlready(s.tree, c) <==>
          Observed(s.tree, c.path) == if c.staged.Some? then Leaf(c.staged.value) else Nothing
      {
      }
    }
  }

  lemma TransactsExactly(s: State, task: TaskId, expected: Option<string>)
    requires SafeId(task) && task in s.records && task in s.workspaces && s.records[task].status == Verified
    requires ProposalOk(s.records[task]) && AcceptanceOk(s.records[task])
    ensures var r := s.records[task];
      Transacts(s, task, expected) <==>
        && (expected.None? || expected == r.verificationId)
        && s.workspaces[task] == r.proposal.value.entries && NoDrift(s.tree, r.proposal.value.changes)
  {
  }

  lemma SmoothTransact(s: State, task: TaskId, r: Record)
    requires r.verificationId.Some? && r.proposal.Some? && task in s.workspaces
    ensures Transact(s, task, r, SMOOTH).1.Ok? <==>
      ApplyAll(s.tree, s.workspaces[task], r.proposal.value.changes, None).Done?
  {
  }

  lemma UnverifiedDoesNot(s: State, task: TaskId, expected: Option<string>)
    requires SafeId(task) && task in s.records && s.records[task].status == Verified && !Transacts(s, task, expected)
    ensures Promote(s, task, expected, SMOOTH).1.Err?
  {
  }

  /** When an accepted proposal is promoted if nothing goes wrong. */
  lemma PromotesExactly(s: State, task: TaskId, expected: Option<string>, entries: Manifest, changes: seq<Change>)
    requires WellFormed(s.tree) && SafeId(task) && task in s.records && task in s.workspaces
    requires s.records[task].status == Verified && ProposalOk(s.records[task]) && AcceptanceOk(s.records[task])
    requires s.records[task].proposal == Some(Proposal(entries, changes))
    ensures Promote(s, task, expected, SMOOTH).1.Ok? <==>
      && (expected.None? || expected == s.records[task].verificationId)
      && s.workspaces[task] == entries
      && NoDrift(s.tree, changes)
      && AllPlaceable(Overlay(s.tree.files, changes), changes)
      && LinksStay(s.tree.around, s.tree.files, changes)
  {
    var r := s.records[task];
    TransactsExactly(s, task, expected);
    LandedIs(s.tree, r.baseline, entries);
    if Transacts(s, task, expected) {
      PromoteTransacts(s, task, expected, SMOOTH);
      SmoothTransact(s, task, r);
    } else {
      UnverifiedDoesNot(s, task, expected);
    }
  }

  /** A call on a record that is neither accepted nor promoted is refused and changes nothing. */
  lemma UnacceptedIsRefused(s: State, task: TaskId, expected: Option<string>, trouble: Trouble)
    requires SafeId(task) && task in s.records && s.records[task].status !in {Verified, Promoted}
    ensures Promote(s, task, expected, trouble) == (s, Err(WrongStatus))
  {
  }

  /** The record as it was accepted, whatever became of its promotion. */
  ghost predicate Frozen(a: Record, b: Record) {
    && a.runId == b.runId && a.baseline == b.baseline && a.proposal == b.proposal
    && a.proposalSha == b.proposalSha && a.verificationId == b.verificationId
  }

  lemma TransactFreezes(s: State, task: TaskId, r: Record, trouble: Trouble)
    requires r.verificationId.Some? && r.proposal.Some? && task in s.workspaces
    requires task in s.records && s.records[task] == r && r.status == Verified
    ensures var after := Transact(s, task, r, trouble).0;
      && task in after.records && after.records == s.records[task := after.records[task]]
      && Frozen(r, after.records[task]) && after.records[task].status in {Verified, Promoting, Promoted}
      && after.workspaces == s.workspaces && after.aside == s.aside && after.untracked == s.untracked
  {
  }

  /** A promotion leaves every record as it was accepted, and only the named one with another status. */
  lemma PromoteFreezes(s: State, task: TaskId, expected: Option<string>, trouble: Trouble, t: TaskId)
    requires t in s.records
    ensures var after := Promote(s, task, expected, trouble).0;
      && t in after.records && Frozen(s.records[t], after.records[t])
      && (t != task ==> after.records[t] == s.records[t])
      && (after.records[t].status != s.records[t].status ==>
          s.records[t].status == Verified && after.records[t].status in {Promoting, Promoted})
      && after.workspaces == s.workspaces && after.aside == s.aside && after.untracked == s.untracked
  {
    if Transacts(s, task, expected) {
      PromoteTransacts(s, task, expected, trouble);
      TransactFreezes(s, task, s.records[task], trouble);
    } else {
      assert Promote(s, task, expected, trouble).0 == s;
    }
  }

  lemma RolledBackRecord(s: State, task: TaskId, r: Record, trouble: Trouble)
    requires r.verificationId.Some? && r.proposal.Some? && task in s.workspaces
    requires Transact(s, task, r, trouble).1 == Err(PromotionRolledBack)
    ensures var after := Transact(s, task, r, trouble).0;
      && task in after.records && after.records[task].status == Verified && after.records[task].promotion.Some?
      && after.records[task] == r.(status := Verified, promotion := after.records[task].promotion)
      && after.workspaces == s.workspaces
  {
  }

  lemma SameTransact(s: State, after: State, task: TaskId, r: Record, again: Record, trouble: Trouble)
    requires r.verificationId.Some? && r.proposal.Some? && task in s.workspaces
    requires after.tree == s.tree && after.workspaces == s.workspaces
    requires again.verificationId == r.verificationId && again.proposal == r.proposal
    requires again.proposalSha == r.proposalSha
    ensures Transact(after, task, again, trouble).1 == Transact(s, task, r, trouble).1
    ensures Transact(after, task, again, trouble).0.tree == Transact(s, task, r, trouble).0.tree
  {
  }

  /** After a promotion was rolled back exactly, another call does what it would have done at first. */
  lemma RolledBackCanBeRetried(s: State, task: TaskId, expected: Option<string>, failed: Trouble, trouble: Trouble)
    requires Promote(s, task, expected, failed).1 == Err(PromotionRolledBack)
    requires Promote(s, task, expected, failed).0.tree == s.tree
    ensures var after := Promote(s, task, expected, failed).0;
      && Promote(after, task, expected, trouble).1 == Promote(s, task, expected, trouble).1
      && Promote(after, task, expected, trouble).0.tree == Promote(s, task, expected, trouble).0.tree
  {
    PromoteTransacts(s, task, expected, failed);
    PromoteTransacts(s, task, expected, trouble);
    var r := s.records[task];
    var after := Promote(s, task, expected, failed).0;
    RolledBackRecord(s, task, r, failed);
    assert PromotionRefusal(after, task, after.records[task], expected).None?;
    PromoteTransacts(after, task, expected, trouble);
    SameTransact(s, after, task, r, after.records[task], trouble);
  }

  // ----- Runs -----

  /** The statuses a task can go through, and the call that takes it there. */
  ghost predicate MayMove(step: Step, from: Status, to: Status) {
    || (step.PrepareStep? && from !in {Promoted, Abandoned} && to == Prepared)
    || (step.SealStep? && from in {Prepared, RevisionRequired} && to == Proposed)
    || (step.AcceptStep? && from == Proposed && to == Verified)
    || (step.SendBackStep? && from == Proposed && to == RevisionRequired)
    || (step.PromoteStep? && from == Verified && to in {Promoting, Promoted})
    || (step.AbandonStep? && from != Promoted && to == Abandoned)
  }

  /** If the step gives the task another status, it is a call that names the task and may do so. */
  ghost predicate MovesAsAllowed(s: State, step: Step, after: State, t: TaskId) {
    t in s.records && t in after.records && after.records[t].status != s.records[t].status ==>
      && !step.OutsideStep? && step.task == t
      && MayMove(step, s.records[t].status, after.records[t].status)
  }

  lemma PrepareMoves(s: State, runId: string, task: TaskId, token: string, copyFails: bool, t: TaskId)
    requires s.records.Keys == s.workspaces.Keys
    ensures MovesAsAllowed(s, PrepareStep(runId, task, token, copyFails),
      Prepare(s, runId, task, token, copyFails).0, t)
  {
    if t != task {
      PrepareLeavesOther(s, runId, task, token, copyFails, t);
    }
  }

  lemma SealMoves(s: State, task: TaskId, t: TaskId)
    ensures MovesAsAllowed(s, SealStep(task), Seal(s, task).0, t)
  {
    SealsExactly(s, task);
  }

  lemma AcceptMoves(s: State, task: TaskId, id: string, t: TaskId)
    ensures MovesAsAllowed(s, AcceptStep(task, id), MarkVerified(s, task, id).0, t)
  {
    AcceptsExactly(s, task, id);
  }

  lemma SendBackMoves(s: State, task: TaskId, t: TaskId)
    ensures MovesAsAllowed(s, SendBackStep(task), MarkRevisionRequired(s, task).0, t)
  {
    SendsBackExactly(s, task);
  }

  lemma AbandonMoves(s: State, task: TaskId, reason: string, t: TaskId)
    ensures MovesAsAllowed(s, AbandonStep(task, reason), Abandon(s, task, reason).0, t)
  {
    AbandonsExactly(s, task, reason);
  }

  lemma PromoteMoves(s: State, task: TaskId, expected: Option<string>, trouble: Trouble, t: TaskId)
    ensures MovesAsAllowed(s, PromoteStep(task, expected, trouble), Promote(s, task, expected, trouble).0, t)
  {
    if t in s.records {
      PromoteFreezes(s, task, expected, trouble, t);
    }
  }

  /** Only the call meant for it gives a task another status. */
  lemma StatusMoves(s: State, step: Step, t: TaskId)
    requires s.records.Keys == s.workspaces.Keys
    ensures MovesAsAllowed(s, step, Next(s, step), t)
  {
    match step
    case PrepareStep(runId, task, token, copyFails) => PrepareMoves(s, runId, task, token, copyFails, t);
    case SealStep(task) => SealMoves(s, task, t);
    case AcceptStep(task, id) => AcceptMoves(s, task, id, t);
    case SendBackStep(task) => SendBackMoves(s, task, t);
    case PromoteStep(task, expected, trouble) => PromoteMoves(s, task, expected, trouble, t);
    case AbandonStep(task, reason) => AbandonMoves(s, task, reason, t);
    case WorkStep(task, workspace) =>
    case OutsideStep(tree) =>
  }

  /** What a worker left is in its workspace, or set aside. */
  ghost predicate WorkKept(s: State, task: TaskId, work: Manifest) {
    || (task in s.workspaces && s.workspaces[task] == work)
    || (exists i :: 0 <= i < |s.aside| && s.aside[i].task == task && s.aside[i].workspace == work)
  }

  lemma WorkStaysKept(s: State, after: State, task: TaskId, work: Manifest)
    requires WorkKept(s, task, work) && s.aside <= after.aside
    requires task in s.workspaces ==> task in after.workspaces && after.workspaces[task] == s.workspaces[task]
    ensures WorkKept(after, task, work)
  {
    if i :| 0 <= i < |s.aside| && s.aside[i].task == task && s.aside[i].workspace == work {
      assert after.aside[i] == s.aside[i];
    }
  }

  lemma PrepareKeepsWork(s: State, runId: string, task: TaskId, token: string, copyFails: bool, t: TaskId,
    work: Manifest)
    requires s.records.Keys == s.workspaces.Keys && WorkKept(s, t, work)
    ensures WorkKept(Prepare(s, runId, task, token, copyFails).0, t, work)
  {
    var after := Prepare(s, runId, task, token, copyFails).0;
    PrepareLeavesOthers(s, runId, task, token, copyFails);
    if t != task {
      assert TaskStays(s, after, t);
      WorkStaysKept(s, after, t, work);
    } else if WellNamed(runId, task, token) && InHand(s, runId, task) && Outdated(s, task) {
      OutdatedIsSetAside(s, runId, task, token, copyFails);
      if task in s.workspaces && s.workspaces[task] == work {
        assert after.aside[|s.aside|].task == task;
      } else {
        var i :| 0 <= i < |s.aside| && s.aside[i].task == task && s.aside[i].workspace == work;
        assert after.aside[i] == s.aside[i];
      }
    } else {
      if task in s.records {
        StaleMeansOutdated(s, task);
      }
      WorkStaysKept(s, after, task, work);
    }
  }

  lemma PromoteKeepsWork(s: State, task: TaskId, expected: Option<string>, trouble: Trouble, t: TaskId, work: Manifest)
    requires WorkKept(s, t, work)
    ensures WorkKept(Promote(s, task, expected, trouble).0, t, work)
  {
    if task in s.records {
      PromoteFreezes(s, task, expected, trouble, task);
    }
    WorkStaysKept(s, Promote(s, task, expected, trouble).0, t, work);
  }

  lemma SealKeepsWork(s: State, task: TaskId, t: TaskId, work: Manifest)
    requires WorkKept(s, t, work)
    ensures WorkKept(Seal(s, task).0, t, work)
  {
    SealsExactly(s, task);
    WorkStaysKept(s, Seal(s, task).0, t, work);
  }

  lemma StepKeepsWork(s: State, step: Step, task: TaskId, work: Manifest)
    requires s.records.Keys == s.workspaces.Keys && WorkKept(s, task, work)
    requires !(step.WorkStep? && step.task == task)
    ensures WorkKept(Next(s, step), task, work)
  {
    match step
    case PrepareStep(runId, t, token, copyFails) => PrepareKeepsWork(s, runId, t, token, copyFails, task, work);
    case SealStep(t) => SealKeepsWork(s, t, task, work);
    case PromoteStep(t, expected, trouble) => PromoteKeepsWork(s, t, expected, trouble, task, work);
    case _ => WorkStaysKept(s, Next(s, step), task, work);
  }

  lemma AtKeepsWork(tree: Tree, steps: seq<Step>, n: nat, task: TaskId, work: Manifest)
    requires WellFormed(tree) && n < |steps| && WorkKept(At(tree, steps, n), task, work)
    requires !(steps[n].WorkStep? && steps[n].task == task)
    ensures WorkKept(At(tree, steps, n + 1), task, work)
  {
    RunKeeps(tree, steps[..n]);
    AtNext(tree, steps, n);
    StepKeepsWork(At(tree, steps, n), steps[n], task, work);
  }

  lemma {:induction false} WorkStays(tree: Tree, steps: seq<Step>, n: nat, m: nat, task: TaskId, work: Manifest)
    requires WellFormed(tree) && n <= m <= |steps| && WorkKept(At(tree, steps, n), task, work)
    ensures WorkKept(At(tree, steps, m), task, work)
      || exists k :: n <= k < m && steps[k].WorkStep? && steps[k].task == task
  {
    if n < m {
      WorkStays(tree, steps, n, m - 1, task, work);
      if !(exists k :: n <= k < m && steps[k].WorkStep? && steps[k].task == task) {
        assert !(steps[m - 1].WorkStep? && steps[m - 1].task == task);
        AtKeepsWork(tree, steps, m - 1, task, work);
      }
    }
  }

  /**
    In every run, what a worker left in its workspace is still there, or has been set aside
    as it was, unless the worker itself changed it.
   */
  lemma WorkIsNotLost(tree: Tree, steps: seq<Step>, n: nat, m: nat, task: TaskId, work: Manifest)
    requires WellFormed(tree) && n <= m <= |steps|
    requires task in At(tree, steps, n).workspaces && At(tree, steps, n).workspaces[task] == work
    ensures
      || (task in At(tree, steps, m).workspaces && At(tree, steps, m).workspaces[task] == work)
      || (exists i :: 0 <= i < |At(tree, steps, m).aside|
           && At(tree, steps, m).aside[i].task == task && At(tree, steps, m).aside[i].workspace == work)
      || (exists k :: n <= k < m && steps[k].WorkStep? && steps[k].task == task)
  {
    WorkStays(tree, steps, n, m, task, work);
  }

  /** The record is as it was accepted, in place or set aside. */
  ghost predicate AcceptanceKept(s: State, task: TaskId, r: Record) {
    || (task in s.records && Frozen(r, s.records[task])
        && (IsAccepted(s.records[task].status) || s.records[task].status == Abandoned))
    || (exists i :: 0 <= i < |s.aside| && s.aside[i].task == task && Frozen(r, s.aside[i].record))
  }

  lemma AcceptanceStays(s: State, after: State, task: TaskId, r: Record)
    requires AcceptanceKept(s, task, r) && s.aside <= after.aside
    requires task in s.records && (IsAccepted(s.records[task].status) || s.records[task].status == Abandoned) ==>
      && task in after.records && Frozen(s.records[task], after.records[task])
      && (IsAccepted(after.records[task].status) || after.records[task].status == Abandoned)
    ensures AcceptanceKept(after, task, r)
  {
    if i :| 0 <= i < |s.aside| && s.aside[i].task == task && Frozen(r, s.aside[i].record) {
      assert after.aside[i] == s.aside[i];
    }
  }

  lemma PrepareKeepsAcceptance(s: State, runId: string, task: TaskId, token: string, copyFails: bool, t: TaskId,
    r: Record)
    requires s.records.Keys == s.workspaces.Keys && AcceptanceKept(s, t, r)
    ensures AcceptanceKept(Prepare(s, runId, task, token, copyFails).0, t, r)
  {
    var after := Prepare(s, runId, task, token, copyFails).0;
    PrepareLeavesOthers(s, runId, task, token, copyFails);
    if t != task {
      assert TaskStays(s, after, t);
      AcceptanceStays(s, after, t, r);
    } else if WellNamed(runId, task, token) && InHand(s, runId, task) && Outdated(s, task) {
      OutdatedIsSetAside(s, runId, task, token, copyFails);
      if i :| 0 <= i < |s.aside| && s.aside[i].task == task && Frozen(r, s.aside[i].record) {
        assert after.aside[i] == s.aside[i];
      } else {
        assert after.aside[|s.aside|].task == task && Frozen(r, after.aside[|s.aside|].record);
      }
    } else {
      if task in s.records {
        StaleMeansOutdated(s, task);
      }
      AcceptanceStays(s, after, task, r);
    }
  }

  lemma PromoteKeepsAcceptance(s: State, task: TaskId, expected: Option<string>, trouble: Trouble, t: TaskId, r: Record)
    requires AcceptanceKept(s, t, r)
    ensures AcceptanceKept(Promote(s, task, expected, trouble).0, t, r)
  {
    if t in s.records {
      PromoteFreezes(s, task, expected, trouble, t);
    }
    if task in s.records {
      PromoteFreezes(s, task, expected, trouble, task);
    }
    AcceptanceStays(s, Promote(s, task, expected, trouble).0, t, r);
  }

  lemma SealKeepsAcceptance(s: State, task: TaskId, t: TaskId, r: Record)
    requires AcceptanceKept(s, t, r)
    ensures AcceptanceKept(Seal(s, task).0, t, r)
  {
    SealsExactly(s, task);
    AcceptanceStays(s, Seal(s, task).0, t, r);
  }

  lemma AcceptKeepsAcceptance(s: State, task: TaskId, id: string, t: TaskId, r: Record)
    requires AcceptanceKept(s, t, r)
    ensures AcceptanceKept(MarkVerified(s, task, id).0, t, r)
  {
    AcceptsExactly(s, task, id);
    AcceptanceStays(s, MarkVerified(s, task, id).0, t, r);
  }

  lemma SendBackKeepsAcceptance(s: State, task: TaskId, t: TaskId, r: Record)
    requires AcceptanceKept(s, t, r)
    ensures AcceptanceKept(MarkRevisionRequired(s, task).0, t, r)
  {
    SendsBackExactly(s, task);
    AcceptanceStays(s, MarkRevisionRequired(s, task).0, t, r);
  }

  lemma AbandonKeepsAcceptance(s: State, task: TaskId, reason: string, t: TaskId, r: Record)
    requires AcceptanceKept(s, t, r)
    ensures AcceptanceKept(Abandon(s, task, reason).0, t, r)
  {
    AbandonsExactly(s, task, reason);
    AcceptanceStays(s, Abandon(s, task, reason).0, t, r);
  }

  lemma StepKeepsAcceptance(s: State, step: Step, task: TaskId, r: Record)
    requires s.records.Keys == s.workspaces.Keys && AcceptanceKept(s, task, r)
    ensures AcceptanceKept(Next(s, step), task, r)
  {
    match step
    case PrepareStep(runId, t, token, copyFails) => PrepareKeepsAcceptance(s, runId, t, token, copyFails, task, r);
    case SealStep(t) => SealKeepsAcceptance(s, t, task, r);
    case AcceptStep(t, id) => AcceptKeepsAcceptance(s, t, id, task, r);
    case SendBackStep(t) => SendBackKeepsAcceptance(s, t, task, r);
    case PromoteStep(t, expected, trouble) => PromoteKeepsAcceptance(s, t, expected, trouble, task, r);
    case AbandonStep(t, reason) => AbandonKeepsAcceptance(s, t, reason, task, r);
    case WorkStep(t, workspace) =>
    case OutsideStep(tree) =>
  }

  lemma AtKeepsAcceptance(tree: Tree, steps: seq<Step>, n: nat, task: TaskId, r: Record)
    requires WellFormed(tree) && n < |steps| && AcceptanceKept(At(tree, steps, n), task, r)
    ensures AcceptanceKept(At(tree, steps, n + 1), task, r)
  {
    RunKeeps(tree, steps[..n]);
    AtNext(tree, steps, n);
    StepKeepsAcceptance(At(tree, steps, n), steps[n], task, r);
  }

  /**
    In every run, a record once accepted keeps its run, baseline, proposal, digest and
    verification id for good, in its place or set aside; in its place it stays accepted
    until it is abandoned.
   */
  lemma {:induction false} AcceptedIsFrozen(tree: Tree, steps: seq<Step>, n: nat, m: nat, task: TaskId, r: Record)
    requires WellFormed(tree) && n <= m <= |steps| && IsAccepted(r.status)
    requires task in At(tree, steps, n).records && At(tree, steps, n).records[task] == r
    ensures AcceptanceKept(At(tree, steps, m), task, r)
  {
    if n < m {
      AcceptedIsFrozen(tree, steps, n, m - 1, task, r);
      AtKeepsAcceptance(tree, steps, m - 1, task, r);
    }
  }
}
