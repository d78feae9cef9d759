/**
  `isolation_guard.canonical_outside_manifest`: which changes of the project no promotion
  explains, and what the answer means in every run of the gate.
 */
module OutsideGuard {
  import opened Wrappers
  import opened Ordering
  import opened Manifests
  import opened Places
  import opened Trees
  import opened Promotions
  import opened Staging
  import opened StagingStore
  import opened StagingRuns
  import opened Landing

  function ProposedPaths(r: Record): set<Path> {
    if r.proposal.None? then {} else Paths(r.proposal.value.changes)
  }

  /** The promotions that the check lets explain a change: this task's, and later ones of others. */
  predicate Explains(s: State, task: TaskId, other: TaskId)
    requires task in s.records
  {
    other in PromotedIds(s.records) && other != task
      && !(s.records[task].promotedWhenStaged.Some? && other in s.records[task].promotedWhenStaged.value)
  }

  ghost predicate IsReported(s: State, task: TaskId, p: Path)
    requires task in s.records
  {
    && p in Differing(s.records[task].baseline, s.tree.files)
    && p !in ProposedPaths(s.records[task])
    && forall other :: Explains(s, task, other) ==> p !in ProposedPaths(s.records[other])
  }

  /** Every proposal that the check reads is there. */
  ghost predicate HasProposals(s: State, task: TaskId)
    requires task in s.records
  {
    s.records[task].proposal.Some? && forall other :: Explains(s, task, other) ==> s.records[other].proposal.Some?
  }

  /** The loop of the source: `explained |= ...` for every other promoted task; a missing proposal raises. */
  method CanonicalOutsideManifest(store: ArtifactStagingStore, task: TaskId) returns (reply: Result<seq<Path>, Refusal>)
    ensures task !in store.records ==> reply == Err(NoRecord)
    ensures task in store.records && !HasProposals(store.Current(), task) ==> reply == Err(NoProposal)
    ensures task in store.records && HasProposals(store.Current(), task) ==>
      reply.Ok? && StrictlySorted(reply.value)
      && forall p :: p in reply.value <==> IsReported(store.Current(), task, p)
  {
    if task !in store.records {
      return Err(NoRecord);
    }
    ghost var s := store.Current();
    var r := store.records[task];
    if r.proposal.None? {
      return Err(NoProposal);
    }
    var changes := DiffManifests(r.baseline, store.project.files);
    DiffIsInOrder(r.baseline, store.project.files);
    var explained := ProposedPaths(r);
    var promoted := store.PromotedTaskIds();
    var rest := promoted;
    while rest != {}
      invariant rest <= promoted
      invariant forall p :: p in explained <==>
        || p in ProposedPaths(r)
        || exists other :: Explains(s, task, other) && other !in rest && p in ProposedPaths(s.records[other])
      invariant forall other :: Explains(s, task, other) && other !in rest ==> s.records[other].proposal.Some?
      decreases rest
    {
      var other :| other in rest;
      ghost var before := explained;
      rest := rest - {other};
      if other != task && !(r.promotedWhenStaged.Some? && other in r.promotedWhenStaged.value) {
        assert Explains(s, task, other);
        if store.records[other].proposal.None? {
          return Err(NoProposal);
        }
        explained := explained + ProposedPaths(store.records[other]);
      }
    }
    var sorted := SortSet(Paths(changes) - explained);
    return Ok(sorted);
  }

  // ----- What a step carries over -----

  /** `prepare` makes a new copy for the task. */
  predicate Restages(s: State, step: Step, t: TaskId) {
    && step.PrepareStep? && step.task == t
    && Prepare(s, step.runId, t, step.token, step.copyFails).1.Ok?
    && (t !in s.records || IsStale(s.records, s.records[t]))
  }

  /** The record is about the same copy, and a promotion once completed is never rewritten. */
  ghost predicate Carried(before: Record, after: Record) {
    && after.baseline == before.baseline && after.promotedWhenStaged == before.promotedWhenStaged
    && (before.status == Promoted ==> after.status == Promoted && after.proposal == before.proposal)
  }

  ghost predicate CarriesAll(s: State, after: State, except: Option<TaskId>) {
    forall t :: t in after.records && Some(t) != except ==> t in s.records && Carried(s.records[t], after.records[t])
  }

  lemma StageCopyCarries(s: State, runId: string, task: TaskId, token: string, copyFails: bool)
    requires task !in s.records
    ensures var (after, reply) := StageCopy(s, runId, task, token, copyFails);
      CarriesAll(s, after, if reply.Ok? then Some(task) else None)
  {
  }

  lemma PrepareCarries(s: State, runId: string, task: TaskId, token: string, copyFails: bool)
    requires s.records.Keys == s.workspaces.Keys
    ensures CarriesAll(s, Prepare(s, runId, task, token, copyFails).0,
      if Restages(s, PrepareStep(runId, task, token, copyFails), task) then Some(task) else None)
  {
    if SafeId(task) && runId != "" && token != "" {
      if task !in s.records {
        StageCopyCarries(s, runId, task, token, copyFails);
      } else if s.records[task].runId == runId && IsStale(s.records, s.records[task])
        && s.records[task].status != Promoted && s.records[task].status != Abandoned
      {
        StageCopyCarries(MoveAside(s, task), runId, task, token, copyFails);
      }
    }
  }

  lemma SealCarries(s: State, task: TaskId)
    ensures CarriesAll(s, Seal(s, task).0, None)
  {
    SealStores(s, task);
  }

  lemma TransactCarries(s: State, task: TaskId, r: Record, trouble: Trouble)
    requires r.verificationId.Some? && r.proposal.Some? && task in s.workspaces
    requires task in s.records && s.records[task] == r && r.status == Verified
    ensures CarriesAll(s, Transact(s, task, r, trouble).0, None)
  {
  }

  lemma PromoteCarries(s: State, task: TaskId, expected: Option<string>, trouble: Trouble)
    ensures CarriesAll(s, Promote(s, task, expected, trouble).0, None)
  {
    if Transacts(s, task, expected) {
      PromoteTransacts(s, task, expected, trouble);
      TransactCarries(s, task, s.records[task], trouble);
    }
  }

  lemma AcceptCarries(s: State, task: TaskId, id: string)
    ensures CarriesAll(s, MarkVerified(s, task, id).0, None)
  {
  }

  lemma SendBackCarries(s: State, task: TaskId)
    ensures CarriesAll(s, MarkRevisionRequired(s, task).0, None)
  {
  }

  lemma AbandonCarries(s: State, task: TaskId, reason: string)
    ensures CarriesAll(s, Abandon(s, task, reason).0, None)
  {
  }

  lemma StepCarries(s: State, step: Step)
    requires s.records.Keys == s.workspaces.Keys
    ensures CarriesAll(s, Next(s, step), if step.PrepareStep? && Restages(s, step, step.task) then Some(step.task)
      else None)
  {
    match step
    case PrepareStep(runId, task, token, copyFails) => PrepareCarries(s, runId, task, token, copyFails);
    case SealStep(task) => SealCarries(s, task);
    case AcceptStep(task, id) => AcceptCarries(s, task, id);
    case SendBackStep(task) => SendBackCarries(s, task);
    case PromoteStep(task, expected, trouble) => PromoteCarries(s, task, expected, trouble);
    case AbandonStep(task, reason) => AbandonCarries(s, task, reason);
    case WorkStep(task, workspace) =>
    case OutsideStep(tree) =>
  }

  // ----- Who changed what -----

  /** The paths a step changes without completing a promotion. */
  ghost function Foreign(s: State, step: Step): set<Path> {
    var after := Next(s, step);
    if step.PromoteStep? && step.task in after.records && after.records[step.task].status == Promoted then {}
    else Differing(s.tree.files, after.tree.files)
  }

  ghost function ForeignSince(tree: Tree, steps: seq<Step>, i: nat, n: nat): set<Path>
    requires i <= n <= |steps|
  {
    if i == n then {} else ForeignSince(tree, steps, i, n - 1) + Foreign(At(tree, steps, n - 1), steps[n - 1])
  }

  /** The copy the task has at `n` was made at step `i`. */
  ghost predicate StagedAt(tree: Tree, steps: seq<Step>, i: nat, n: nat, t: TaskId)
    requires i < n <= |steps|
  {
    && t in At(tree, steps, n).records
    && Restages(At(tree, steps, i), steps[i], t)
    && forall k :: i < k < n ==> !Restages(At(tree, steps, k), steps[k], t)
  }

  /** A completed promotion that the copy of `t` has not seen changed `p`. */
  ghost predicate PromotedOver(s: State, t: TaskId, p: Path)
    requires t in s.records && s.records[t].promotedWhenStaged.Some?
  {
    exists u :: u in s.records && s.records[u].status == Promoted
      && (u == t || u !in s.records[t].promotedWhenStaged.value) && p in ProposedPaths(s.records[u])
  }

  ghost predicate Accounted(s: State, t: TaskId, foreign: set<Path>)
    requires t in s.records && s.records[t].promotedWhenStaged.Some?
  {
    forall p :: p in Differing(s.records[t].baseline, s.tree.files) ==> p in foreign || PromotedOver(s, t, p)
  }

  lemma PromotedOverStays(s: State, after: State, t: TaskId, p: Path, except: Option<TaskId>)
    requires t in s.records && s.records[t].promotedWhenStaged.Some? && t in after.records
    requires CarriesAll(s, after, except) && KeepsPromoted(s.records, after.records) && except != Some(t)
    requires except.Some? && except.value in s.records ==> s.records[except.value].status != Promoted
    requires PromotedOver(s, t, p)
    ensures after.records[t].promotedWhenStaged == s.records[t].promotedWhenStaged && PromotedOver(after, t, p)
  {
    assert Carried(s.records[t], after.records[t]);
    var u :| u in s.records && s.records[u].status == Promoted
      && (u == t || u !in s.records[t].promotedWhenStaged.value) && p in ProposedPaths(s.records[u]);
    assert Carried(s.records[u], after.records[u]);
  }

  lemma CompletedReplies(s: State, task: TaskId, r: Record, trouble: Trouble)
    requires r.verificationId.Some? && r.proposal.Some? && task in s.workspaces && task in s.records
    requires s.records[task] == r && r.status == Verified
    requires Transact(s, task, r, trouble).0.records[task].status == Promoted
    ensures Transact(s, task, r, trouble).1.Ok?
    ensures Transact(s, task, r, trouble).0.records[task].proposal == r.proposal
  {
  }

  /** A step that completes a promotion changes only paths of that proposal. */
  lemma CompletedChanges(s: State, task: TaskId, expected: Option<string>, trouble: Trouble, p: Path)
    requires WellFormed(s.tree) && (task in s.records ==> ProposalOk(s.records[task]))
    requires var after := Promote(s, task, expected, trouble).0;
      && task in after.records && after.records[task].status == Promoted
      && Lookup(after.tree.files, p) != Lookup(s.tree.files, p)
    ensures task in s.records && s.records[task].status == Verified
    ensures p in ProposedPaths(Promote(s, task, expected, trouble).0.records[task])
  {
    assert Transacts(s, task, expected);
    var r := s.records[task];
    CompletedReplies(s, task, r, trouble);
    PromotionLands(s, task, expected, trouble);
    DiffIsInOrder(r.baseline, r.proposal.value.entries);
    assert Lookup(Promote(s, task, expected, trouble).0.tree.files, p) ==
      SealedAt(s.tree.files, r.baseline, r.proposal.value.entries, p);
  }

  lemma NewlyPromotedOver(s: State, after: State, t: TaskId, u: TaskId, p: Path)
    requires t in s.records && t in after.records && Carried(s.records[t], after.records[t])
    requires s.records[t].promotedWhenStaged.Some? && s.records[t].promotedWhenStaged.value <= PromotedIds(s.records)
    requires u in s.records && s.records[u].status != Promoted
    requires u in after.records && after.records[u].status == Promoted && p in ProposedPaths(after.records[u])
    ensures PromotedOver(after, t, p)
  {
  }

  lemma AccountedAfter(s: State, after: State, t: TaskId, foreign: set<Path>, more: set<Path>, except: Option<TaskId>)
    requires t in s.records && s.records[t].promotedWhenStaged.Some? && Accounted(s, t, foreign)
    requires t in after.records && CarriesAll(s, after, except) && except != Some(t)
    requires except.Some? && except.value in s.records ==> s.records[except.value].status != Promoted
    requires KeepsPromoted(s.records, after.records)
    requires after.records[t].promotedWhenStaged.Some?
    requires forall p :: Lookup(after.tree.files, p) != Lookup(s.tree.files, p) ==>
      p in more || PromotedOver(after, t, p)
    ensures Accounted(after, t, foreign + more)
  {
    assert Carried(s.records[t], after.records[t]);
    forall p | p in Differing(after.records[t].baseline, after.tree.files)
      ensures p in foreign + more || PromotedOver(after, t, p)
    {
      if Lookup(after.tree.files, p) == Lookup(s.tree.files, p) {
        assert p in Differing(s.records[t].baseline, s.tree.files);
        if p !in foreign {
          PromotedOverStays(s, after, t, p, except);
        }
      }
    }
  }

  lemma RestagedWasNotPromoted(s: State, step: Step)
    requires step.PrepareStep? && Restages(s, step, step.task) && s.records.Keys == s.workspaces.Keys
    ensures step.task in s.records ==> s.records[step.task].status != Promoted
  {
  }

  lemma PromotionAccounts(s: State, step: Step, t: TaskId, p: Path)
    requires Invariant(s) && t in s.records && t in Next(s, step).records
    requires Carried(s.records[t], Next(s, step).records[t])
    requires Lookup(Next(s, step).tree.files, p) != Lookup(s.tree.files, p) && p !in Foreign(s, step)
    ensures s.records[t].promotedWhenStaged.Some? && PromotedOver(Next(s, step), t, p)
  {
    assert p in Differing(s.tree.files, Next(s, step).tree.files);
    assert step.PromoteStep?;
    assert RecordOk(s.records, s.records[t]);
    assert step.task in s.records ==> RecordOk(s.records, s.records[step.task]);
    CompletedChanges(s, step.task, step.expected, step.trouble, p);
    NewlyPromotedOver(s, Next(s, step), t, step.task, p);
  }

  lemma AccountedStep(s: State, step: Step, t: TaskId, foreign: set<Path>)
    requires Invariant(s) && t in s.records && t in Next(s, step).records && !Restages(s, step, t)
    requires s.records[t].promotedWhenStaged.Some? && Accounted(s, t, foreign)
    ensures Next(s, step).records[t].promotedWhenStaged.Some?
    ensures Accounted(Next(s, step), t, foreign + Foreign(s, step))
  {
    var except := if step.PrepareStep? && Restages(s, step, step.task) then Some(step.task) else None;
    StepCarries(s, step);
    NextKeeps(s, step);
    if except.Some? {
      RestagedWasNotPromoted(s, step);
    }
    assert Carried(s.records[t], Next(s, step).records[t]);
    forall p | Lookup(Next(s, step).tree.files, p) != Lookup(s.tree.files, p)
      ensures p in Foreign(s, step) || PromotedOver(Next(s, step), t, p)
    {
      if p !in Foreign(s, step) {
        PromotionAccounts(s, step, t, p);
      }
    }
    AccountedAfter(s, Next(s, step), t, foreign, Foreign(s, step), except);
  }

  // ----- No false alarm -----

  lemma FreshCopyIsAccounted(s: State, step: Step, t: TaskId)
    requires s.records.Keys == s.workspaces.Keys && Restages(s, step, t)
    ensures var after := Next(s, step);
      && t in after.records && after.records[t].promotedWhenStaged.Some?
      && after.records[t].baseline == after.tree.files
  {
  }

  /** A task whose record is gone stays gone until it is staged again. */
  lemma RecordWasThere(s: State, step: Step, t: TaskId)
    requires s.records.Keys == s.workspaces.Keys && t in Next(s, step).records && !Restages(s, step, t)
    ensures t in s.records
  {
    StepCarries(s, step);
  }

  lemma StagedIsAccounted(tree: Tree, steps: seq<Step>, i: nat, t: TaskId)
    requires WellFormed(tree) && i < |steps| && StagedAt(tree, steps, i, i + 1, t)
    ensures At(tree, steps, i + 1).records[t].promotedWhenStaged.Some?
    ensures Accounted(At(tree, steps, i + 1), t, {})
  {
    RunKeeps(tree, steps[..i]);
    AtNext(tree, steps, i);
    FreshCopyIsAccounted(At(tree, steps, i), steps[i], t);
  }

  /** Step `n` leaves the task the copy it has. */
  ghost predicate KeepsCopy(tree: Tree, steps: seq<Step>, n: nat, t: TaskId)
    requires n < |steps|
  {
    t in At(tree, steps, n + 1).records && !Restages(At(tree, steps, n), steps[n], t)
  }

  lemma RecordWasThereBefore(tree: Tree, steps: seq<Step>, n: nat, t: TaskId)
    requires WellFormed(tree) && n < |steps| && KeepsCopy(tree, steps, n, t)
    ensures t in At(tree, steps, n).records
  {
    RunKeeps(tree, steps[..n]);
    AtNext(tree, steps, n);
    RecordWasThere(At(tree, steps, n), steps[n], t);
  }

  lemma CopyKept(tree: Tree, steps: seq<Step>, i: nat, n: nat, t: TaskId)
    requires i < n < |steps| && StagedAt(tree, steps, i, n + 1, t)
    ensures KeepsCopy(tree, steps, n, t)
  {
  }

  lemma StagedBefore(tree: Tree, steps: seq<Step>, i: nat, n: nat, t: TaskId)
    requires WellFormed(tree) && i < n < |steps| && StagedAt(tree, steps, i, n + 1, t)
    ensures StagedAt(tree, steps, i, n, t)
  {
    CopyKept(tree, steps, i, n, t);
    RecordWasThereBefore(tree, steps, n, t);
  }

  ghost predicate IsAccounted(tree: Tree, steps: seq<Step>, i: nat, n: nat, t: TaskId)
    requires i <= n <= |steps|
  {
    && t in At(tree, steps, n).records && At(tree, steps, n).records[t].promotedWhenStaged.Some?
    && Accounted(At(tree, steps, n), t, ForeignSince(tree, steps, i, n))
  }

  lemma AccountedOneMore(tree: Tree, steps: seq<Step>, i: nat, n: nat, t: TaskId)
    requires WellFormed(tree) && i < n < |steps| && IsAccounted(tree, steps, i, n, t) && KeepsCopy(tree, steps, n, t)
    ensures IsAccounted(tree, steps, i, n + 1, t)
  {
    RunKeeps(tree, steps[..n]);
    AtNext(tree, steps, n);
    AccountedStep(At(tree, steps, n), steps[n], t, ForeignSince(tree, steps, i, n));
  }

  lemma AccountedAtFirst(tree: Tree, steps: seq<Step>, i: nat, t: TaskId)
    requires WellFormed(tree) && i < |steps| && StagedAt(tree, steps, i, i + 1, t)
    ensures IsAccounted(tree, steps, i, i + 1, t)
  {
    StagedIsAccounted(tree, steps, i, t);
  }

  lemma {:induction false} StaysAccounted(tree: Tree, steps: seq<Step>, i: nat, n: nat, t: TaskId)
    requires WellFormed(tree) && i < n <= |steps| && StagedAt(tree, steps, i, n, t)
    ensures IsAccounted(tree, steps, i, n, t)
    decreases n, 0
  {
    if n == i + 1 {
      AccountedAtFirst(tree, steps, i, t);
    } else {
      AccountedLater(tree, steps, i, n - 1, t);
    }
  }

  lemma {:induction false} AccountedLater(tree: Tree, steps: seq<Step>, i: nat, n: nat, t: TaskId)
    requires WellFormed(tree) && i < n < |steps| && StagedAt(tree, steps, i, n + 1, t)
    ensures IsAccounted(tree, steps, i, n + 1, t)
    decreases n, 1
  {
    StagedBefore(tree, steps, i, n, t);
    CopyKept(tree, steps, i, n, t);
    StaysAccounted(tree, steps, i, n, t);
    AccountedOneMore(tree, steps, i, n, t);
  }

  /** A completed promotion of a task id with a dot, which the check does not see. */
  ghost predicate HiddenPromotion(s: State, t: TaskId, p: Path) {
    exists u :: u in s.records && u != t && '.' in u && s.records[u].status == Promoted
      && p in ProposedPaths(s.records[u])
  }

  /**
    In every run, a reported path was changed, since the task was staged, by someone
    outside or by a promotion that did not complete; or a dotted task's promotion did it.
   */
  lemma NoFalseAlarm(tree: Tree, steps: seq<Step>, i: nat, n: nat, t: TaskId, p: Path)
    requires WellFormed(tree) && i < n <= |steps| && StagedAt(tree, steps, i, n, t)
    requires IsReported(At(tree, steps, n), t, p)
    ensures p in ForeignSince(tree, steps, i, n) || HiddenPromotion(At(tree, steps, n), t, p)
  {
    var s := At(tree, steps, n);
    StaysAccounted(tree, steps, i, n, t);
    if p !in ForeignSince(tree, steps, i, n) {
      var u :| u in s.records && s.records[u].status == Promoted
        && (u == t || u !in s.records[t].promotedWhenStaged.value) && p in ProposedPaths(s.records[u]);
      assert u != t && !Explains(s, t, u);
    }
  }

  /** No miss: an unexplained change that is still there is reported, and so is nothing that is explained. */
  lemma ReportedExactly(tree: Tree, steps: seq<Step>, i: nat, n: nat, t: TaskId, p: Path)
    requires WellFormed(tree) && i < n <= |steps| && StagedAt(tree, steps, i, n, t)
    requires forall u :: u in At(tree, steps, n).records ==> '.' !in u
    requires At(tree, steps, n).records[t].status == Promoted
    ensures At(tree, steps, n).records[t].promotedWhenStaged.Some?
    ensures IsReported(At(tree, steps, n), t, p) <==>
      && p in ForeignSince(tree, steps, i, n)
      && Lookup(At(tree, steps, n).tree.files, p) != Lookup(At(tree, steps, n).records[t].baseline, p)
      && !PromotedOver(At(tree, steps, n), t, p)
  {
    var s := At(tree, steps, n);
    StaysAccounted(tree, steps, i, n, t);
    if IsReported(s, t, p) {
      NoFalseAlarm(tree, steps, i, n, t, p);
      forall u | u in s.records && s.records[u].status == Promoted && u != t
        && u !in s.records[t].promotedWhenStaged.value
        ensures Explains(s, t, u)
      {
      }
    }
  }

  /** In every run the check answers for a promoted task: nothing it reads is missing. */
  lemma PromotedIsAnswered(tree: Tree, steps: seq<Step>, n: nat, t: TaskId)
    requires WellFormed(tree) && n <= |steps| && t in At(tree, steps, n).records
    requires At(tree, steps, n).records[t].status == Promoted
    ensures HasProposals(At(tree, steps, n), t)
  {
    var s := At(tree, steps, n);
    RunKeeps(tree, steps[..n]);
    forall u | u in s.records && s.records[u].status == Promoted ensures s.records[u].proposal.Some? {
      assert RecordOk(s.records, s.records[u]);
    }
  }
}
