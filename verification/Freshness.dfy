/** A workspace that `prepare` hands out, new or reused, reflects the project. */
module Freshness {
  import opened Wrappers
  import opened Manifests
  import opened Places
  import opened Trees
  import opened Promotions
  import opened Staging
  import opened StagingRuns
  import opened Landing

  /** Nobody else changes files of the project, and no promotion is left half done. */
  ghost predicate Undisturbed(s: State, step: Step) {
    match step
    case OutsideStep(tree) => tree.files == s.tree.files
    case PromoteStep(task, expected, trouble) =>
      var after := Promote(s, task, expected, trouble).0;
      after.tree == s.tree || (task in after.records && after.records[task].status == Promoted)
    case _ => true
  }

  /** A live copy that has seen every promotion is a copy of what the project is now. */
  ghost predicate IsFresh(s: State, r: Record) {
    r.status != Promoted && r.status != Abandoned
      && r.promotedWhenStaged.Some? && PromotedIds(s.records) <= r.promotedWhenStaged.value
    ==> r.baseline == s.tree.files
  }

  ghost predicate Fresh(s: State) {
    forall t :: t in s.records ==> IsFresh(s, s.records[t])
  }

  function TaskOf(step: Step): Option<TaskId> {
    if step.OutsideStep? then None else Some(step.task)
  }

  /** The copy of a record is the one it was; it may only have been finished with. */
  ghost predicate SameCopy(a: Record, b: Record) {
    && a.baseline == b.baseline && a.promotedWhenStaged == b.promotedWhenStaged
    && (b.status == Promoted || b.status == Abandoned || (a.status != Promoted && a.status != Abandoned))
  }

  ghost predicate OldOrFresh(s: State, after: State, t: TaskId) {
    t in after.records ==>
      (t in s.records && SameCopy(s.records[t], after.records[t])) || IsFresh(after, after.records[t])
  }

  lemma CopiesStayFresh(s: State, after: State)
    requires Fresh(s) && after.tree.files == s.tree.files
    requires PromotedIds(s.records) <= PromotedIds(after.records)
    requires forall t :: OldOrFresh(s, after, t)
    ensures Fresh(after)
  {
    forall t | t in after.records ensures IsFresh(after, after.records[t]) {
      assert OldOrFresh(s, after, t);
      if t in s.records {
        assert IsFresh(s, s.records[t]);
      }
    }
  }

  lemma MoveAsideStaysFresh(s: State, task: TaskId)
    requires Fresh(s) && task in s.records && task in s.workspaces && s.records[task].status != Promoted
    ensures Fresh(MoveAside(s, task)) && task !in MoveAside(s, task).records
  {
    CopiesStayFresh(s, MoveAside(s, task));
  }

  lemma StageCopyStaysFresh(s: State, runId: string, task: TaskId, token: string, copyFails: bool)
    requires Fresh(s) && task !in s.records
    ensures Fresh(StageCopy(s, runId, task, token, copyFails).0)
    ensures var (after, reply) := StageCopy(s, runId, task, token, copyFails);
      reply.Ok? ==> reply.value.baseline == after.tree.files
  {
    CopiesStayFresh(s, StageCopy(s, runId, task, token, copyFails).0);
  }

  /** Reuse is allowed only for a copy that has seen every promotion. */
  lemma ReuseIsFresh(s: State, task: TaskId, token: string)
    requires Fresh(s) && task in s.records && s.records[task].promotedWhenStaged.Some?
    requires s.records[task].status != Promoted && s.records[task].status != Abandoned
    requires !IsStale(s.records, s.records[task])
    ensures s.records[task].baseline == s.tree.files
    ensures Fresh(s.(records := s.records[task := Reserved(s.records[task], token)]))
  {
    var saw := s.records[task].promotedWhenStaged.value;
    assert forall u :: u in PromotedIds(s.records) && u !in saw ==> u in PromotedIds(s.records) - saw;
    assert IsFresh(s, s.records[task]);
    CopiesStayFresh(s, s.(records := s.records[task := Reserved(s.records[task], token)]));
  }

  lemma PrepareStaysFresh(s: State, runId: string, task: TaskId, token: string, copyFails: bool)
    requires Fresh(s) && s.records.Keys == s.workspaces.Keys
    requires task in s.records ==> s.records[task].promotedWhenStaged.Some?
    ensures Fresh(Prepare(s, runId, task, token, copyFails).0)
    ensures var (after, reply) := Prepare(s, runId, task, token, copyFails);
      reply.Ok? ==> reply.value.baseline == after.tree.files
  {
    if task !in s.records {
      StageCopyStaysFresh(s, runId, task, token, copyFails);
    } else {
      var r := s.records[task];
      if r.status != Promoted && r.status != Abandoned {
        if IsStale(s.records, r) {
          MoveAsideStaysFresh(s, task);
          StageCopyStaysFresh(MoveAside(s, task), runId, task, token, copyFails);
        } else {
          ReuseIsFresh(s, task, token);
        }
      }
    }
  }

  ghost predicate SawOnlyPromoted(s: State) {
    forall t :: t in s.records ==>
      s.records[t].promotedWhenStaged.Some? && s.records[t].promotedWhenStaged.value <= PromotedIds(s.records)
  }

  /** A promotion makes every other copy out of date, since none of them can have seen it. */
  lemma NewPromotionStaysFresh(s: State, after: State, task: TaskId)
    requires SawOnlyPromoted(s)
    requires task in s.records && s.records[task].status != Promoted && '.' !in task
    requires task in after.records && after.records[task].status == Promoted
    requires forall t :: t in after.records && t != task ==>
      t in s.records && after.records[t].promotedWhenStaged == s.records[t].promotedWhenStaged
    ensures Fresh(after)
  {
    assert task in PromotedIds(after.records) && task !in PromotedIds(s.records);
    forall t | t in after.records ensures IsFresh(after, after.records[t]) {
      if t != task {
        assert task !in s.records[t].promotedWhenStaged.value;
      }
    }
  }

  ghost predicate SameCopies(before: map<TaskId, Record>, after: map<TaskId, Record>) {
    forall t :: t in after ==> t in before && SameCopy(before[t], after[t])
  }

  lemma TransactCopies(s: State, task: TaskId, r: Record, trouble: Trouble)
    requires r.verificationId.Some? && r.proposal.Some? && task in s.workspaces
    requires task in s.records && s.records[task] == r && r.status == Verified
    ensures task in Transact(s, task, r, trouble).0.records
    ensures SameCopies(s.records, Transact(s, task, r, trouble).0.records)
    ensures PromotedIds(s.records) <= PromotedIds(Transact(s, task, r, trouble).0.records)
  {
  }

  lemma PromoteCopies(s: State, task: TaskId, expected: Option<string>, trouble: Trouble)
    requires Transacts(s, task, expected)
    ensures task in Promote(s, task, expected, trouble).0.records
    ensures SameCopies(s.records, Promote(s, task, expected, trouble).0.records)
    ensures PromotedIds(s.records) <= PromotedIds(Promote(s, task, expected, trouble).0.records)
  {
    PromoteTransacts(s, task, expected, trouble);
    TransactCopies(s, task, s.records[task], trouble);
  }

  lemma PromoteStaysFresh(s: State, task: TaskId, expected: Option<string>, trouble: Trouble)
    requires Fresh(s) && SawOnlyPromoted(s) && '.' !in task
    requires Undisturbed(s, PromoteStep(task, expected, trouble))
    ensures Fresh(Promote(s, task, expected, trouble).0)
  {
    if Transacts(s, task, expected) {
      var after := Promote(s, task, expected, trouble).0;
      PromoteCopies(s, task, expected, trouble);
      if after.records[task].status == Promoted {
        NewPromotionStaysFresh(s, after, task);
      } else {
        CopiesStayFresh(s, after);
      }
    }
  }

  /** A step that leaves the project alone and stores a new version of one record. */
  lemma UpdateStaysFresh(s: State, task: TaskId, r: Record)
    requires Fresh(s) && task in s.records && s.records[task].status != Promoted && SameCopy(s.records[task], r)
    ensures Fresh(s.(records := s.records[task := r]))
  {
    CopiesStayFresh(s, s.(records := s.records[task := r]));
  }

  lemma SealStaysFresh(s: State, task: TaskId)
    requires Fresh(s)
    ensures Fresh(Seal(s, task).0)
  {
    SealStores(s, task);
    if Seal(s, task).1.Ok? {
      UpdateStaysFresh(s, task, Sealed(s.records[task], s.workspaces[task]));
    }
  }

  lemma RecordStepStaysFresh(s: State, step: Step)
    requires Fresh(s) && (step.AcceptStep? || step.SendBackStep? || step.AbandonStep?)
    ensures Fresh(Next(s, step))
  {
    var after := Next(s, step);
    if step.task in s.records && step.task in after.records && s.records[step.task].status != Promoted {
      UpdateStaysFresh(s, step.task, after.records[step.task]);
    }
  }

  lemma StepStaysFresh(s: State, step: Step)
    requires Fresh(s) && SawOnlyPromoted(s) && s.records.Keys == s.workspaces.Keys
    requires Undisturbed(s, step) && (step.PromoteStep? ==> '.' !in step.task)
    ensures Fresh(Next(s, step))
  {
    match step
    case PrepareStep(runId, task, token, copyFails) => PrepareStaysFresh(s, runId, task, token, copyFails);
    case PromoteStep(task, expected, trouble) => PromoteStaysFresh(s, task, expected, trouble);
    case WorkStep(task, workspace) => CopiesStayFresh(s, Next(s, step));
    case OutsideStep(tree) => CopiesStayFresh(s, Next(s, step));
    case SealStep(task) => SealStaysFresh(s, task);
    case _ => RecordStepStaysFresh(s, step);
  }

  // ----- Runs -----

  /** The run names only tasks of `ids`, and nothing disturbs the project. */
  ghost predicate QuietRun(tree: Tree, steps: seq<Step>, ids: set<TaskId>) {
    && WellFormed(tree)
    && (forall n :: 0 <= n < |steps| ==> Undisturbed(At(tree, steps, n), steps[n]))
    && (forall n :: 0 <= n < |steps| && TaskOf(steps[n]).Some? ==> TaskOf(steps[n]).value in ids)
  }

  /** If step `n` is a call of `prepare` that returns a workspace, its baseline is the project. */
  ghost predicate HandsOutFresh(tree: Tree, steps: seq<Step>, n: nat)
    requires n < |steps|
  {
    match steps[n]
    case PrepareStep(runId, task, token, copyFails) =>
      var (after, reply) := Prepare(At(tree, steps, n), runId, task, token, copyFails);
      reply.Ok? ==> reply.value.baseline == after.tree.files
    case _ => true
  }

  lemma InvariantSees(s: State)
    requires Invariant(s)
    ensures SawOnlyPromoted(s)
  {
    forall t | t in s.records ensures RecordOk(s.records, s.records[t]) {
    }
  }

  lemma QuietStep(tree: Tree, steps: seq<Step>, ids: set<TaskId>, n: nat)
    requires QuietRun(tree, steps, ids) && n < |steps| && forall t :: t in ids ==> '.' !in t
    ensures WellFormed(tree) && Undisturbed(At(tree, steps, n), steps[n])
    ensures steps[n].PromoteStep? ==> '.' !in steps[n].task
  {
    assert TaskOf(steps[n]).Some? ==> TaskOf(steps[n]).value in ids;
  }

  lemma InvariantStepStaysFresh(s: State, step: Step)
    requires Invariant(s) && Fresh(s) && Undisturbed(s, step) && (step.PromoteStep? ==> '.' !in step.task)
    ensures Fresh(Next(s, step))
  {
    InvariantSees(s);
    StepStaysFresh(s, step);
  }

  lemma StepAtStaysFresh(tree: Tree, steps: seq<Step>, ids: set<TaskId>, n: nat)
    requires QuietRun(tree, steps, ids) && n < |steps| && forall t :: t in ids ==> '.' !in t
    requires Fresh(At(tree, steps, n))
    ensures Fresh(At(tree, steps, n + 1))
  {
    RunKeeps(tree, steps[..n]);
    AtNext(tree, steps, n);
    QuietStep(tree, steps, ids, n);
    InvariantStepStaysFresh(At(tree, steps, n), steps[n]);
  }

  lemma {:induction false} RunStaysFresh(tree: Tree, steps: seq<Step>, ids: set<TaskId>, n: nat)
    requires QuietRun(tree, steps, ids) && n <= |steps| && forall t :: t in ids ==> '.' !in t
    ensures Fresh(At(tree, steps, n))
  {
    if n > 0 {
      RunStaysFresh(tree, steps, ids, n - 1);
      StepAtStaysFresh(tree, steps, ids, n - 1);
    }
  }

  /** In a quiet run over dotless ids every workspace that `prepare` returns is a copy of the project as it is. */
  lemma PlainRunsAreFresh(tree: Tree, steps: seq<Step>, ids: set<TaskId>, n: nat)
    requires QuietRun(tree, steps, ids) && n < |steps| && forall t :: t in ids ==> '.' !in t
    ensures HandsOutFresh(tree, steps, n)
  {
    RunStaysFresh(tree, steps, ids, n);
    RunKeeps(tree, steps[..n]);
    InvariantSees(At(tree, steps, n));
    if steps[n].PrepareStep? {
      PrepareStaysFresh(At(tree, steps, n), steps[n].runId, steps[n].task, steps[n].token, steps[n].copyFails);
    }
  }

  // ----- A task id with a dot -----

  /** In every quiet run over these tasks, `prepare` hands out only fresh workspaces. */
  ghost predicate AlwaysFresh(ids: set<TaskId>) {
    forall tree, steps, n :: QuietRun(tree, steps, ids) && 0 <= n < |steps| ==> HandsOutFresh(tree, steps, n)
  }

  const EMPTY := Tree(map[], {}, Around(["project"], map[], {}))
  const WORK: Manifest := map["f" := File("1", 420)]

  /** `other` is staged, `dotted` is staged, worked on, sealed, accepted and promoted; `other` is prepared again. */
  function DottedRun(dotted: TaskId, other: TaskId): seq<Step> {
    [PrepareStep("r", other, "t", false), PrepareStep("r", dotted, "t", false), WorkStep(dotted, WORK),
     SealStep(dotted), AcceptStep(dotted, "v"), PromoteStep(dotted, None, SMOOTH), PrepareStep("r", other, "t", false)]
  }

  function Copied(): Record {
    Record("r", Prepared, Some({}), ["t"], map[], None, None, None, None)
  }

  lemma WorkIsPromotable(s: State, task: TaskId, r: Record)
    requires s.tree == EMPTY && task in s.workspaces && s.workspaces[task] == WORK
    requires r.verificationId.Some? && r.proposal == Some(Proposal(WORK, Diff(map[], WORK)))
    ensures NoDrift(EMPTY, Diff(map[], WORK))
    ensures Transact(s, task, r, SMOOTH).1.Ok? && Transact(s, task, r, SMOOTH).0.tree.files == WORK
  {
    assert PrefixFree(WORK) && WellFormed(EMPTY);
    UndriftedWithoutLinks(EMPTY, WORK);
    DiffDescribes(map[], WORK);
    forall c | c in Diff(map[], WORK) && c.staged.Some? ensures c.staged.value.File? {
      assert Describes(c, map[], WORK);
    }
    FilesStay(EMPTY.around, map[], Diff(map[], WORK));
    UndriftedPromotionCompletes(EMPTY, WORK);
  }

  /** The records and workspaces of the two tasks; `other` is never more than prepared. */
  ghost predicate TwoTasks(s: State, tree: Tree, other: TaskId, dotted: TaskId, r: Record, workspace: Manifest) {
    && s.tree == tree && s.records.Keys == s.workspaces.Keys == {other, dotted}
    && s.records[other] == Copied() && s.records[dotted] == r && s.workspaces[dotted] == workspace
  }

  lemma StageBoth(dotted: TaskId, other: TaskId)
    requires SafeId(dotted) && SafeId(other) && dotted != other
    ensures TwoTasks(At(EMPTY, DottedRun(dotted, other), 2), EMPTY, other, dotted, Copied(), map[])
  {
    var steps := DottedRun(dotted, other);
    AtNext(EMPTY, steps, 0);
    AtNext(EMPTY, steps, 1);
    assert PromotedIds(map[]) == {};
    assert At(EMPTY, steps, 0) == Start(EMPTY);
    var s1 := At(EMPTY, steps, 1);
    assert s1.records == map[other := Copied()];
    assert PromotedIds(s1.records) == {};
  }

  lemma SealAndAccept(dotted: TaskId, other: TaskId, s: State)
    requires SafeId(dotted) && dotted != other && TwoTasks(s, EMPTY, other, dotted, Copied(), map[])
    ensures var accepted := Sealed(Copied(), WORK).(status := Verified, verificationId := Some("v"));
      TwoTasks(Next(Next(Next(s, WorkStep(dotted, WORK)), SealStep(dotted)), AcceptStep(dotted, "v")), EMPTY, other,
        dotted, accepted, WORK)
  {
    assert PrefixFree(WORK);
    var worked := Next(s, WorkStep(dotted, WORK));
    assert TwoTasks(worked, EMPTY, other, dotted, Copied(), WORK);
    var sealed := Next(worked, SealStep(dotted));
    assert TwoTasks(sealed, EMPTY, other, dotted, Sealed(Copied(), WORK), WORK);
  }

  lemma AcceptedTransacts(dotted: TaskId, s: State, r: Record)
    requires SafeId(dotted) && s.tree == EMPTY && dotted in s.records && s.records[dotted] == r
    requires r == Sealed(Copied(), WORK).(status := Verified, verificationId := Some("v"))
    requires dotted in s.workspaces && s.workspaces[dotted] == WORK
    ensures Promote(s, dotted, None, SMOOTH) == Transact(s, dotted, r, SMOOTH)
  {
    WorkIsPromotable(s, dotted, r);
  }

  lemma TransactOnOne(s: State, task: TaskId, r: Record)
    requires r.verificationId.Some? && r.proposal.Some? && task in s.workspaces && task in s.records
    ensures var after := Transact(s, task, r, SMOOTH).0;
      && after.workspaces == s.workspaces && after.untracked == s.untracked && after.records.Keys == s.records.Keys
      && forall t :: t in s.records && t != task ==> after.records[t] == s.records[t]
  {
  }

  ghost predicate DottedPromoted(s: State, dotted: TaskId, other: TaskId) {
    && s.tree.files == WORK
    && s.records.Keys == s.workspaces.Keys == {other, dotted}
    && s.records[dotted].status == Promoted && s.records[other] == Copied()
  }

  lemma PromoteDotted(dotted: TaskId, other: TaskId, s: State)
    requires SafeId(dotted) && dotted != other
    requires TwoTasks(s, EMPTY, other, dotted,
      Sealed(Copied(), WORK).(status := Verified, verificationId := Some("v")), WORK)
    ensures DottedPromoted(Promote(s, dotted, None, SMOOTH).0, dotted, other)
  {
    var r := s.records[dotted];
    AcceptedTransacts(dotted, s, r);
    WorkIsPromotable(s, dotted, r);
    TransactLands(s, dotted, r, SMOOTH);
    TransactOnOne(s, dotted, r);
  }

  lemma ThreeMore(tree: Tree, steps: seq<Step>, n: nat)
    requires n + 3 <= |steps|
    ensures At(tree, steps, n + 3) == Next(Next(Next(At(tree, steps, n), steps[n]), steps[n + 1]), steps[n + 2])
  {
    AtNext(tree, steps, n);
    AtNext(tree, steps, n + 1);
    AtNext(tree, steps, n + 2);
  }

  lemma AcceptedAt5(dotted: TaskId, other: TaskId)
    requires SafeId(dotted) && SafeId(other) && dotted != other
    ensures TwoTasks(At(EMPTY, DottedRun(dotted, other), 5), EMPTY, other, dotted,
      Sealed(Copied(), WORK).(status := Verified, verificationId := Some("v")), WORK)
  {
    StageBoth(dotted, other);
    SealAndAccept(dotted, other, At(EMPTY, DottedRun(dotted, other), 2));
    ThreeMore(EMPTY, DottedRun(dotted, other), 2);
  }

  lemma DottedStates(dotted: TaskId, other: TaskId)
    requires SafeId(dotted) && SafeId(other) && dotted != other
    ensures At(EMPTY, DottedRun(dotted, other), 6) ==
      Promote(At(EMPTY, DottedRun(dotted, other), 5), dotted, None, SMOOTH).0
    ensures DottedPromoted(At(EMPTY, DottedRun(dotted, other), 6), dotted, other)
  {
    AcceptedAt5(dotted, other);
    PromoteDotted(dotted, other, At(EMPTY, DottedRun(dotted, other), 5));
    AtNext(EMPTY, DottedRun(dotted, other), 5);
  }

  lemma CompletedIsUndisturbed(s: State, dotted: TaskId, other: TaskId)
    requires DottedPromoted(Promote(s, dotted, None, SMOOTH).0, dotted, other)
    ensures Undisturbed(s, PromoteStep(dotted, None, SMOOTH))
  {
  }

  lemma DottedSteps(dotted: TaskId, other: TaskId)
    ensures forall n :: 0 <= n < 7 ==> var step := DottedRun(dotted, other)[n];
      && !step.OutsideStep? && (step.PromoteStep? ==> n == 5)
      && (step.task == dotted || step.task == other)
  {
  }

  lemma DottedRunIsQuiet(dotted: TaskId, other: TaskId)
    requires SafeId(dotted) && SafeId(other) && dotted != other
    ensures QuietRun(EMPTY, DottedRun(dotted, other), {dotted, other})
  {
    var steps := DottedRun(dotted, other);
    DottedStates(dotted, other);
    CompletedIsUndisturbed(At(EMPTY, steps, 5), dotted, other);
    DottedSteps(dotted, other);
    forall n | 0 <= n < |steps| ensures Undisturbed(At(EMPTY, steps, n), steps[n]) {
    }
  }

  lemma ReusedOutOfDate(s: State, dotted: TaskId, other: TaskId)
    requires SafeId(other) && dotted != other && '.' in dotted && DottedPromoted(s, dotted, other)
    ensures var (after, reply) := Prepare(s, "r", other, "t", false);
      reply.Ok? && reply.value.baseline != after.tree.files
  {
    assert PromotedIds(s.records) == {};
    assert Copied().baseline == map[] && "f" in WORK;
  }

  /** The promotion of a dotted id goes unnoticed, and the old copy is handed out again. */
  lemma DottedPromotionUnnoticed(dotted: TaskId, other: TaskId)
    requires SafeId(dotted) && SafeId(other) && '.' in dotted && dotted != other
    ensures QuietRun(EMPTY, DottedRun(dotted, other), {dotted, other})
    ensures !HandsOutFresh(EMPTY, DottedRun(dotted, other), 6)
  {
    DottedRunIsQuiet(dotted, other);
    DottedStates(dotted, other);
    ReusedOutOfDate(At(EMPTY, DottedRun(dotted, other), 6), dotted, other);
  }

  lemma AnotherTask(ids: set<TaskId>, t: TaskId) returns (other: TaskId)
    requires |ids| >= 2 && t in ids
    ensures other in ids && other != t
  {
    assert ids == {t} + (ids - {t});
    other :| other in ids - {t};
  }

  lemma MoreTasks(tree: Tree, steps: seq<Step>, few: set<TaskId>, many: set<TaskId>)
    requires few <= many && QuietRun(tree, steps, few)
    ensures QuietRun(tree, steps, many)
  {
  }

  /** Of two tasks or more, copies are always fresh exactly when no task id has a dot. */
  lemma FreshExactlyWithoutDots(ids: set<TaskId>)
    requires |ids| >= 2 && forall t :: t in ids ==> SafeId(t)
    ensures AlwaysFresh(ids) <==> forall t :: t in ids ==> '.' !in t
  {
    if forall t :: t in ids ==> '.' !in t {
      forall tree, steps, n | QuietRun(tree, steps, ids) && 0 <= n < |steps| ensures HandsOutFresh(tree, steps, n) {
        PlainRunsAreFresh(tree, steps, ids, n);
      }
    } else {
      var dotted :| dotted in ids && '.' in dotted;
      var other := AnotherTask(ids, dotted);
      DottedPromotionUnnoticed(dotted, other);
      MoreTasks(EMPTY, DottedRun(dotted, other), {dotted, other}, ids);
    }
  }
}
