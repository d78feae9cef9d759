/**
  Runs of the completion gate in which any call may crash: between its two store calls,
  inside the transaction, or before it reports.
 */
module GateRuns {
  import opened Wrappers
  import opened Collections
  import opened Manifests
  import opened Places
  import opened Trees
  import opened Promotions
  import opened Staging
  import opened StagingRuns
  import opened CompletionGate

  /** A call of the gate; a crash before the report is one that the store does not see. */
  datatype Call = Call(task: TaskId, id: string, crashesAfterAccept: bool, trouble: Trouble)

  ghost function After(s: State, c: Call): State {
    if c.crashesAfterAccept then AcceptOnce(s, c.task, c.id).0 else GatePromote(s, c.task, c.id, c.trouble).0
  }

  ghost function Run(s: State, calls: seq<Call>): State {
    if calls == [] then s else After(Run(s, calls[..|calls| - 1]), calls[|calls| - 1])
  }

  predicate HasStatus(s: State, t: TaskId, status: Status) {
    t in s.records && s.records[t].status == status
  }

  /** The call completes the transaction of its task. */
  ghost predicate Completes(s: State, c: Call) {
    HasStatus(After(s, c), c.task, Promoted) && !HasStatus(s, c.task, Promoted)
  }

  /** The tasks whose transactions complete, in order. */
  ghost function Completions(s: State, calls: seq<Call>): seq<TaskId> {
    if calls == [] then []
    else
      var n := |calls| - 1;
      Completions(s, calls[..n]) + if Completes(Run(s, calls[..n]), calls[n]) then [calls[n].task] else []
  }

  /** The verification that counts for a task: the one it was accepted with, or the first that a call offers. */
  function FirstId(s: State, calls: seq<Call>, t: TaskId): Option<string> {
    if t in s.records && s.records[t].status != Proposed then s.records[t].verificationId
    else if calls == [] then None
    else
      var n := |calls| - 1;
      var before := FirstId(s, calls[..n], t);
      if before.Some? then before else if calls[n].task == t && calls[n].id != "" then Some(calls[n].id) else None
  }

  /** Landing the proposals of the tasks one after the other. */
  ghost function LandEach(t: Tree, records: map<TaskId, Record>, tasks: seq<TaskId>): Option<Tree> {
    if tasks == [] then Some(t)
    else
      var n := |tasks| - 1;
      match LandEach(t, records, tasks[..n])
      case None => None
      case Some(m) =>
        if tasks[n] in records && records[tasks[n]].proposal.Some?
        then Landed(m, records[tasks[n]].baseline, records[tasks[n]].proposal.value.entries) else None
  }

  // ----- One call -----

  /** A record under gate calls: what was sealed stays, and a proposal is accepted once. */
  ghost predicate Advances(before: Record, after: Record) {
    && after.baseline == before.baseline && after.proposal == before.proposal
    && (before.status != Proposed && before.status != Verified ==> after == before)
    && (before.status == Verified ==>
          (after.status == Verified || after.status == Promoting || after.status == Promoted)
          && after.verificationId == before.verificationId)
    && (before.status == Proposed ==>
        after == before || after.status == Verified || after.status == Promoting || after.status == Promoted)
  }

  lemma AcceptAdvances(s: State, t: TaskId, id: string)
    requires t in s.records
    ensures var after := AcceptOnce(s, t, id).0;
      && after.tree == s.tree && after.workspaces == s.workspaces && after.records.Keys == s.records.Keys
      && (forall u :: u in s.records && u != t ==> after.records[u] == s.records[u])
      && Advances(s.records[t], after.records[t])
          && (after.records[t].status == Promoting ==> s.records[t].status == Promoting)
      && (after.records[t].status == Promoted ==> s.records[t].status == Promoted)
      && (s.records[t].status == Proposed ==>
            if SafeId(t) && id != "" && s.records[t].proposalSha.Some?
            then after.records[t].status == Verified && after.records[t].verificationId == Some(id)
            else after.records[t] == s.records[t])
  {
  }

  lemma TransactAdvances(s: State, t: TaskId, r: Record, trouble: Trouble)
    requires t in s.records && s.records[t] == r && r.status == Verified && r.verificationId.Some? && r.proposal.Some?
    requires t in s.workspaces
    ensures var after := Transact(s, t, r, trouble).0;
      && after.workspaces == s.workspaces && after.records.Keys == s.records.Keys
      && (forall u :: u in s.records && u != t ==> after.records[u] == s.records[u])
      && Advances(r, after.records[t])
      && (after.records[t].status == Promoted <==> Transact(s, t, r, trouble).1.Ok?)
  {
  }

  lemma PromoteAdvances(s: State, t: TaskId, expected: Option<string>, trouble: Trouble)
    requires t in s.records
    ensures var after := Promote(s, t, expected, trouble).0;
      && after.workspaces == s.workspaces && after.records.Keys == s.records.Keys
      && (forall u :: u in s.records && u != t ==> after.records[u] == s.records[u])
      && Advances(s.records[t], after.records[t])
      && (s.records[t].status == Proposed ==> after.records[t] == s.records[t])
  {
    if Transacts(s, t, expected) {
      PromoteTransacts(s, t, expected, trouble);
      TransactAdvances(s, t, s.records[t], trouble);
    } else {
      assert Promote(s, t, expected, trouble).0 == s;
    }
  }

  /** What the transaction makes of the project. */
  lemma PromoteWrites(s: State, t: TaskId, expected: Option<string>, trouble: Trouble)
    requires WellFormed(s.tree) && t in s.records && ProposalOk(s.records[t])
    ensures var after := Promote(s, t, expected, trouble).0; var r := s.records[t];
      if HasStatus(after, t, Promoted) && r.status != Promoted
      then r.proposal.Some? && Landed(s.tree, r.baseline, r.proposal.value.entries) == Some(after.tree)
      else || after.tree == s.tree || HasStatus(after, t, Promoting)
           || (Promote(s, t, expected, trouble).1 == Err(PromotionRolledBack) && ReachesThroughLink(s, t))
  {
    if Transacts(s, t, expected) {
      PromoteTransacts(s, t, expected, trouble);
      TransactAdvances(s, t, s.records[t], trouble);
      if Promote(s, t, expected, trouble).1.Ok? {
        PromotionLands(s, t, expected, trouble);
      } else {
        RefusalChangesNothing(s, t, expected, trouble);
      }
    } else {
      assert Promote(s, t, expected, trouble).0 == s;
    }
  }

  lemma UnknownDoesNothing(s: State, c: Call)
    requires c.task !in s.records
    ensures After(s, c) == s
  {
  }

  lemma GateAccepts(s: State, c: Call)
    ensures var (accepted, id) := AcceptOnce(s, c.task, c.id);
      After(s, c) == if c.crashesAfterAccept || id.Err? then accepted
        else Promote(accepted, c.task, Some(id.value), c.trouble).0
  {
  }

  /** What a call does to the records. */
  ghost predicate CallAdvances(s: State, c: Call, after: State) {
    && after.workspaces == s.workspaces && after.records.Keys == s.records.Keys
    && (forall u :: u in s.records && u != c.task ==> after.records[u] == s.records[u])
    && (c.task in s.records ==>
          && Advances(s.records[c.task], after.records[c.task])
          && (s.records[c.task].status == Proposed ==>
                if SafeId(c.task) && c.id != "" && s.records[c.task].proposalSha.Some?
                then after.records[c.task].status != Proposed && after.records[c.task].verificationId == Some(c.id)
                else after.records[c.task] == s.records[c.task]))
  }

  lemma CallKeepsRecords(s: State, c: Call)
    ensures CallAdvances(s, c, After(s, c))
  {
    if c.task in s.records {
      var (accepted, id) := AcceptOnce(s, c.task, c.id);
      GateAccepts(s, c);
      AcceptAdvances(s, c.task, c.id);
      if id.Ok? {
        PromoteAdvances(accepted, c.task, Some(id.value), c.trouble);
      }
    } else {
      UnknownDoesNothing(s, c);
    }
  }

  /** The call ends in a rollback while a changed path lies below a link of the project. */
  ghost predicate UndoneThroughLink(s: State, c: Call) {
    && !c.crashesAfterAccept && GatePromote(s, c.task, c.id, c.trouble).1 == Err(PromotionRolledBack)
    && ReachesThroughLink(s, c.task)
  }

  lemma AcceptedReaches(s: State, t: TaskId, id: string)
    requires t in s.records
    ensures ReachesThroughLink(AcceptOnce(s, t, id).0, t) == ReachesThroughLink(s, t)
  {
  }

  /** What a call does to the project. */
  ghost predicate CallWrites(s: State, c: Call, after: State) {
    if Completes(s, c) then
      && c.task in s.records && s.records[c.task].proposal.Some?
      && Landed(s.tree, s.records[c.task].baseline, s.records[c.task].proposal.value.entries) == Some(after.tree)
    else after.tree == s.tree || HasStatus(after, c.task, Promoting) || UndoneThroughLink(s, c)
  }

  lemma AcceptOnceIs(s: State, t: TaskId, id: string)
    ensures AcceptOnce(s, t, id).0 == s || AcceptOnce(s, t, id).0 == MarkVerified(s, t, id).0
  {
  }

  lemma AcceptedProposalOk(s: State, t: TaskId, id: string)
    requires t in s.records && ProposalOk(s.records[t])
    ensures t in AcceptOnce(s, t, id).0.records && ProposalOk(AcceptOnce(s, t, id).0.records[t])
  {
    AcceptOnceIs(s, t, id);
    AcceptStores(s, t, id);
  }

  lemma CallKeepsTree(s: State, c: Call)
    requires Invariant(s)
    ensures CallWrites(s, c, After(s, c))
  {
    if c.task in s.records {
      assert RecordOk(s.records, s.records[c.task]);
      var (accepted, id) := AcceptOnce(s, c.task, c.id);
      GateAccepts(s, c);
      AcceptAdvances(s, c.task, c.id);
      if id.Ok? {
        AcceptedProposalOk(s, c.task, c.id);
        AcceptedReaches(s, c.task, c.id);
        PromoteWrites(accepted, c.task, Some(id.value), c.trouble);
      }
    } else {
      UnknownDoesNothing(s, c);
    }
  }

  lemma AcceptOnceKeeps(s: State, t: TaskId, id: string)
    requires Invariant(s)
    ensures Invariant(AcceptOnce(s, t, id).0)
  {
    AcceptOnceIs(s, t, id);
    AcceptKeeps(s, t, id);
  }

  lemma CallKeeps(s: State, c: Call)
    requires Invariant(s)
    ensures Invariant(After(s, c))
  {
    var (accepted, id) := AcceptOnce(s, c.task, c.id);
    GateAccepts(s, c);
    AcceptOnceKeeps(s, c.task, c.id);
    if id.Ok? {
      PromoteKeeps(accepted, c.task, Some(id.value), c.trouble);
    }
  }

  // ----- Runs of calls -----

  ghost predicate AllAdvance(before: map<TaskId, Record>, after: map<TaskId, Record>) {
    before.Keys == after.Keys && forall t :: t in before ==> Advances(before[t], after[t])
  }

  lemma CallAdvancesAll(s: State, c: Call)
    ensures AllAdvance(s.records, After(s, c).records)
  {
    CallKeepsRecords(s, c);
  }

  lemma AdvancesOn(a: map<TaskId, Record>, b: map<TaskId, Record>, c: map<TaskId, Record>)
    requires AllAdvance(a, b) && AllAdvance(b, c)
    ensures AllAdvance(a, c)
  {
    forall t | t in a ensures Advances(a[t], c[t]) {
      assert Advances(a[t], b[t]) && Advances(b[t], c[t]);
    }
  }

  lemma {:induction false} RunAdvances(s: State, calls: seq<Call>)
    requires Invariant(s)
    ensures Invariant(Run(s, calls)) && AllAdvance(s.records, Run(s, calls).records)
  {
    if calls != [] {
      var n := |calls| - 1;
      RunAdvances(s, calls[..n]);
      CallKeeps(Run(s, calls[..n]), calls[n]);
      CallAdvancesAll(Run(s, calls[..n]), calls[n]);
      AdvancesOn(s.records, Run(s, calls[..n]).records, Run(s, calls).records);
    }
  }

  lemma CallPromotes(s: State, c: Call, t: TaskId)
    ensures HasStatus(After(s, c), t, Promoted) <==> HasStatus(s, t, Promoted) || (t == c.task && Completes(s, c))
  {
    CallKeepsRecords(s, c);
    if t in s.records && t == c.task {
      assert Advances(s.records[t], After(s, c).records[t]);
    }
  }

  lemma PromotedStays(s: State, calls: seq<Call>, t: TaskId)
    requires Invariant(s) && HasStatus(s, t, Promoted)
    ensures HasStatus(Run(s, calls), t, Promoted)
  {
    RunAdvances(s, calls);
    assert Advances(s.records[t], Run(s, calls).records[t]);
  }

  /** Each task completes at most once: exactly the tasks that are promoted now and were not before. */
  lemma {:induction false} CompletesOnce(s: State, calls: seq<Call>)
    requires Invariant(s)
    ensures Distinct(Completions(s, calls))
    ensures forall t :: t in Completions(s, calls) <==>
      HasStatus(Run(s, calls), t, Promoted) && !HasStatus(s, t, Promoted)
  {
    if calls != [] {
      var n := |calls| - 1;
      CompletesOnce(s, calls[..n]);
      forall t
        ensures t in Completions(s, calls) <==> HasStatus(Run(s, calls), t, Promoted) && !HasStatus(s, t, Promoted)
      {
        CallPromotes(Run(s, calls[..n]), calls[n], t);
        if HasStatus(s, t, Promoted) {
          PromotedStays(s, calls[..n], t);
        }
      }
    }
  }

  /** Whether a record has been accepted, and under which id. */
  ghost predicate IdIs(r: Record, id: Option<string>) {
    (r.status == Proposed <==> id.None?) && (id.Some? ==> r.verificationId == id)
  }

  lemma CallOffers(s: State, c: Call, t: TaskId, id: Option<string>)
    requires Invariant(s) && t in s.records && SafeId(t)
    requires s.records[t].status == Proposed || s.records[t].status == Verified || s.records[t].status == Promoting
      || s.records[t].status == Promoted
    requires IdIs(s.records[t], id)
    ensures t in After(s, c).records
    ensures IdIs(After(s, c).records[t], if id.None? && c.task == t && c.id != "" then Some(c.id) else id)
  {
    CallKeepsRecords(s, c);
    assert RecordOk(s.records, s.records[t]);
    if c.task == t {
      assert Advances(s.records[t], After(s, c).records[t]);
    }
  }

  /** The first verification id offered counts, also when later calls offer others. */
  lemma {:induction false} FirstIdCounts(s: State, calls: seq<Call>, t: TaskId)
    requires Invariant(s) && t in s.records && SafeId(t)
    requires s.records[t].status == Proposed || s.records[t].status == Verified
    ensures t in Run(s, calls).records && IdIs(Run(s, calls).records[t], FirstId(s, calls, t))
  {
    if calls == [] {
      assert RecordOk(s.records, s.records[t]);
    } else {
      var n := |calls| - 1;
      FirstIdCounts(s, calls[..n], t);
      RunAdvances(s, calls[..n]);
      assert Advances(s.records[t], Run(s, calls[..n]).records[t]);
      CallOffers(Run(s, calls[..n]), calls[n], t, FirstId(s, calls[..n], t));
    }
  }

  lemma {:induction false} LandEachSame(t: Tree, records: map<TaskId, Record>, later: map<TaskId, Record>,
    tasks: seq<TaskId>)
    requires AllAdvance(records, later)
    ensures LandEach(t, later, tasks) == LandEach(t, records, tasks)
  {
    if tasks != [] {
      var n := |tasks| - 1;
      LandEachSame(t, records, later, tasks[..n]);
      if tasks[n] in records {
        assert Advances(records[tasks[n]], later[tasks[n]]);
      }
    }
  }

  /** No promotion was cut short by a dying process or a failed rollback. */
  ghost predicate NoneCutShort(s: State, later: State) {
    forall t :: HasStatus(later, t, Promoting) ==> HasStatus(s, t, Promoting)
  }

  /** No promotion was rolled back through a link. */
  ghost predicate NoneUndoneThroughLink(s: State, calls: seq<Call>) {
    calls == [] ||
      var n := |calls| - 1;
      NoneUndoneThroughLink(s, calls[..n]) && !UndoneThroughLink(Run(s, calls[..n]), calls[n])
  }

  lemma PromotingIsLeftAlone(s: State, c: Call)
    requires HasStatus(s, c.task, Promoting)
    ensures After(s, c) == s
  {
  }

  lemma NoneCutShortBefore(s: State, m: State, c: Call)
    requires AllAdvance(s.records, m.records) && NoneCutShort(s, After(m, c))
    ensures NoneCutShort(s, m)
    ensures CallWrites(m, c, After(m, c)) && !Completes(m, c) && !UndoneThroughLink(m, c) ==>
      After(m, c).tree == m.tree
  {
    CallAdvancesAll(m, c);
    forall t | HasStatus(m, t, Promoting) ensures HasStatus(s, t, Promoting) {
      assert Advances(m.records[t], After(m, c).records[t]);
    }
    if HasStatus(After(m, c), c.task, Promoting) {
      assert Advances(s.records[c.task], m.records[c.task]);
      assert HasStatus(m, c.task, Promoting);
      PromotingIsLeftAlone(m, c);
    }
  }

  lemma LandEachOneMore(t: Tree, records: map<TaskId, Record>, tasks: seq<TaskId>, task: TaskId, m: Tree)
    requires LandEach(t, records, tasks) == Some(m) && task in records && records[task].proposal.Some?
    ensures LandEach(t, records, tasks + [task]) ==
      Landed(m, records[task].baseline, records[task].proposal.value.entries)
  {
    assert (tasks + [task])[..|tasks|] == tasks;
  }

  lemma CallLands(s: State, c: Call, start: Tree, tasks: seq<TaskId>)
    requires Invariant(s) && LandEach(start, s.records, tasks) == Some(s.tree)
    requires !Completes(s, c) ==> After(s, c).tree == s.tree
    ensures LandEach(start, After(s, c).records, tasks + if Completes(s, c) then [c.task] else []) ==
      Some(After(s, c).tree)
  {
    var after := After(s, c);
    CallAdvancesAll(s, c);
    LandEachSame(start, s.records, after.records, tasks);
    CallKeepsTree(s, c);
    if Completes(s, c) {
      assert Advances(s.records[c.task], after.records[c.task]);
      LandEachOneMore(start, after.records, tasks, c.task, s.tree);
    } else {
      assert tasks + [] == tasks;
    }
  }

  /** The project is what landing each completed proposal once makes of it, in that order. */
  lemma {:induction false} ProjectIsWhatLanded(s: State, calls: seq<Call>)
    requires Invariant(s) && NoneCutShort(s, Run(s, calls)) && NoneUndoneThroughLink(s, calls)
    ensures LandEach(s.tree, Run(s, calls).records, Completions(s, calls)) == Some(Run(s, calls).tree)
  {
    if calls != [] {
      var n := |calls| - 1;
      var m := Run(s, calls[..n]);
      RunAdvances(s, calls[..n]);
      CallKeepsTree(m, calls[n]);
      NoneCutShortBefore(s, m, calls[n]);
      ProjectIsWhatLanded(s, calls[..n]);
      CallLands(m, calls[n], s.tree, Completions(s, calls[..n]));
    }
  }

  lemma UnsafeDoesNothing(s: State, c: Call)
    requires !SafeId(c.task)
    ensures After(s, c) == s
  {
  }

  lemma {:induction false} CompletedIsSafe(s: State, calls: seq<Call>, t: TaskId)
    requires t in Completions(s, calls)
    ensures SafeId(t)
  {
    var n := |calls| - 1;
    if t in Completions(s, calls[..n]) {
      CompletedIsSafe(s, calls[..n], t);
    } else if !SafeId(calls[n].task) {
      UnsafeDoesNothing(Run(s, calls[..n]), calls[n]);
    }
  }

  /**
    Crash and retry: over every run of gate calls, for any tasks and with crashes anywhere,
    each task's transaction completes at most once, under the first verification id it was
    offered, and the project is what those transactions alone make of it, unless one was
    cut short and its record left PROMOTING, or rolled back through a link.
   */
  lemma ExactlyOnce(s: State, calls: seq<Call>, t: TaskId)
    requires Invariant(s) && t in Completions(s, calls)
    ensures Distinct(Completions(s, calls))
    ensures HasStatus(Run(s, calls), t, Promoted) && FirstId(s, calls, t).Some?
    ensures Run(s, calls).records[t].verificationId == FirstId(s, calls, t)
    ensures NoneCutShort(s, Run(s, calls)) && NoneUndoneThroughLink(s, calls) ==>
      LandEach(s.tree, Run(s, calls).records, Completions(s, calls)) == Some(Run(s, calls).tree)
  {
    CompletesOnce(s, calls);
    RunAdvances(s, calls);
    assert Advances(s.records[t], Run(s, calls).records[t]);
    CompletedIsSafe(s, calls, t);
    FirstIdCounts(s, calls, t);
    assert RecordOk(Run(s, calls).records, Run(s, calls).records[t]);
    if NoneCutShort(s, Run(s, calls)) && NoneUndoneThroughLink(s, calls) {
      ProjectIsWhatLanded(s, calls);
    }
  }

  /** Whatever the project and the calls afterwards, a completed transaction is not undone or repeated. */
  lemma NothingAfterCompletion(s: State, calls: seq<Call>, t: TaskId)
    requires Invariant(s) && HasStatus(s, t, Promoted)
    ensures t !in Completions(s, calls) && t in Run(s, calls).records && Run(s, calls).records[t] == s.records[t]
  {
    CompletesOnce(s, calls);
    RunAdvances(s, calls);
    assert Advances(s.records[t], Run(s, calls).records[t]);
  }
}
