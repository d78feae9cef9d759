/**
  Whole runs of admitted plans: once work of a profession has been accepted, every later
  plan leaves the rest of the profession to the lead that accepted it.
 */
module LeadStability {
  import opened Wrappers
  import opened Collections
  import opened Strings
  import opened Departments

  /** The plan in force, the tasks a lead accepted, and the tasks that were cancelled. */
  datatype State = State(plan: Plan, verified: set<TaskId>, cancelled: set<TaskId>) {
    function Over(): Settled {
      Settled(verified + cancelled, verified)
    }
  }

  ghost predicate IsTask(plan: Plan, id: TaskId) {
    exists t :: t in plan.tasks && t.id == id
  }

  /** What admission checks besides the leads: unique ids, and no unknown or generic role as a lead. */
  ghost predicate WellFormed(plan: Plan) {
    && (forall t, u :: t in plan.tasks && u in plan.tasks && t.id == u.id ==> t == u)
    && (forall t :: t in plan.tasks && t.lead.Some? && t.lead.value != t.role ==> CanLead(t.lead, t.role, plan.roles))
  }

  ghost predicate FirstAdmitted(s: State) {
    && s.verified == {} && s.cancelled == {} && WellFormed(s.plan)
    && Clean(s.plan, {}, NOTHING_SETTLED, None, false)
  }

  /** The tasks that a change leaves as they were; they are exempt from naming a lead. */
  ghost function Untouched(current: Plan, candidate: Plan): set<TaskId> {
    set t | t in candidate.tasks && t in current.tasks :: t.id
  }

  /** A change is admitted by the lead validator, removes no task and rewrites no accepted one. */
  ghost predicate ChangeAdmitted(s: State, candidate: Plan) {
    && WellFormed(candidate)
    && (forall t :: t in s.plan.tasks ==> IsTask(candidate, t.id))
    && (forall t :: t in s.plan.tasks && t.id in s.verified ==> t in candidate.tasks)
    && Clean(candidate, Untouched(s.plan, candidate), s.Over(), Some(s.plan), false)
  }

  /** A change may reset cancelled tasks that depend on what it changes; accepted ones never do. */
  datatype Step = Verify(id: TaskId) | Cancel(id: TaskId) | Change(candidate: Plan, reopened: set<TaskId>)

  function Changed(s: State, candidate: Plan, reopened: set<TaskId>): State {
    s.(plan := candidate, cancelled := s.cancelled - reopened)
  }

  ghost predicate Next(s: State, step: Step, next: State) {
    match step
    case Verify(id) => IsTask(s.plan, id) && id !in s.Over().ids && next == s.(verified := s.verified + {id})
    case Cancel(id) => IsTask(s.plan, id) && id !in s.Over().ids && next == s.(cancelled := s.cancelled + {id})
    case Change(candidate, reopened) =>
      ChangeAdmitted(s, candidate) && reopened <= s.cancelled && next == Changed(s, candidate, reopened)
  }

  ghost predicate IsRun(states: seq<State>, steps: seq<Step>) {
    && |states| == |steps| + 1 && FirstAdmitted(states[0])
    && forall i :: 0 <= i < |steps| ==> Next(states[i], steps[i], states[i + 1])
  }

  /** A task that was accepted, or is still to be. */
  ghost predicate Judged(s: State, t: Task) {
    t in s.plan.tasks && t.id !in s.cancelled
  }

  /** Every task names a possible lead; what is open in a profession, and what was accepted, name the same. */
  ghost predicate Invariant(s: State) {
    && WellFormed(s.plan)
    && (forall id :: id in s.Over().ids ==> IsTask(s.plan, id))
    && (forall t :: t in s.plan.tasks ==> CanLead(t.lead, t.role, s.plan.roles))
    && (forall t, u :: Judged(s, t) && Judged(s, u) && t.role == u.role ==> t.lead == u.lead)
    && s.verified !! s.cancelled
  }

  lemma FirstKeeps(s: State)
    requires FirstAdmitted(s)
    ensures Invariant(s)
  {
    forall t | t in s.plan.tasks
      ensures CanLead(t.lead, t.role, s.plan.roles) && LeadsNamed(s.plan.tasks, t.role, {}, false) == {t.lead.value}
    {
      CleanNamesOneLead(s.plan, NOTHING_SETTLED, false, t);
    }
    forall t, u | t in s.plan.tasks && u in s.plan.tasks && t.role == u.role ensures t.lead == u.lead {
      assert t.lead.value in LeadsNamed(s.plan.tasks, u.role, {}, false);
    }
  }

  /** Two tasks of a profession that are not history name the same lead. */
  lemma OneLeadAmongNamed(s: State, candidate: Plan, t: Task, u: Task)
    requires ChangeAdmitted(s, candidate) && t in candidate.tasks && u in candidate.tasks && t.role == u.role
    requires t.lead.Some? && u.lead.Some?
    requires t.id !in History(candidate.tasks, s.Over(), Some(s.plan))
    requires u.id !in History(candidate.tasks, s.Over(), Some(s.plan))
    ensures t.lead == u.lead
  {
    var history := History(candidate.tasks, s.Over(), Some(s.plan));
    var named := NamedBy(candidate.tasks, t.role, history);
    LeadIsNamed(candidate.tasks, t, history, false);
    LeadIsNamed(candidate.tasks, u, history, false);
    assert !IsIssue(candidate, Untouched(s.plan, candidate), s.Over(), Some(s.plan), false, SplitProfession(t.role));
    if t.lead != u.lead {
      SubsetSize({t.lead.value, u.lead.value}, named);
    }
  }

  lemma VerifiedIsKept(s: State, candidate: Plan, a: Task)
    requires Invariant(s) && ChangeAdmitted(s, candidate) && a in candidate.tasks && a.id in s.verified
    ensures a in s.plan.tasks && a.id in History(candidate.tasks, s.Over(), Some(s.plan))
  {
    assert IsTask(s.plan, a.id);
    var b :| b in s.plan.tasks && b.id == a.id;
    assert b in candidate.tasks;
    assert HeldAs(s.plan, a);
  }

  lemma OpenWorkNamesOne(s: State, candidate: Plan, t: Task)
    requires ChangeAdmitted(s, candidate) && t in candidate.tasks && t.lead.Some?
    requires t.id !in History(candidate.tasks, s.Over(), Some(s.plan))
    ensures NamedBy(candidate.tasks, t.role, History(candidate.tasks, s.Over(), Some(s.plan))) == {t.lead.value}
  {
    var history := History(candidate.tasks, s.Over(), Some(s.plan));
    LeadIsNamed(candidate.tasks, t, history, false);
    forall x | x in NamedBy(candidate.tasks, t.role, history) ensures x == t.lead.value {
      var u :| u in candidate.tasks && u.role == t.role && u.lead.Some? && u.id !in history && u.lead.value == x;
      OneLeadAmongNamed(s, candidate, t, u);
    }
  }

  lemma AcceptedWorkNamesOne(s: State, candidate: Plan, v: Task)
    requires Invariant(s) && ChangeAdmitted(s, candidate)
    requires v in s.plan.tasks && v.id in s.verified && CanLead(v.lead, v.role, candidate.roles)
    ensures AcceptedLeads(candidate.tasks, v.role, History(candidate.tasks, s.Over(), Some(s.plan)), s.Over(),
      candidate.roles)
         == {v.lead.value}
  {
    var history := History(candidate.tasks, s.Over(), Some(s.plan));
    VerifiedIsKept(s, candidate, v);
    forall x | x in AcceptedLeads(candidate.tasks, v.role, history, s.Over(), candidate.roles)
      ensures x == v.lead.value
    {
      var a :| a in candidate.tasks && a.role == v.role && a.id in history && a.id in s.verified
        && CanLead(a.lead, v.role, candidate.roles) && a.lead.value == x;
      VerifiedIsKept(s, candidate, a);
      assert Judged(s, a) && Judged(s, v);
    }
  }

  lemma OpenWorkKeepsOne(s: State, v: Task, roles: seq<Role>)
    requires Invariant(s) && v in s.plan.tasks && v.id in s.verified && v.lead.Some?
    ensures KeptLeads(Some(s.plan), v.role, s.Over(), roles) <= {v.lead.value}
  {
    forall x | x in KeptLeads(Some(s.plan), v.role, s.Over(), roles) ensures x == v.lead.value {
      var k :| k in s.plan.tasks && k.role == v.role && k.id !in s.Over().ids && CanLead(k.lead, v.role, roles)
        && k.lead.value == x;
      assert Judged(s, k) && Judged(s, v);
    }
  }

  /** A task that is not history names the lead of any accepted task of its profession. */
  lemma AcceptedLeadStays(s: State, candidate: Plan, v: Task, t: Task)
    requires Invariant(s) && ChangeAdmitted(s, candidate)
    requires v in s.plan.tasks && v.id in s.verified && t in candidate.tasks && t.role == v.role && t.lead.Some?
    requires CanLead(v.lead, v.role, candidate.roles)
    requires t.id !in History(candidate.tasks, s.Over(), Some(s.plan))
    ensures t.lead == v.lead
  {
    OpenWorkNamesOne(s, candidate, t);
    AcceptedWorkNamesOne(s, candidate, v);
    OpenWorkKeepsOne(s, v, candidate.roles);
    assert !IsIssue(candidate, Untouched(s.plan, candidate), s.Over(), Some(s.plan), false, MovedProfession(t.role));
    assert t.lead.value in {v.lead.value};
  }

  lemma EveryTaskCanBeLed(s: State, candidate: Plan, t: Task)
    requires Invariant(s) && ChangeAdmitted(s, candidate) && t in candidate.tasks
    ensures CanLead(t.lead, t.role, candidate.roles)
  {
    var exempt := Untouched(s.plan, candidate);
    assert !IsIssue(candidate, exempt, s.Over(), Some(s.plan), false, MissingLead(t.id));
    assert !IsIssue(candidate, exempt, s.Over(), Some(s.plan), false, OwnLead(t.id));
    if t.id in exempt {
      var u :| u in candidate.tasks && u in s.plan.tasks && u.id == t.id;
      assert u == t;
    }
  }

  /** Each reopened task names the lead that the rest of its profession names. */
  ghost predicate ReopensAlike(s: State, candidate: Plan, reopened: set<TaskId>) {
    var next := Changed(s, candidate, reopened);
    forall t, u :: t in candidate.tasks && t.id in reopened && Judged(next, u) && t.role == u.role ==> t.lead == u.lead
  }

  lemma ChangeKeeps(s: State, candidate: Plan)
    requires Invariant(s) && ChangeAdmitted(s, candidate)
    ensures Invariant(s.(plan := candidate))
  {
    forall t | t in candidate.tasks ensures CanLead(t.lead, t.role, candidate.roles) {
      EveryTaskCanBeLed(s, candidate, t);
    }
    forall id | id in s.Over().ids ensures IsTask(candidate, id) {
      var t :| t in s.plan.tasks && t.id == id;
    }
    var next := s.(plan := candidate);
    forall t, u | Judged(next, t) && Judged(next, u) && t.role == u.role ensures t.lead == u.lead {
      if t.id in s.verified {
        VerifiedIsKept(s, candidate, t);
        if u.id in s.verified {
          VerifiedIsKept(s, candidate, u);
        } else {
          AcceptedLeadStays(s, candidate, t, u);
        }
      } else if u.id in s.verified {
        VerifiedIsKept(s, candidate, u);
        AcceptedLeadStays(s, candidate, u, t);
      } else {
        OneLeadAmongNamed(s, candidate, t, u);
      }
    }
  }

  /** An admitted change keeps one lead per profession exactly when what it reopens names that lead. */
  lemma ReopeningKeepsExactly(s: State, candidate: Plan, reopened: set<TaskId>)
    requires Invariant(s) && ChangeAdmitted(s, candidate) && reopened <= s.cancelled
    ensures Invariant(Changed(s, candidate, reopened)) <==> ReopensAlike(s, candidate, reopened)
  {
    ChangeKeeps(s, candidate);
    var kept, next := s.(plan := candidate), Changed(s, candidate, reopened);
    if ReopensAlike(s, candidate, reopened) {
      forall t, u | Judged(next, t) && Judged(next, u) && t.role == u.role ensures t.lead == u.lead {
        if t.id !in reopened && u.id !in reopened {
          assert Judged(kept, t) && Judged(kept, u);
        }
      }
    }
    if Invariant(next) {
      forall t, u | t in candidate.tasks && t.id in reopened && Judged(next, u) && t.role == u.role
        ensures t.lead == u.lead
      {
        assert Judged(next, t);
      }
    }
  }

  lemma SettleKeeps(s: State, step: Step, next: State)
    requires Invariant(s) && Next(s, step, next) && !step.Change?
    ensures Invariant(next)
  {
    forall t, u | Judged(next, t) && Judged(next, u) && t.role == u.role ensures t.lead == u.lead {
      assert Judged(s, t) && Judged(s, u);
    }
  }

  /** No change of the run reopens a task under another lead than the rest of its profession names. */
  ghost predicate AllReopenAlike(states: seq<State>, steps: seq<Step>)
    requires |states| == |steps| + 1
  {
    forall i :: 0 <= i < |steps| && steps[i].Change? ==> ReopensAlike(states[i], steps[i].candidate, steps[i].reopened)
  }

  lemma {:induction false} RunKeeps(states: seq<State>, steps: seq<Step>, i: nat)
    requires IsRun(states, steps) && AllReopenAlike(states, steps) && i <= |steps|
    ensures Invariant(states[i])
  {
    if i == 0 {
      FirstKeeps(states[0]);
    } else {
      RunKeeps(states, steps, i - 1);
      var s, step := states[i - 1], steps[i - 1];
      assert Next(s, step, states[i]);
      if step.Change? {
        ReopeningKeepsExactly(s, step.candidate, step.reopened);
      } else {
        SettleKeeps(s, step, states[i]);
      }
    }
  }

  /** A run keeps every profession led by one throughout exactly when its reopened tasks name that one. */
  lemma RunLedExactly(states: seq<State>, steps: seq<Step>)
    requires IsRun(states, steps)
    ensures (forall i :: 0 <= i < |states| ==> Invariant(states[i])) <==> AllReopenAlike(states, steps)
  {
    if AllReopenAlike(states, steps) {
      forall i | 0 <= i < |states| ensures Invariant(states[i]) {
        RunKeeps(states, steps, i);
      }
    }
    if forall i :: 0 <= i < |states| ==> Invariant(states[i]) {
      forall i | 0 <= i < |steps| && steps[i].Change?
        ensures ReopensAlike(states[i], steps[i].candidate, steps[i].reopened)
      {
        assert Next(states[i], steps[i], states[i + 1]) && Invariant(states[i]) && Invariant(states[i + 1]);
        ReopeningKeepsExactly(states[i], steps[i].candidate, steps[i].reopened);
      }
    }
  }

  lemma LegacyNameIsLower()
    ensures Lower("legacy serial worker") == "legacy serial worker"
  {
  }

  /**
    In such a run every task is led by a role of the plan: another profession than its own,
    and not the generic worker of old plans, by id or by name, however that is capitalised.
   */
  lemma LeadsAreReal(states: seq<State>, steps: seq<Step>, i: nat, t: Task)
    requires IsRun(states, steps) && AllReopenAlike(states, steps) && i <= |steps| && t in states[i].plan.tasks
    ensures t.lead.Some? && t.lead.value != t.role && t.lead.value != "legacy-worker"
    ensures exists r ::
      r in states[i].plan.roles && r.id == t.lead.value && !SameButCase(r.name, "legacy serial worker")
  {
    RunKeeps(states, steps, i);
    assert CanLead(t.lead, t.role, states[i].plan.roles);
    var r :| r in states[i].plan.roles && r.id == t.lead.value && Lower(r.name) != "legacy serial worker";
    LowerIsCaseBlind(r.name, "legacy serial worker");
    LegacyNameIsLower();
  }

  /** An accepted task stays accepted, and stays in the plan as it was accepted. */
  lemma {:induction false} AcceptedStays(states: seq<State>, steps: seq<Step>, i: nat, j: nat, v: Task)
    requires IsRun(states, steps) && i <= j <= |steps| && v in states[i].plan.tasks && v.id in states[i].verified
    ensures v in states[j].plan.tasks && v.id in states[j].verified
  {
    if i < j {
      AcceptedStays(states, steps, i, j - 1, v);
      assert Next(states[j - 1], steps[j - 1], states[j]);
    }
  }

  /**
    Once a task of a profession is accepted, every later plan of the run names the lead that
    accepted it for each of the profession's tasks still open, and derives that lead.
   */
  lemma AcceptedLeadIsKept(states: seq<State>, steps: seq<Step>, i: nat, j: nat, v: Task, t: Task)
    requires IsRun(states, steps) && AllReopenAlike(states, steps) && i <= j <= |steps|
    requires v in states[i].plan.tasks && v.id in states[i].verified
    requires t in states[j].plan.tasks && t.role == v.role && t.id !in states[j].Over().ids
    ensures t.lead == v.lead && v.lead.Some? && v.lead.value != v.role && v.lead.value in RoleIds(states[j].plan.roles)
    ensures RoleLead(states[j].plan, v.role, states[j].Over().ids) == Ok(v.lead.value)
  {
    RunKeeps(states, steps, j);
    AcceptedStays(states, steps, i, j, v);
    var s := states[j];
    var live := LeadsNamed(s.plan.tasks, v.role, s.Over().ids, false);
    LeadIsNamed(s.plan.tasks, t, s.Over().ids, false);
    assert live == {v.lead.value};
    assert TheOnly(live) in live;
  }

  /** All accepted work of a profession was accepted by one lead. */
  lemma OneLeadAccepts(states: seq<State>, steps: seq<Step>, j: nat, v: Task, w: Task)
    requires IsRun(states, steps) && AllReopenAlike(states, steps)
    requires j <= |steps| && v in states[j].plan.tasks && w in states[j].plan.tasks
    requires v.id in states[j].verified && w.id in states[j].verified && v.role == w.role
    ensures v.lead == w.lead
  {
    RunKeeps(states, steps, j);
  }

  // ----- A reopened task -----

  /** Two tasks of a profession under different leads, and one of another profession, all led by roles of the plan. */
  ghost predicate IsCast(asks: Task, earlier: Task, later: Task, roles: seq<Role>) {
    && asks.id != earlier.id && asks.id != later.id && earlier.id != later.id
    && asks.role != earlier.role && later.role == earlier.role && later.lead != earlier.lead
    && (forall t :: t in {asks, earlier, later} ==>
          CanLead(t.lead, t.role, roles) && t.lead.value in RoleIds(roles) && t.binding.Unbound?)
  }

  function Before(asks: Task, earlier: Task, roles: seq<Role>): Plan {
    Plan([asks, earlier], roles, [])
  }

  function After(asks: Task, earlier: Task, later: Task, roles: seq<Role>): Plan {
    Plan([asks, earlier, later], roles, [])
  }

  lemma LedAlone(plan: Plan, t: Task, settled: set<TaskId>)
    requires plan.departments == [] && forall u :: u in plan.tasks ==> u.binding.Unbound?
    requires t.binding.Unbound? && CanLead(t.lead, t.role, plan.roles) && t.lead.value in RoleIds(plan.roles)
    requires t.id !in settled && LeadsNamed(plan.tasks, t.role, settled, false) == {t.lead.value}
    ensures Derive(plan, t, settled).Ok?
  {
    assert BoundDepartments(plan.tasks, t.lead.value) == {};
  }

  /** Every task is led by a role of the plan, and what is not history in a profession by one. */
  ghost predicate AllLed(plan: Plan, history: set<TaskId>) {
    && (forall t :: t in plan.tasks ==> t.lead.Some? && t.lead.value != t.role)
    && (forall t :: t in plan.tasks ==> |LeadsNamed(plan.tasks, t.role, history, false)| <= 1)
  }

  lemma NothingAccepted(plan: Plan, role: RoleId, settled: Settled, inherited: Option<Plan>)
    requires settled.accepted == {}
    ensures !Moved(plan, role, settled, inherited)
  {
    assert AcceptedLeads(plan.tasks, role, History(plan.tasks, settled, inherited), settled, plan.roles) == {};
  }

  lemma NotSplit(plan: Plan, role: RoleId, history: set<TaskId>)
    requires AllLed(plan, history)
    ensures |LeadsNamed(plan.tasks, role, history, false)| <= 1
  {
    if x :| x in LeadsNamed(plan.tasks, role, history, false) {
      var t :| t in plan.tasks && t.role == role && t.lead.Some?;
      assert |LeadsNamed(plan.tasks, t.role, history, false)| <= 1;
    } else {
      assert LeadsNamed(plan.tasks, role, history, false) == {};
    }
  }

  lemma LedIsClean(plan: Plan, exempt: set<TaskId>, settled: Settled, inherited: Option<Plan>)
    requires settled.accepted == {} && AllLed(plan, History(plan.tasks, settled, inherited))
    requires forall t :: t in plan.tasks && t.id !in exempt ==>
      Derive(plan, t, History(plan.tasks, settled, inherited)).Ok?
    ensures Clean(plan, exempt, settled, inherited, false)
  {
    forall i ensures !IsIssue(plan, exempt, settled, inherited, false, i) {
      match i
      case MissingLead(_) =>
      case OwnLead(_) =>
      case UnknownLead(_) =>
      case SplitProfession(role) => NotSplit(plan, role, History(plan.tasks, settled, inherited));
      case MovedProfession(role) => NothingAccepted(plan, role, settled, inherited);
      case Underivable(_, _) =>
    }
  }

  lemma LeadsBefore(asks: Task, earlier: Task, later: Task, roles: seq<Role>)
    requires IsCast(asks, earlier, later, roles)
    ensures var tasks := Before(asks, earlier, roles).tasks;
      && LeadsNamed(tasks, asks.role, {}, false) == {asks.lead.value}
      && LeadsNamed(tasks, earlier.role, {}, false) == {earlier.lead.value}
  {
    var tasks := Before(asks, earlier, roles).tasks;
    assert asks in tasks && earlier in tasks;
    assert asks in {asks, earlier, later} && earlier in {asks, earlier, later};
  }

  lemma LeadsAfter(asks: Task, earlier: Task, later: Task, roles: seq<Role>)
    requires IsCast(asks, earlier, later, roles)
    ensures var tasks := After(asks, earlier, later, roles).tasks;
      && LeadsNamed(tasks, asks.role, {earlier.id}, false) == {asks.lead.value}
      && LeadsNamed(tasks, later.role, {earlier.id}, false) == {later.lead.value}
  {
    var tasks := After(asks, earlier, later, roles).tasks;
    assert asks in tasks && later in tasks;
    assert asks in {asks, earlier, later} && later in {asks, earlier, later};
  }

  lemma FirstPlanIsAdmitted(asks: Task, earlier: Task, later: Task, roles: seq<Role>)
    requires IsCast(asks, earlier, later, roles)
    ensures FirstAdmitted(State(Before(asks, earlier, roles), {}, {}))
  {
    var plan := Before(asks, earlier, roles);
    assert forall t :: t in plan.tasks ==> t in {asks, earlier, later} && (t == asks || t == earlier);
    assert asks in {asks, earlier, later} && earlier in {asks, earlier, later};
    LeadsBefore(asks, earlier, later, roles);
    LedAlone(plan, asks, {});
    LedAlone(plan, earlier, {});
    LedIsClean(plan, {}, NOTHING_SETTLED, None);
  }

  lemma CancelledIsHistory(asks: Task, earlier: Task, later: Task, roles: seq<Role>)
    requires IsCast(asks, earlier, later, roles)
    ensures var plan, before := After(asks, earlier, later, roles), Before(asks, earlier, roles);
      && History(plan.tasks, Settled({earlier.id}, {}), Some(before)) == {earlier.id}
      && earlier.id in Untouched(before, plan)
  {
    var plan, before := After(asks, earlier, later, roles), Before(asks, earlier, roles);
    assert earlier in plan.tasks && earlier in before.tasks && HeldAs(before, earlier);
  }

  lemma ChangeIsClean(asks: Task, earlier: Task, later: Task, roles: seq<Role>)
    requires IsCast(asks, earlier, later, roles)
    ensures var plan, before := After(asks, earlier, later, roles), Before(asks, earlier, roles);
      WellFormed(plan) && Clean(plan, Untouched(before, plan), Settled({earlier.id}, {}), Some(before), false)
  {
    var plan, before := After(asks, earlier, later, roles), Before(asks, earlier, roles);
    assert forall t :: t in plan.tasks ==> t in {asks, earlier, later} && (t == asks || t == earlier || t == later);
    assert asks in {asks, earlier, later} && later in {asks, earlier, later};
    CancelledIsHistory(asks, earlier, later, roles);
    LeadsAfter(asks, earlier, later, roles);
    LedAlone(plan, asks, {earlier.id});
    LedAlone(plan, later, {earlier.id});
    LedIsClean(plan, Untouched(before, plan), Settled({earlier.id}, {}), Some(before));
  }

  lemma ChangeIsAdmitted(asks: Task, earlier: Task, later: Task, roles: seq<Role>)
    requires IsCast(asks, earlier, later, roles)
    ensures ChangeAdmitted(State(Before(asks, earlier, roles), {}, {earlier.id}), After(asks, earlier, later, roles))
  {
    var s, plan := State(Before(asks, earlier, roles), {}, {earlier.id}), After(asks, earlier, later, roles);
    ChangeIsClean(asks, earlier, later, roles);
    assert s.Over() == Settled({earlier.id}, {});
    assert asks in plan.tasks && earlier in plan.tasks;
    forall t | t in s.plan.tasks ensures t in plan.tasks && IsTask(plan, t.id) {
      assert t == asks || t == earlier;
    }
  }

  lemma FourSteps(a: State, b: State, c: State, d: State, e: State, w: Step, x: Step, y: Step, z: Step)
    requires FirstAdmitted(a) && Next(a, w, b) && Next(b, x, c) && Next(c, y, d) && Next(d, z, e)
    ensures IsRun([a, b, c, d, e], [w, x, y, z])
  {
    var states, steps := [a, b, c, d, e], [w, x, y, z];
    forall i | 0 <= i < 4 ensures Next(states[i], steps[i], states[i + 1]) {
      if i == 0 {
      } else if i == 1 {
      } else if i == 2 {
      } else {
      }
    }
  }

  lemma Settles(plan: Plan, t: Task, verified: set<TaskId>, cancelled: set<TaskId>)
    requires t in plan.tasks && t.id !in verified + cancelled
    ensures Next(State(plan, verified, cancelled), Verify(t.id), State(plan, verified + {t.id}, cancelled))
    ensures Next(State(plan, verified, cancelled), Cancel(t.id), State(plan, verified, cancelled + {t.id}))
  {
    assert IsTask(plan, t.id);
  }

  /**
    Every change is admitted, and yet two leads accept work of one profession: `earlier` is
    cancelled under its lead, `later` is added under another, and the same change reopens
    `earlier`, which depends on the task that asked for it.
   */
  lemma ReopeningSplitsAProfession(asks: Task, earlier: Task, later: Task, roles: seq<Role>)
    returns (states: seq<State>, steps: seq<Step>)
    requires IsCast(asks, earlier, later, roles)
    ensures |states| == 5 && IsRun(states, steps)
    ensures earlier in states[4].plan.tasks && later in states[4].plan.tasks
    ensures {earlier.id, later.id} <= states[4].verified && earlier.role == later.role && earlier.lead != later.lead
  {
    var before, after := Before(asks, earlier, roles), After(asks, earlier, later, roles);
    var first, held, next := State(before, {}, {}), State(before, {}, {earlier.id}), State(after, {}, {});
    var second, last := State(after, {earlier.id}, {}), State(after, {earlier.id, later.id}, {});
    FirstPlanIsAdmitted(asks, earlier, later, roles);
    ChangeIsAdmitted(asks, earlier, later, roles);
    assert earlier in before.tasks && earlier in after.tasks && later in after.tasks;
    Settles(before, earlier, {}, {});
    Settles(after, earlier, {}, {});
    Settles(after, later, {earlier.id}, {});
    assert {} + {earlier.id} == {earlier.id} && {earlier.id} + {later.id} == {earlier.id, later.id};
    assert Changed(held, after, {earlier.id}) == next;
    states := [first, held, next, second, last];
    steps := [Cancel(earlier.id), Change(after, {earlier.id}), Verify(earlier.id), Verify(later.id)];
    FourSteps(first, held, next, second, last, steps[0], steps[1], steps[2], steps[3]);
  }

  /** There are such tasks. */
  lemma CastExists()
    ensures IsCast(Task("a", "builder", Some("x"), Unbound), Task("e", "writer", Some("y"), Unbound),
      Task("l", "writer", Some("z"), Unbound), [Role("x", "X"), Role("y", "Y"), Role("z", "Z")])
  {
    var roles := [Role("x", "X"), Role("y", "Y"), Role("z", "Z")];
    assert roles[0] in roles && roles[1] in roles && roles[2] in roles;
    forall r | r in roles ensures Lower(r.name) != "legacy serial worker" {
      assert |Lower(r.name)| == 1;
    }
  }
}
