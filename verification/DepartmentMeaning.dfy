/**
  What the derivation of departments means, in terms of single tasks, entries and roles:
  which department it yields, when it refuses, and when a profession is split or moved.
 */
module DepartmentMeaning {
  import opened Wrappers
  import opened Collections
  import opened Departments

  // ----- The lead -----

  /** A task of the profession names the lead; `done` says whether it is a settled one. */
  ghost predicate Names(plan: Plan, role: RoleId, settled: set<TaskId>, done: bool, lead: RoleId) {
    exists t :: t in plan.tasks && t.role == role && t.lead == Some(lead) && (t.id in settled <==> done)
  }

  ghost predicate OnlyNamed(plan: Plan, role: RoleId, settled: set<TaskId>, done: bool, lead: RoleId) {
    forall l :: Names(plan, role, settled, done, l) <==> l == lead
  }

  ghost predicate TwoNamed(plan: Plan, role: RoleId, settled: set<TaskId>, done: bool) {
    exists l, m :: l != m && Names(plan, role, settled, done, l) && Names(plan, role, settled, done, m)
  }

  ghost predicate SomeNamed(plan: Plan, role: RoleId, settled: set<TaskId>, done: bool) {
    exists l :: Names(plan, role, settled, done, l)
  }

  /** The only lead that tasks still to be accepted name, or, if they name none, the only one that settled ones name. */
  ghost predicate IsLeadOf(plan: Plan, role: RoleId, settled: set<TaskId>, lead: RoleId) {
    OnlyNamed(plan, role, settled, !SomeNamed(plan, role, settled, false), lead)
  }

  /** A settled task stays with the lead it names. */
  predicate KeepsOwn(task: Task, settled: set<TaskId>) {
    task.lead.Some? && task.id in settled
  }

  ghost predicate Judges(plan: Plan, task: Task, settled: set<TaskId>, lead: RoleId) {
    if KeepsOwn(task, settled) then task.lead == Some(lead) else IsLeadOf(plan, task.role, settled, lead)
  }

  // ----- The department of a lead -----

  predicate IsEntry(plan: Plan, lead: RoleId, i: int) {
    0 <= i < |plan.departments| && plan.departments[i].lead == lead
  }

  ghost predicate Claims(plan: Plan, lead: RoleId, department: string) {
    exists t :: t in plan.tasks && t.lead == Some(lead) && t.binding == Bound(department)
  }

  /** The id of the only declared entry for the lead; without one, the only one its tasks bind; without any, its own. */
  ghost predicate IsDepartmentOf(plan: Plan, lead: RoleId, id: string) {
    if exists i :: IsEntry(plan, lead, i) then
      exists i :: (forall j :: IsEntry(plan, lead, j) <==> j == i) && plan.departments[i].id == id
    else if exists d :: Claims(plan, lead, d) then forall d :: Claims(plan, lead, d) <==> d == id
    else id == lead
  }

  lemma NamedMeans(plan: Plan, role: RoleId, settled: set<TaskId>, done: bool, lead: RoleId)
    ensures lead in LeadsNamed(plan.tasks, role, settled, done) <==> Names(plan, role, settled, done, lead)
  {
    if lead in LeadsNamed(plan.tasks, role, settled, done) {
      var t :| t in plan.tasks && t.role == role && t.lead.Some? && (t.id in settled) == done && t.lead.value == lead;
      assert t.lead == Some(lead);
    }
  }

  lemma PickTwo(s: set<string>) returns (x: string, y: string)
    requires |s| > 1
    ensures x != y && x in s && y in s
  {
    x :| x in s;
    assert s == {x} + (s - {x});
    y :| y in s - {x};
  }

  lemma TwoIn(s: set<string>, x: string, y: string)
    requires x != y && x in s && y in s
    ensures |s| > 1
  {
    SubsetSize({x, y}, s);
  }

  lemma SomeMeans(plan: Plan, role: RoleId, settled: set<TaskId>, done: bool)
    ensures LeadsNamed(plan.tasks, role, settled, done) == {} <==> !SomeNamed(plan, role, settled, done)
  {
    var named := LeadsNamed(plan.tasks, role, settled, done);
    if l :| l in named {
      NamedMeans(plan, role, settled, done, l);
    }
    if l :| Names(plan, role, settled, done, l) {
      NamedMeans(plan, role, settled, done, l);
    }
  }

  lemma TwoMeans(plan: Plan, role: RoleId, settled: set<TaskId>, done: bool)
    ensures |LeadsNamed(plan.tasks, role, settled, done)| > 1 <==> TwoNamed(plan, role, settled, done)
  {
    var named := LeadsNamed(plan.tasks, role, settled, done);
    if |named| > 1 {
      var x, y := PickTwo(named);
      NamedMeans(plan, role, settled, done, x);
      NamedMeans(plan, role, settled, done, y);
    }
    if l, m :| l != m && Names(plan, role, settled, done, l) && Names(plan, role, settled, done, m) {
      NamedMeans(plan, role, settled, done, l);
      NamedMeans(plan, role, settled, done, m);
      TwoIn(named, l, m);
    }
  }

  lemma OnlyMeans(plan: Plan, role: RoleId, settled: set<TaskId>, done: bool, lead: RoleId)
    ensures LeadsNamed(plan.tasks, role, settled, done) == {lead} <==> OnlyNamed(plan, role, settled, done, lead)
  {
    var named := LeadsNamed(plan.tasks, role, settled, done);
    if named == {lead} {
      forall l ensures Names(plan, role, settled, done, l) <==> l == lead {
        NamedMeans(plan, role, settled, done, l);
      }
    }
    if OnlyNamed(plan, role, settled, done, lead) {
      forall l ensures l in named <==> l == lead {
        NamedMeans(plan, role, settled, done, l);
      }
    }
  }

  lemma SingletonOnly(s: set<string>, x: string)
    ensures |s| == 1 && TheOnly(s) == x <==> s == {x}
  {
  }

  lemma RoleLeadMeans(plan: Plan, role: RoleId, settled: set<TaskId>)
    ensures forall lead :: RoleLead(plan, role, settled) == Ok(lead) <==> IsLeadOf(plan, role, settled, lead)
    ensures RoleLead(plan, role, settled) == Err(NoLead) <==>
      !SomeNamed(plan, role, settled, false) && !SomeNamed(plan, role, settled, true)
    ensures RoleLead(plan, role, settled) == Err(SeveralLeads) <==>
      TwoNamed(plan, role, settled, !SomeNamed(plan, role, settled, false))
    ensures RoleLead(plan, role, settled).Err? ==> RoleLead(plan, role, settled).error in {NoLead, SeveralLeads}
  {
    var done := !SomeNamed(plan, role, settled, false);
    SomeMeans(plan, role, settled, false);
    SomeMeans(plan, role, settled, true);
    TwoMeans(plan, role, settled, done);
    forall lead ensures RoleLead(plan, role, settled) == Ok(lead) <==> IsLeadOf(plan, role, settled, lead) {
      OnlyMeans(plan, role, settled, done, lead);
      SingletonOnly(LeadsNamed(plan.tasks, role, settled, done), lead);
    }
  }

  lemma {:induction false} EntriesMean(departments: seq<Declared>, lead: RoleId)
    ensures |DeclaredFor(departments, lead)| == 0 <==>
      forall i :: 0 <= i < |departments| ==> departments[i].lead != lead
    ensures |DeclaredFor(departments, lead)| > 1 <==>
      exists i, j :: 0 <= i < j < |departments| && departments[i].lead == lead && departments[j].lead == lead
    ensures |DeclaredFor(departments, lead)| == 1 ==>
      forall i :: 0 <= i < |departments| && departments[i].lead == lead ==>
        departments[i] == DeclaredFor(departments, lead)[0]
  {
    if departments != [] {
      var rest := departments[1..];
      EntriesMean(rest, lead);
      forall i | 0 < i < |departments| ensures departments[i] == rest[i - 1] {
      }
      if i, j :| 0 <= i < j < |rest| && rest[i].lead == lead && rest[j].lead == lead {
        assert departments[i + 1].lead == lead && departments[j + 1].lead == lead;
      }
      if departments[0].lead == lead && |DeclaredFor(rest, lead)| > 0 {
        var j :| 0 <= j < |rest| && rest[j].lead == lead;
        assert departments[j + 1].lead == lead;
      }
      if i, j :| 0 <= i < j < |departments| && departments[i].lead == lead && departments[j].lead == lead {
        assert rest[j - 1].lead == lead;
      }
    }
  }

  lemma ClaimsMean(plan: Plan, lead: RoleId, department: string)
    ensures department in BoundDepartments(plan.tasks, lead) <==> Claims(plan, lead, department)
  {
    if department in BoundDepartments(plan.tasks, lead) {
      var t :| t in plan.tasks && t.lead == Some(lead) && t.binding.Bound? && t.binding.department == department;
      assert t.binding == Bound(department);
    }
  }

  ghost predicate TwoEntries(plan: Plan, lead: RoleId) {
    exists i, j :: i < j && IsEntry(plan, lead, i) && IsEntry(plan, lead, j)
  }

  ghost predicate TwoClaimed(plan: Plan, lead: RoleId) {
    && (forall i :: !IsEntry(plan, lead, i))
    && exists d, e :: d != e && Claims(plan, lead, d) && Claims(plan, lead, e)
  }

  lemma DeclaredDepartment(plan: Plan, lead: RoleId, id: string)
    requires |DeclaredFor(plan.departments, lead)| > 0
    ensures DepartmentForLead(plan, lead) == Ok(Department(id, lead)) <==> IsDepartmentOf(plan, lead, id)
    ensures DepartmentForLead(plan, lead) == Err(SeveralDeclared) <==> TwoEntries(plan, lead)
    ensures DepartmentForLead(plan, lead) != Err(SeveralBound) && exists i :: IsEntry(plan, lead, i)
  {
    EntriesMean(plan.departments, lead);
    var i :| 0 <= i < |plan.departments| && plan.departments[i].lead == lead;
    assert IsEntry(plan, lead, i);
    if j, k :| 0 <= j < k < |plan.departments| && plan.departments[j].lead == lead && plan.departments[k].lead == lead {
      assert IsEntry(plan, lead, j) && IsEntry(plan, lead, k);
    } else {
      forall j ensures IsEntry(plan, lead, j) <==> j == i {
      }
    }
  }

  lemma ClaimedTwice(plan: Plan, lead: RoleId)
    ensures |BoundDepartments(plan.tasks, lead)| > 1 <==>
      exists d, e :: d != e && Claims(plan, lead, d) && Claims(plan, lead, e)
  {
    var bound := BoundDepartments(plan.tasks, lead);
    if |bound| > 1 {
      var x, y := PickTwo(bound);
      ClaimsMean(plan, lead, x);
      ClaimsMean(plan, lead, y);
    }
    if d, e :| d != e && Claims(plan, lead, d) && Claims(plan, lead, e) {
      ClaimsMean(plan, lead, d);
      ClaimsMean(plan, lead, e);
      TwoIn(bound, d, e);
    }
  }

  lemma ClaimedOnce(plan: Plan, lead: RoleId, id: string)
    ensures BoundDepartments(plan.tasks, lead) == {id} <==> forall d :: Claims(plan, lead, d) <==> d == id
    ensures BoundDepartments(plan.tasks, lead) == {} <==> forall d :: !Claims(plan, lead, d)
  {
    forall d ensures d in BoundDepartments(plan.tasks, lead) <==> Claims(plan, lead, d) {
      ClaimsMean(plan, lead, d);
    }
    if forall d :: Claims(plan, lead, d) <==> d == id {
      assert BoundDepartments(plan.tasks, lead) == {id};
    }
  }

  lemma BoundDepartment(plan: Plan, lead: RoleId, id: string)
    requires |DeclaredFor(plan.departments, lead)| == 0
    ensures DepartmentForLead(plan, lead) == Ok(Department(id, lead)) <==> IsDepartmentOf(plan, lead, id)
    ensures DepartmentForLead(plan, lead) == Err(SeveralBound) <==> TwoClaimed(plan, lead)
    ensures DepartmentForLead(plan, lead) != Err(SeveralDeclared) && forall i :: !IsEntry(plan, lead, i)
  {
    EntriesMean(plan.departments, lead);
    ClaimedTwice(plan, lead);
    ClaimedOnce(plan, lead, id);
    SingletonOnly(BoundDepartments(plan.tasks, lead), id);
  }

  /** Which department a lead heads, and when that cannot be said. */
  lemma DepartmentMeans(plan: Plan, lead: RoleId)
    ensures forall id :: DepartmentForLead(plan, lead) == Ok(Department(id, lead)) <==> IsDepartmentOf(plan, lead, id)
    ensures DepartmentForLead(plan, lead) == Err(SeveralDeclared) <==> TwoEntries(plan, lead)
    ensures DepartmentForLead(plan, lead) == Err(SeveralBound) <==> TwoClaimed(plan, lead)
    ensures match DepartmentForLead(plan, lead)
      case Ok(department) => department.lead == lead
      case Err(e) => e == SeveralDeclared || e == SeveralBound
  {
    forall id ensures DepartmentForLead(plan, lead) == Ok(Department(id, lead)) <==> IsDepartmentOf(plan, lead, id) {
      if |DeclaredFor(plan.departments, lead)| > 0 {
        DeclaredDepartment(plan, lead, id);
      } else {
        BoundDepartment(plan, lead, id);
      }
    }
    if |DeclaredFor(plan.departments, lead)| > 0 {
      DeclaredDepartment(plan, lead, "");
    } else {
      BoundDepartment(plan, lead, "");
    }
  }

  // ----- The department of a task -----

  predicate IsRole(plan: Plan, role: RoleId) {
    exists r :: r in plan.roles && r.id == role
  }

  /** A lead that may judge the task: the one that does, of another profession, and a role of the plan. */
  ghost predicate MayJudge(plan: Plan, task: Task, settled: set<TaskId>, lead: RoleId) {
    && Judges(plan, task, settled, lead) && (task.lead.Some? ==> task.lead.value == lead)
    && lead != task.role && IsRole(plan, lead)
  }

  /** Which department is derived for a task. */
  lemma DerivesExactly(plan: Plan, task: Task, settled: set<TaskId>, id: string, lead: RoleId)
    ensures Derive(plan, task, settled) == Ok(Department(id, lead)) <==>
      && MayJudge(plan, task, settled, lead) && IsDepartmentOf(plan, lead, id)
      && (task.binding == Unbound || task.binding == Bound(id))
  {
    RoleLeadMeans(plan, task.role, settled);
    DepartmentMeans(plan, lead);
    assert lead in RoleIds(plan.roles) <==> IsRole(plan, lead);
  }

  lemma RefusalWithLead(plan: Plan, task: Task, settled: set<TaskId>, lead: RoleId, e: LeadError)
    requires if KeepsOwn(task, settled) then task.lead == Some(lead)
             else RoleLead(plan, task.role, settled) == Ok(lead)
    ensures Judges(plan, task, settled, lead)
    ensures Derive(plan, task, settled) == Err(e) <==>
      match e
      case NoLead => false
      case SeveralLeads => false
      case NamesAnotherLead => task.lead.Some? && task.lead.value != lead
      case OwnProfession => (task.lead.Some? ==> task.lead.value == lead) && lead == task.role
      case UnknownRole => (task.lead.Some? ==> task.lead.value == lead) && lead != task.role && !IsRole(plan, lead)
      case SeveralDeclared => MayJudge(plan, task, settled, lead) && TwoEntries(plan, lead)
      case SeveralBound => MayJudge(plan, task, settled, lead) && TwoClaimed(plan, lead)
      case BadBinding =>
        MayJudge(plan, task, settled, lead) && task.binding == Refused && exists id :: IsDepartmentOf(plan, lead, id)
      case OtherDepartment =>
        && MayJudge(plan, task, settled, lead) && task.binding.Bound?
        && exists id :: IsDepartmentOf(plan, lead, id) && task.binding.department != id
  {
    RoleLeadMeans(plan, task.role, settled);
    DepartmentMeans(plan, lead);
    assert lead in RoleIds(plan.roles) <==> IsRole(plan, lead);
  }

  /** When the derivation is refused, and why. */
  lemma RefusesExactly(plan: Plan, task: Task, settled: set<TaskId>, e: LeadError)
    ensures Derive(plan, task, settled) == Err(e) <==>
      match e
      case NoLead =>
        && !KeepsOwn(task, settled)
        && !SomeNamed(plan, task.role, settled, false) && !SomeNamed(plan, task.role, settled, true)
      case SeveralLeads =>
        && !KeepsOwn(task, settled)
        && TwoNamed(plan, task.role, settled, !SomeNamed(plan, task.role, settled, false))
      case NamesAnotherLead =>
        exists lead :: Judges(plan, task, settled, lead) && task.lead.Some? && task.lead.value != lead
      case OwnProfession => Judges(plan, task, settled, task.role) && (task.lead.Some? ==> task.lead.value == task.role)
      case UnknownRole =>
        exists lead :: Judges(plan, task, settled, lead) && (task.lead.Some? ==> task.lead.value == lead)
          && lead != task.role && !IsRole(plan, lead)
      case SeveralDeclared => exists lead :: MayJudge(plan, task, settled, lead) && TwoEntries(plan, lead)
      case SeveralBound => exists lead :: MayJudge(plan, task, settled, lead) && TwoClaimed(plan, lead)
      case BadBinding =>
        exists lead, id :: MayJudge(plan, task, settled, lead) && IsDepartmentOf(plan, lead, id)
          && task.binding == Refused
      case OtherDepartment =>
        exists lead, id :: MayJudge(plan, task, settled, lead) && IsDepartmentOf(plan, lead, id)
          && task.binding.Bound? && task.binding.department != id
  {
    RoleLeadMeans(plan, task.role, settled);
    if KeepsOwn(task, settled) {
      RefusalWithLead(plan, task, settled, task.lead.value, e);
    } else if RoleLead(plan, task.role, settled).Ok? {
      RefusalWithLead(plan, task, settled, RoleLead(plan, task.role, settled).value, e);
    }
  }

  // ----- Split and moved professions -----

  /** The plan in force holds the settled task as this plan does. */
  ghost predicate IsHistory(plan: Plan, settled: Settled, inherited: Option<Plan>, id: TaskId) {
    && inherited.Some? && id in settled.ids
    && exists t, before :: t in plan.tasks && before in inherited.value.tasks
         && t.id == id && before.id == id && before.lead == t.lead
  }

  lemma HistoryMeans(plan: Plan, settled: Settled, inherited: Option<Plan>, id: TaskId)
    ensures id in History(plan.tasks, settled, inherited) <==> IsHistory(plan, settled, inherited, id)
  {
    if id in History(plan.tasks, settled, inherited) {
      var t :| t in plan.tasks && t.id in settled.ids && HeldAs(inherited.value, t) && t.id == id;
      var before :| before in inherited.value.tasks && before.id == t.id && before.lead == t.lead;
      assert before.id == id;
    }
    if IsHistory(plan, settled, inherited, id) {
      var t, before :| t in plan.tasks && before in inherited.value.tasks
        && t.id == id && before.id == id && before.lead == t.lead;
      assert HeldAs(inherited.value, t);
    }
  }

  /** A task that is no history names the lead for the profession. */
  ghost predicate StillNames(plan: Plan, role: RoleId, settled: Settled, inherited: Option<Plan>, lead: RoleId) {
    exists t :: t in plan.tasks && t.role == role && t.lead == Some(lead) && !IsHistory(plan, settled, inherited, t.id)
  }

  lemma StillNamedMeans(plan: Plan, role: RoleId, settled: Settled, inherited: Option<Plan>, lead: RoleId)
    ensures lead in NamedBy(plan.tasks, role, History(plan.tasks, settled, inherited)) <==>
      StillNames(plan, role, settled, inherited, lead)
  {
    var history := History(plan.tasks, settled, inherited);
    NamedMeans(plan, role, history, false, lead);
    forall id ensures id in history <==> IsHistory(plan, settled, inherited, id) {
      HistoryMeans(plan, settled, inherited, id);
    }
  }

  /** A profession is split when tasks outside its history name two leads. */
  lemma SplitExactly(plan: Plan, role: RoleId, settled: Settled, inherited: Option<Plan>)
    ensures Split(plan, role, settled, inherited) <==>
      exists l, m :: l != m
        && StillNames(plan, role, settled, inherited, l) && StillNames(plan, role, settled, inherited, m)
  {
    var named := NamedBy(plan.tasks, role, History(plan.tasks, settled, inherited));
    if |named| > 1 {
      var x, y := PickTwo(named);
      StillNamedMeans(plan, role, settled, inherited, x);
      StillNamedMeans(plan, role, settled, inherited, y);
    }
    if l, m :|
      l != m && StillNames(plan, role, settled, inherited, l) && StillNames(plan, role, settled, inherited, m)
    {
      StillNamedMeans(plan, role, settled, inherited, l);
      StillNamedMeans(plan, role, settled, inherited, m);
      TwoIn(named, l, m);
    }
  }

  /** A lead accepted work of the profession. */
  ghost predicate Accepted(plan: Plan, role: RoleId, settled: Settled, inherited: Option<Plan>, lead: RoleId) {
    exists t :: t in plan.tasks && t.role == role && t.lead == Some(lead) && CanLead(t.lead, role, plan.roles)
      && IsHistory(plan, settled, inherited, t.id) && t.id in settled.accepted
  }

  /** The plan in force names the lead for a task of the profession that is still to be accepted. */
  ghost predicate Kept(plan: Plan, role: RoleId, settled: Settled, inherited: Option<Plan>, lead: RoleId) {
    && inherited.Some?
    && exists t :: t in inherited.value.tasks && t.role == role && t.lead == Some(lead)
         && CanLead(t.lead, role, plan.roles) && t.id !in settled.ids
  }

  lemma AcceptedMeans(plan: Plan, role: RoleId, settled: Settled, inherited: Option<Plan>, lead: RoleId)
    ensures lead in AcceptedLeads(plan.tasks, role, History(plan.tasks, settled, inherited), settled, plan.roles) <==>
      Accepted(plan, role, settled, inherited, lead)
  {
    var history := History(plan.tasks, settled, inherited);
    forall id ensures id in history <==> IsHistory(plan, settled, inherited, id) {
      HistoryMeans(plan, settled, inherited, id);
    }
    if lead in AcceptedLeads(plan.tasks, role, history, settled, plan.roles) {
      var t :| t in plan.tasks && t.role == role && t.id in history && t.id in settled.accepted
        && CanLead(t.lead, role, plan.roles) && t.lead.value == lead;
      assert t.lead == Some(lead);
    }
  }

  lemma KeptMeans(plan: Plan, role: RoleId, settled: Settled, inherited: Option<Plan>, lead: RoleId)
    ensures lead in KeptLeads(inherited, role, settled, plan.roles) <==> Kept(plan, role, settled, inherited, lead)
  {
    if lead in KeptLeads(inherited, role, settled, plan.roles) {
      var t :| t in inherited.value.tasks && t.role == role && t.id !in settled.ids
        && CanLead(t.lead, role, plan.roles) && t.lead.value == lead;
      assert t.lead == Some(lead);
    }
  }

  /** The lead is the only one that tasks outside the history name, and the profession never had it. */
  ghost predicate NewLead(plan: Plan, role: RoleId, settled: Settled, inherited: Option<Plan>, lead: RoleId) {
    && (forall l :: StillNames(plan, role, settled, inherited, l) <==> l == lead)
    && !Accepted(plan, role, settled, inherited, lead) && !Kept(plan, role, settled, inherited, lead)
  }

  lemma StillOnlyMeans(plan: Plan, role: RoleId, settled: Settled, inherited: Option<Plan>, lead: RoleId)
    ensures NamedBy(plan.tasks, role, History(plan.tasks, settled, inherited)) == {lead} <==>
      forall l :: StillNames(plan, role, settled, inherited, l) <==> l == lead
  {
    var named := NamedBy(plan.tasks, role, History(plan.tasks, settled, inherited));
    forall l ensures l in named <==> StillNames(plan, role, settled, inherited, l) {
      StillNamedMeans(plan, role, settled, inherited, l);
    }
    if forall l :: StillNames(plan, role, settled, inherited, l) <==> l == lead {
      assert named == {lead};
    }
  }

  lemma SomeAccepted(plan: Plan, role: RoleId, settled: Settled, inherited: Option<Plan>)
    ensures AcceptedLeads(plan.tasks, role, History(plan.tasks, settled, inherited), settled, plan.roles) != {} <==>
      exists l :: Accepted(plan, role, settled, inherited, l)
  {
    var accepted := AcceptedLeads(plan.tasks, role, History(plan.tasks, settled, inherited), settled, plan.roles);
    if l :| l in accepted {
      AcceptedMeans(plan, role, settled, inherited, l);
    }
    if l :| Accepted(plan, role, settled, inherited, l) {
      AcceptedMeans(plan, role, settled, inherited, l);
    }
  }

  lemma MovedTo(plan: Plan, role: RoleId, settled: Settled, inherited: Option<Plan>, lead: RoleId)
    requires NamedBy(plan.tasks, role, History(plan.tasks, settled, inherited)) == {lead}
    ensures Moved(plan, role, settled, inherited) <==>
      (exists l :: Accepted(plan, role, settled, inherited, l)) && NewLead(plan, role, settled, inherited, lead)
  {
    StillOnlyMeans(plan, role, settled, inherited, lead);
    SomeAccepted(plan, role, settled, inherited);
    AcceptedMeans(plan, role, settled, inherited, lead);
    KeptMeans(plan, role, settled, inherited, lead);
  }

  /**
    A profession is moved when it has accepted work, and the one lead its other tasks name
    neither accepted work of it nor leads what the plan in force has still to accept.
   */
  lemma MovedExactly(plan: Plan, role: RoleId, settled: Settled, inherited: Option<Plan>)
    ensures Moved(plan, role, settled, inherited) <==>
      && (exists l :: Accepted(plan, role, settled, inherited, l))
      && (exists lead :: NewLead(plan, role, settled, inherited, lead))
  {
    if Moved(plan, role, settled, inherited) {
      MovedTo(plan, role, settled, inherited,
        TheOnly(NamedBy(plan.tasks, role, History(plan.tasks, settled, inherited))));
    }
    if lead :| NewLead(plan, role, settled, inherited, lead) {
      StillOnlyMeans(plan, role, settled, inherited, lead);
      MovedTo(plan, role, settled, inherited, lead);
    }
  }

  // ----- The other issues -----

  /** Each task is missing a lead, names itself, names no role of the plan, or has none of these issues. */
  lemma EachTaskIsSorted(plan: Plan, t: Task, exempt: set<TaskId>, settled: Settled, inherited: Option<Plan>,
    reportUnknown: bool)
    requires t in plan.tasks && forall u :: u in plan.tasks && u.id == t.id ==> u == t
    ensures IsIssue(plan, exempt, settled, inherited, reportUnknown, MissingLead(t.id)) <==>
      t.id !in exempt && t.lead == None
    ensures IsIssue(plan, exempt, settled, inherited, reportUnknown, OwnLead(t.id)) <==>
      t.id !in exempt && t.lead == Some(t.role)
    ensures IsIssue(plan, exempt, settled, inherited, reportUnknown, UnknownLead(t.id)) <==>
      && t.id !in exempt && reportUnknown
      && t.lead.Some? && t.lead.value != t.role && !IsRole(plan, t.lead.value)
  {
    assert t.lead.Some? ==> (t.lead.value in RoleIds(plan.roles) <==> IsRole(plan, t.lead.value));
  }

  /** No class of issues before the last one speaks of the task or of its profession. */
  ghost predicate LeftForLast(plan: Plan, t: Task, exempt: set<TaskId>, settled: Settled, inherited: Option<Plan>) {
    && t in plan.tasks && t.id !in exempt
    && (forall u :: u in plan.tasks && u.id == t.id ==>
         u.lead.Some? && u.lead.value != u.role && IsRole(plan, u.lead.value))
    && !Split(plan, t.role, settled, inherited) && !Moved(plan, t.role, settled, inherited)
    && (exists l :: StillNames(plan, t.role, settled, inherited, l))
    && (forall l :: StillNames(plan, t.role, settled, inherited, l) ==> l != t.role && IsRole(plan, l))
  }

  lemma LeftForLastMeans(plan: Plan, t: Task, exempt: set<TaskId>, settled: Settled, inherited: Option<Plan>)
    ensures CheckedLast(plan, t, exempt, settled, inherited) <==> LeftForLast(plan, t, exempt, settled, inherited)
  {
    var named := NamedBy(plan.tasks, t.role, History(plan.tasks, settled, inherited));
    forall l ensures l in named <==> StillNames(plan, t.role, settled, inherited, l) {
      StillNamedMeans(plan, t.role, settled, inherited, l);
    }
    forall l ensures l in RoleIds(plan.roles) <==> IsRole(plan, l) {
    }
    assert named != {} <==> exists l :: l in named;
  }

  /** Which tasks are reported as underivable, and why. */
  lemma UnderivableExactly(plan: Plan, exempt: set<TaskId>, settled: Settled, inherited: Option<Plan>,
    reportUnknown: bool, id: TaskId, e: LeadError)
    ensures IsIssue(plan, exempt, settled, inherited, reportUnknown, Underivable(id, e)) <==>
      exists t: Task :: t.id == id && LeftForLast(plan, t, exempt, settled, inherited)
        && Derive(plan, t, History(plan.tasks, settled, inherited)) == Err(e)
  {
    forall t: Task
      ensures FailsLast(plan, t, exempt, settled, inherited, e) <==>
        LeftForLast(plan, t, exempt, settled, inherited)
          && Derive(plan, t, History(plan.tasks, settled, inherited)) == Err(e)
    {
      LeftForLastMeans(plan, t, exempt, settled, inherited);
    }
  }
}
