/** The loops of `department_runtime.py`: deriving a department and listing every lead issue of a plan. */
module DepartmentValidator {
  import opened Wrappers
  import opened Collections
  import opened Departments

  method PickOnly(s: set<string>) returns (x: string)
    requires |s| == 1
    ensures x == TheOnly(s)
  {
    x :| x in s;
    assert s == {TheOnly(s)};
  }

  lemma NamedAdds(tasks: seq<Task>, i: nat, role: RoleId, settled: set<TaskId>, done: bool)
    requires i < |tasks|
    ensures LeadsNamed(tasks[..i + 1], role, settled, done) == LeadsNamed(tasks[..i], role, settled, done) +
      if tasks[i].role == role && tasks[i].lead.Some? && (tasks[i].id in settled) == done then {tasks[i].lead.value}
        else {}
  {
    assert tasks[..i + 1] == tasks[..i] + [tasks[i]];
  }

  /** `role_lead`: the leads of live and of settled tasks, collected apart. */
  method RoleLeadOf(plan: Plan, role: RoleId, settled: set<TaskId>) returns (r: Result<RoleId, LeadError>)
    ensures r == RoleLead(plan, role, settled)
  {
    var live: set<RoleId>, done: set<RoleId> := {}, {};
    for i := 0 to |plan.tasks|
      invariant live == LeadsNamed(plan.tasks[..i], role, settled, false)
      invariant done == LeadsNamed(plan.tasks[..i], role, settled, true)
    {
      NamedAdds(plan.tasks, i, role, settled, false);
      NamedAdds(plan.tasks, i, role, settled, true);
      var t := plan.tasks[i];
      if t.role == role && t.lead.Some? {
        if t.id in settled {
          done := done + {t.lead.value};
        } else {
          live := live + {t.lead.value};
        }
      }
    }
    assert plan.tasks[..|plan.tasks|] == plan.tasks;
    var leads := if live != {} then live else done;
    if leads == {} {
      return Err(NoLead);
    }
    if |leads| > 1 {
      return Err(SeveralLeads);
    }
    var lead := PickOnly(leads);
    return Ok(lead);
  }

  /** `_department_for_lead` */
  method DepartmentFor(plan: Plan, lead: RoleId) returns (r: Result<Department, LeadError>)
    ensures r == DepartmentForLead(plan, lead)
  {
    var declared := DeclaredFor(plan.departments, lead);
    if |declared| > 1 {
      return Err(SeveralDeclared);
    }
    if |declared| == 1 {
      return Ok(Department(declared[0].id, lead));
    }
    var bound: set<string> := {};
    for i := 0 to |plan.tasks|
      invariant bound == BoundDepartments(plan.tasks[..i], lead)
    {
      assert plan.tasks[..i + 1] == plan.tasks[..i] + [plan.tasks[i]];
      var t := plan.tasks[i];
      if t.lead == Some(lead) && t.binding.Bound? {
        bound := bound + {t.binding.department};
      }
    }
    assert plan.tasks[..|plan.tasks|] == plan.tasks;
    if |bound| > 1 {
      return Err(SeveralBound);
    }
    var id := lead;
    if |bound| == 1 {
      id := PickOnly(bound);
    }
    return Ok(Department(id, lead));
  }

  /** `derive_task_department` */
  method DeriveTaskDepartment(plan: Plan, task: Task, settled: set<TaskId>) returns (r: Result<Department, LeadError>)
    ensures r == Derive(plan, task, settled)
  {
    var lead: Result<RoleId, LeadError>;
    if task.lead.Some? && task.id in settled {
      lead := Ok(task.lead.value);
    } else {
      lead := RoleLeadOf(plan, task.role, settled);
    }
    if lead.Err? {
      return Err(lead.error);
    }
    if task.lead.Some? && task.lead.value != lead.value {
      return Err(NamesAnotherLead);
    }
    if lead.value == task.role {
      return Err(OwnProfession);
    }
    if lead.value !in RoleIds(plan.roles) {
      return Err(UnknownRole);
    }
    var department := DepartmentFor(plan, lead.value);
    if department.Err? {
      return department;
    }
    if task.binding.Refused? {
      return Err(BadBinding);
    }
    if task.binding.Bound? && task.binding.department != department.value.id {
      return Err(OtherDepartment);
    }
    return department;
  }

  /** `_history` */
  method HistoryOf(tasks: seq<Task>, settled: Settled, inherited: Option<Plan>) returns (history: set<TaskId>)
    ensures history == History(tasks, settled, inherited)
  {
    history := {};
    if inherited.None? {
      return;
    }
    history := set t | t in tasks && t.id in settled.ids
      && (exists before :: before in inherited.value.tasks && before.id == t.id && before.lead == t.lead) :: t.id;
  }

  /** The first loop of the validator: leads by profession, and the tasks that misname theirs. */
  method GroupByRole(tasks: seq<Task>, history: set<TaskId>) returns (byRole: map<RoleId, set<RoleId>>)
    ensures forall role :: role in byRole <==> NamedBy(tasks, role, history) != {}
    ensures forall role :: role in byRole ==> byRole[role] == NamedBy(tasks, role, history)
  {
    byRole := map[];
    for i := 0 to |tasks|
      invariant forall role :: role in byRole <==> LeadsNamed(tasks[..i], role, history, false) != {}
      invariant forall role :: role in byRole ==> byRole[role] == LeadsNamed(tasks[..i], role, history, false)
    {
      var t := tasks[i];
      forall role ensures LeadsNamed(tasks[..i + 1], role, history, false) ==
        LeadsNamed(tasks[..i], role, history, false) +
        if t.role == role && t.lead.Some? && t.id !in history then {t.lead.value} else {}
      {
        NamedAdds(tasks, i, role, history, false);
      }
      if t.lead.Some? && t.id !in history {
        byRole := byRole[t.role := (if t.role in byRole then byRole[t.role] else {}) + {t.lead.value}];
      }
    }
    assert tasks[..|tasks|] == tasks;
  }

  ghost predicate IsMisnaming(plan: Plan, k: nat, exempt: set<TaskId>, reportUnknown: bool, x: Issue)
    requires k < |plan.tasks|
  {
    var t := plan.tasks[k];
    t.id !in exempt &&
      match x
      case MissingLead(id) => t.id == id && t.lead.None?
      case OwnLead(id) => t.id == id && t.lead == Some(t.role)
      case UnknownLead(id) => t.id == id && reportUnknown && NamesUnknown(t, plan.roles)
      case _ => false
  }

  ghost predicate MisnamedUpTo(plan: Plan, n: nat, exempt: set<TaskId>, reportUnknown: bool, x: Issue)
    requires n <= |plan.tasks|
  {
    exists k :: 0 <= k < n && IsMisnaming(plan, k, exempt, reportUnknown, x)
  }

  ghost predicate NamedUpTo(plan: Plan, n: nat, exempt: set<TaskId>, id: TaskId)
    requires n <= |plan.tasks|
  {
    exists k :: 0 <= k < n && plan.tasks[k].id == id && id !in exempt && Misnames(plan.tasks[k], plan.roles)
  }

  lemma MisnamedGrows(plan: Plan, n: nat, exempt: set<TaskId>, reportUnknown: bool, x: Issue)
    requires n < |plan.tasks|
    ensures MisnamedUpTo(plan, n + 1, exempt, reportUnknown, x) <==>
            MisnamedUpTo(plan, n, exempt, reportUnknown, x) || IsMisnaming(plan, n, exempt, reportUnknown, x)
  {
    if MisnamedUpTo(plan, n, exempt, reportUnknown, x) {
      var k :| 0 <= k < n && IsMisnaming(plan, k, exempt, reportUnknown, x);
      assert 0 <= k < n + 1;
    }
  }

  lemma NamedGrows(plan: Plan, n: nat, exempt: set<TaskId>, id: TaskId)
    requires n < |plan.tasks|
    ensures NamedUpTo(plan, n + 1, exempt, id) <==>
            NamedUpTo(plan, n, exempt, id)
              || (plan.tasks[n].id == id && id !in exempt && Misnames(plan.tasks[n], plan.roles))
  {
  }

  /** The rest of the first loop: tasks that name no lead, their own profession, or no role of the plan. */
  method MisnamedTasks(plan: Plan, exempt: set<TaskId>, reportUnknown: bool)
    returns (found: seq<Issue>, named: set<TaskId>)
    ensures forall x :: x in found <==> MisnamedUpTo(plan, |plan.tasks|, exempt, reportUnknown, x)
    ensures forall id :: id in named <==> NamedUpTo(plan, |plan.tasks|, exempt, id)
  {
    found, named := [], {};
    for i := 0 to |plan.tasks|
      invariant forall x :: x in found <==> MisnamedUpTo(plan, i, exempt, reportUnknown, x)
      invariant forall id :: id in named <==> NamedUpTo(plan, i, exempt, id)
    {
      var t := plan.tasks[i];
      forall x ensures MisnamedUpTo(plan, i + 1, exempt, reportUnknown, x) <==>
                       MisnamedUpTo(plan, i, exempt, reportUnknown, x) || IsMisnaming(plan, i, exempt, reportUnknown, x)
      {
        MisnamedGrows(plan, i, exempt, reportUnknown, x);
      }
      forall id ensures NamedUpTo(plan, i + 1, exempt, id) <==>
                        NamedUpTo(plan, i, exempt, id) || (t.id == id && id !in exempt && Misnames(t, plan.roles))
      {
        NamedGrows(plan, i, exempt, id);
      }
      ghost var before := found;
      if t.id !in exempt && Misnames(t, plan.roles) {
        named := named + {t.id};
        if t.lead.None? {
          found := found + [MissingLead(t.id)];
        } else if t.lead.value == t.role {
          found := found + [OwnLead(t.id)];
        } else if reportUnknown {
          found := found + [UnknownLead(t.id)];
        }
      }
      assert forall x :: x in found <==> x in before || IsMisnaming(plan, i, exempt, reportUnknown, x);
    }
  }

  lemma MisnamingIsIssue(plan: Plan, exempt: set<TaskId>, reportUnknown: bool, x: Issue)
    requires x.MissingLead? || x.OwnLead? || x.UnknownLead?
    ensures MisnamedUpTo(plan, |plan.tasks|, exempt, reportUnknown, x) <==>
            IsIssue(plan, exempt, NOTHING_SETTLED, None, reportUnknown, x)
  {
    if IsIssue(plan, exempt, NOTHING_SETTLED, None, reportUnknown, x) {
      var id := x.task;
      var t :| t in plan.tasks && t.id == id && id !in exempt
        && (if x.MissingLead? then t.lead.None? else if x.OwnLead? then t.lead == Some(t.role)
            else NamesUnknown(t, plan.roles));
      var k :| 0 <= k < |plan.tasks| && plan.tasks[k] == t;
      assert IsMisnaming(plan, k, exempt, reportUnknown, x);
    }
  }

  /** `_moved_leads`, for one profession that names one lead. */
  method IsMoved(plan: Plan, role: RoleId, named: set<RoleId>, history: set<TaskId>, settled: Settled,
    inherited: Option<Plan>)
    returns (moved: bool)
    requires history == History(plan.tasks, settled, inherited) && named == NamedBy(plan.tasks, role, history)
    ensures moved == Moved(plan, role, settled, inherited)
  {
    var accepted := set t | t in plan.tasks && t.role == role && t.id in history && t.id in settled.accepted
      && CanLead(t.lead, role, plan.roles) :: t.lead.value;
    if accepted == {} || |named| != 1 {
      return false;
    }
    var kept: set<RoleId> := {};
    if inherited.Some? {
      kept := set t | t in inherited.value.tasks && t.role == role && t.id !in settled.ids
        && CanLead(t.lead, role, plan.roles) :: t.lead.value;
    }
    return !(named <= accepted + kept);
  }

  ghost predicate IsProfessionIssue(plan: Plan, among: set<RoleId>, settled: Settled, inherited: Option<Plan>,
    i: Issue) {
    match i
    case SplitProfession(role) => role in among && Split(plan, role, settled, inherited)
    case MovedProfession(role) => role in among && Moved(plan, role, settled, inherited)
    case _ => false
  }

  ghost predicate Unsettled(plan: Plan, role: RoleId, settled: Settled, inherited: Option<Plan>) {
    Split(plan, role, settled, inherited) || Moved(plan, role, settled, inherited)
  }

  /** The second loop: professions that name several leads, or a lead they never had. */
  method UnsettledProfessions(plan: Plan, byRole: map<RoleId, set<RoleId>>, history: set<TaskId>, settled: Settled,
    inherited: Option<Plan>)
    returns (found: seq<Issue>, split: set<RoleId>)
    requires history == History(plan.tasks, settled, inherited)
    requires forall role :: role in byRole ==> byRole[role] == NamedBy(plan.tasks, role, history)
    ensures forall i :: i in found <==> IsProfessionIssue(plan, byRole.Keys, settled, inherited, i)
    ensures forall role :: role in split <==> role in byRole.Keys && Unsettled(plan, role, settled, inherited)
  {
    found, split := [], {};
    var rest := byRole.Keys;
    while rest != {}
      invariant rest <= byRole.Keys
      invariant forall i :: i in found <==> IsProfessionIssue(plan, byRole.Keys - rest, settled, inherited, i)
      invariant forall role :: role in split <==>
        role in byRole.Keys - rest && Unsettled(plan, role, settled, inherited)
      decreases rest
    {
      var role :| role in rest;
      rest := rest - {role};
      var moved := IsMoved(plan, role, byRole[role], history, settled, inherited);
      if |byRole[role]| > 1 {
        found, split := found + [SplitProfession(role)], split + {role};
      }
      if moved {
        found, split := found + [MovedProfession(role)], split + {role};
      }
    }
  }

  ghost predicate UnderivedAt(plan: Plan, k: nat, exempt: set<TaskId>, byRole: map<RoleId, set<RoleId>>,
    history: set<TaskId>,
                              named: set<TaskId>, split: set<RoleId>, i: Issue)
    requires k < |plan.tasks|
  {
    var t := plan.tasks[k];
    && t.id !in exempt && t.id !in named && t.role !in split && t.role in byRole
    && t.role !in byRole[t.role] && byRole[t.role] <= RoleIds(plan.roles)
    && i.Underivable? && i.task == t.id && Derive(plan, t, history) == Err(i.error)
  }

  ghost predicate Underived(plan: Plan, n: nat, exempt: set<TaskId>, byRole: map<RoleId, set<RoleId>>,
    history: set<TaskId>,
                            named: set<TaskId>, split: set<RoleId>, i: Issue)
    requires n <= |plan.tasks|
  {
    exists k :: 0 <= k < n && UnderivedAt(plan, k, exempt, byRole, history, named, split, i)
  }

  lemma UnderivedGrows(plan: Plan, n: nat, exempt: set<TaskId>, byRole: map<RoleId, set<RoleId>>, history: set<TaskId>,
                       named: set<TaskId>, split: set<RoleId>, i: Issue)
    requires n < |plan.tasks|
    ensures Underived(plan, n + 1, exempt, byRole, history, named, split, i) <==>
            Underived(plan, n, exempt, byRole, history, named, split, i)
              || UnderivedAt(plan, n, exempt, byRole, history, named, split, i)
  {
    if Underived(plan, n, exempt, byRole, history, named, split, i) {
      var k :| 0 <= k < n && UnderivedAt(plan, k, exempt, byRole, history, named, split, i);
      assert 0 <= k < n + 1;
    }
  }

  /** The last loop: departments that do not follow from the leads, for what no earlier class names. */
  method UnderivableTasks(plan: Plan, exempt: set<TaskId>, byRole: map<RoleId, set<RoleId>>, history: set<TaskId>,
                          named: set<TaskId>, split: set<RoleId>)
    returns (found: seq<Issue>)
    ensures forall i :: i in found <==> Underived(plan, |plan.tasks|, exempt, byRole, history, named, split, i)
  {
    found := [];
    for k := 0 to |plan.tasks|
      invariant forall i :: i in found <==> Underived(plan, k, exempt, byRole, history, named, split, i)
    {
      var t := plan.tasks[k];
      forall i ensures Underived(plan, k + 1, exempt, byRole, history, named, split, i) <==>
                       Underived(plan, k, exempt, byRole, history, named, split, i)
                         || UnderivedAt(plan, k, exempt, byRole, history, named, split, i)
      {
        UnderivedGrows(plan, k, exempt, byRole, history, named, split, i);
      }
      ghost var before := found;
      if t.id !in exempt && t.id !in named && t.role !in split && t.role in byRole
        && t.role !in byRole[t.role] && byRole[t.role] <= RoleIds(plan.roles)
      {
        var department := DeriveTaskDepartment(plan, t, history);
        if department.Err? {
          found := found + [Underivable(t.id, department.error)];
        }
      }
      assert forall i :: i in found <==> i in before || UnderivedAt(plan, k, exempt, byRole, history, named, split, i);
    }
  }

  lemma NamedMisnames(plan: Plan, exempt: set<TaskId>, id: TaskId)
    ensures NamedUpTo(plan, |plan.tasks|, exempt, id) <==>
            exists u :: u in plan.tasks && u.id == id && u.id !in exempt && Misnames(u, plan.roles)
  {
    if u :| u in plan.tasks && u.id == id && u.id !in exempt && Misnames(u, plan.roles) {
      var k :| 0 <= k < |plan.tasks| && plan.tasks[k] == u;
      assert plan.tasks[k].id == id && id !in exempt && Misnames(plan.tasks[k], plan.roles);
    }
  }

  /** The last loop checks exactly the tasks that the specification leaves for it. */
  lemma UnderivedIsIssue(plan: Plan, exempt: set<TaskId>, byRole: map<RoleId, set<RoleId>>, named: set<TaskId>,
    split: set<RoleId>,
                         settled: Settled, inherited: Option<Plan>, reportUnknown: bool, i: Issue)
    requires i.Underivable?
    requires forall role :: role in byRole <==> NamedBy(plan.tasks, role, History(plan.tasks, settled, inherited)) != {}
    requires forall role :: role in byRole ==>
      byRole[role] == NamedBy(plan.tasks, role, History(plan.tasks, settled, inherited))
    requires forall id :: id in named <==> NamedUpTo(plan, |plan.tasks|, exempt, id)
    requires forall role :: role in split <==> role in byRole.Keys && Unsettled(plan, role, settled, inherited)
    ensures Underived(plan, |plan.tasks|, exempt, byRole, History(plan.tasks, settled, inherited), named, split, i)
       <==> IsIssue(plan, exempt, settled, inherited, reportUnknown, i)
  {
    var history := History(plan.tasks, settled, inherited);
    forall k | 0 <= k < |plan.tasks|
      ensures UnderivedAt(plan, k, exempt, byRole, history, named, split, i) <==>
              i.task == plan.tasks[k].id && FailsLast(plan, plan.tasks[k], exempt, settled, inherited, i.error)
    {
      NamedMisnames(plan, exempt, plan.tasks[k].id);
    }
    if IsIssue(plan, exempt, settled, inherited, reportUnknown, i) {
      var t: Task :| t.id == i.task && FailsLast(plan, t, exempt, settled, inherited, i.error);
      var k :| 0 <= k < |plan.tasks| && plan.tasks[k] == t;
      assert UnderivedAt(plan, k, exempt, byRole, history, named, split, i);
    }
  }

  /** `validate_department_leads`: every lead issue of the plan, and nothing else. */
  method ValidateDepartmentLeads(plan: Plan, exempt: set<TaskId>, settled: Settled, inherited: Option<Plan>,
    reportUnknown: bool)
    returns (found: seq<Issue>)
    ensures forall i :: i in found <==> IsIssue(plan, exempt, settled, inherited, reportUnknown, i)
    ensures found == [] <==> Clean(plan, exempt, settled, inherited, reportUnknown)
  {
    var history := HistoryOf(plan.tasks, settled, inherited);
    var byRole := GroupByRole(plan.tasks, history);
    var misnamed, named := MisnamedTasks(plan, exempt, reportUnknown);
    var professions, split := UnsettledProfessions(plan, byRole, history, settled, inherited);
    var underived := UnderivableTasks(plan, exempt, byRole, history, named, split);
    found := misnamed + professions + underived;
    forall i ensures i in found <==> IsIssue(plan, exempt, settled, inherited, reportUnknown, i) {
      if i.MissingLead? || i.OwnLead? || i.UnknownLead? {
        MisnamingIsIssue(plan, exempt, reportUnknown, i);
      } else if i.Underivable? {
        UnderivedIsIssue(plan, exempt, byRole, named, split, settled, inherited, reportUnknown, i);
      }
    }
    if found != [] {
      assert found[0] in found;
    }
  }
}
