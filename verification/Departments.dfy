/**
  Departments and their leads (`department_runtime.py`): deriving the department of a task
  from the professions of a plan, and validating a plan so that the derivation works.
 */
module Departments {
  import opened Wrappers
  import opened Collections
  import opened Strings

  type TaskId = string
  type RoleId = string

  /** The department claim a task may carry: none, one, or one that `task_department_binding` refuses. */
  datatype Binding = Unbound | Bound(department: string) | Refused

  datatype Task = Task(id: TaskId, role: RoleId, lead: Option<RoleId>, binding: Binding)

  datatype Role = Role(id: RoleId, name: string)

  datatype Declared = Declared(id: string, lead: RoleId)

  datatype Plan = Plan(tasks: seq<Task>, roles: seq<Role>, departments: seq<Declared>)

  datatype Department = Department(id: string, lead: RoleId)

  datatype LeadError =
    | NoLead | SeveralLeads | NamesAnotherLead | OwnProfession | UnknownRole
    | SeveralDeclared | SeveralBound | BadBinding | OtherDepartment

  function RoleIds(roles: seq<Role>): set<RoleId> {
    set r | r in roles :: r.id
  }

  // ----- Deriving -----

  /** The leads that the settled, or the other, tasks of a profession name. */
  function LeadsNamed(tasks: seq<Task>, role: RoleId, settled: set<TaskId>, done: bool): set<RoleId> {
    set t | t in tasks && t.role == role && t.lead.Some? && (t.id in settled) == done :: t.lead.value
  }

  ghost function TheOnly(s: set<string>): (x: string)
    requires |s| == 1
    ensures s == {x}
  {
    var x :| x in s;
    SubsetSize({x}, s);
    x
  }

  /** `role_lead` */
  ghost function RoleLead(plan: Plan, role: RoleId, settled: set<TaskId>): Result<RoleId, LeadError> {
    var live, done := LeadsNamed(plan.tasks, role, settled, false), LeadsNamed(plan.tasks, role, settled, true);
    var leads := if live != {} then live else done;
    if leads == {} then Err(NoLead) else if |leads| > 1 then Err(SeveralLeads) else Ok(TheOnly(leads))
  }

  /** The departments that the tasks of a lead claim. */
  function BoundDepartments(tasks: seq<Task>, lead: RoleId): set<string> {
    set t | t in tasks && t.lead == Some(lead) && t.binding.Bound? :: t.binding.department
  }

  function DeclaredFor(departments: seq<Declared>, lead: RoleId): seq<Declared> {
    if departments == [] then []
    else (if departments[0].lead == lead then [departments[0]] else []) + DeclaredFor(departments[1..], lead)
  }

  /** `_department_for_lead` */
  ghost function DepartmentForLead(plan: Plan, lead: RoleId): Result<Department, LeadError> {
    var declared := DeclaredFor(plan.departments, lead);
    var bound := BoundDepartments(plan.tasks, lead);
    if |declared| > 1 then Err(SeveralDeclared)
    else if |declared| == 1 then Ok(Department(declared[0].id, lead))
    else if |bound| > 1 then Err(SeveralBound)
    else Ok(Department(if |bound| == 1 then TheOnly(bound) else lead, lead))
  }

  /** `derive_task_department` */
  ghost function Derive(plan: Plan, task: Task, settled: set<TaskId>): Result<Department, LeadError> {
    match (if task.lead.Some? && task.id in settled then Ok(task.lead.value) else RoleLead(plan, task.role, settled))
    case Err(e) => Err(e)
    case Ok(lead) =>
      if task.lead.Some? && task.lead.value != lead then Err(NamesAnotherLead)
      else if lead == task.role then Err(OwnProfession)
      else if lead !in RoleIds(plan.roles) then Err(UnknownRole)
      else
        match DepartmentForLead(plan, lead)
        case Err(e) => Err(e)
        case Ok(department) =>
          if task.binding.Refused? then Err(BadBinding)
          else if task.binding.Bound? && task.binding.department != department.id then Err(OtherDepartment)
          else Ok(department)
  }

  // ----- Validating -----

  datatype Issue =
    | MissingLead(task: TaskId)
    | OwnLead(task: TaskId)
    | UnknownLead(task: TaskId)
    | SplitProfession(role: RoleId)
    | MovedProfession(role: RoleId)
    | Underivable(task: TaskId, error: LeadError)

  /** Tasks whose acceptance is over, and those of them that a lead accepted (`SettledTasks`). */
  datatype Settled = Settled(ids: set<TaskId>, accepted: set<TaskId>)

  const NOTHING_SETTLED := Settled({}, {})

  ghost predicate HeldAs(plan: Plan, t: Task) {
    exists before :: before in plan.tasks && before.id == t.id && before.lead == t.lead
  }

  /** `_history`: settled tasks count as history only as the current plan holds them. */
  ghost function History(tasks: seq<Task>, settled: Settled, inherited: Option<Plan>): set<TaskId> {
    if inherited.None? then {}
    else set t | t in tasks && t.id in settled.ids && HeldAs(inherited.value, t) :: t.id
  }

  function NamedBy(tasks: seq<Task>, role: RoleId, history: set<TaskId>): set<RoleId> {
    LeadsNamed(tasks, role, history, false)
  }

  /** `_can_lead` */
  predicate CanLead(lead: Option<RoleId>, role: RoleId, roles: seq<Role>) {
    && lead.Some? && lead.value != role && lead.value != "legacy-worker"
    && exists r :: r in roles && r.id == lead.value && Lower(r.name) != "legacy serial worker"
  }

  /** The leads that accepted work of the profession. */
  ghost function AcceptedLeads(tasks: seq<Task>, role: RoleId, history: set<TaskId>, settled: Settled,
    roles: seq<Role>): set<RoleId> {
    set t | t in tasks && t.role == role && t.id in history && t.id in settled.accepted && CanLead(t.lead, role, roles)
      :: t.lead.value
  }

  /** The leads that the current plan names for what is still to be accepted. */
  ghost function KeptLeads(inherited: Option<Plan>, role: RoleId, settled: Settled, roles: seq<Role>): set<RoleId> {
    if inherited.None? then {}
    else set t | t in inherited.value.tasks && t.role == role && t.id !in settled.ids && CanLead(t.lead, role, roles)
      :: t.lead.value
  }

  /** `_moved_leads`: the profession has accepted work and would go to a lead it never had. */
  ghost predicate Moved(plan: Plan, role: RoleId, settled: Settled, inherited: Option<Plan>) {
    var history := History(plan.tasks, settled, inherited);
    var accepted := AcceptedLeads(plan.tasks, role, history, settled, plan.roles);
    var named := NamedBy(plan.tasks, role, history);
    accepted != {} && |named| == 1 && !(named <= accepted + KeptLeads(inherited, role, settled, plan.roles))
  }

  ghost predicate Split(plan: Plan, role: RoleId, settled: Settled, inherited: Option<Plan>) {
    |NamedBy(plan.tasks, role, History(plan.tasks, settled, inherited))| > 1
  }

  predicate Misnames(t: Task, roles: seq<Role>) {
    t.lead.None? || t.lead.value == t.role || t.lead.value !in RoleIds(roles)
  }

  predicate NamesUnknown(t: Task, roles: seq<Role>) {
    t.lead.Some? && t.lead.value != t.role && t.lead.value !in RoleIds(roles)
  }

  /** The tasks that are left for the last check: none of the earlier classes names them or their profession. */
  ghost predicate CheckedLast(plan: Plan, t: Task, exempt: set<TaskId>, settled: Settled, inherited: Option<Plan>) {
    var named := NamedBy(plan.tasks, t.role, History(plan.tasks, settled, inherited));
    && t in plan.tasks && t.id !in exempt
    && !(exists u :: u in plan.tasks && u.id == t.id && u.id !in exempt && Misnames(u, plan.roles))
    && !Split(plan, t.role, settled, inherited) && !Moved(plan, t.role, settled, inherited)
    && named != {} && t.role !in named && named <= RoleIds(plan.roles)
  }

  ghost predicate FailsLast(plan: Plan, t: Task, exempt: set<TaskId>, settled: Settled, inherited: Option<Plan>,
    e: LeadError) {
    && CheckedLast(plan, t, exempt, settled, inherited)
    && Derive(plan, t, History(plan.tasks, settled, inherited)) == Err(e)
  }

  /** `validate_department_leads` reports exactly these. */
  ghost predicate IsIssue(plan: Plan, exempt: set<TaskId>, settled: Settled, inherited: Option<Plan>,
    reportUnknown: bool, i: Issue) {
    match i
    case MissingLead(id) => exists t :: t in plan.tasks && t.id == id && id !in exempt && t.lead.None?
    case OwnLead(id) => exists t :: t in plan.tasks && t.id == id && id !in exempt && t.lead == Some(t.role)
    case UnknownLead(id) =>
      reportUnknown && exists t :: t in plan.tasks && t.id == id && id !in exempt && NamesUnknown(t, plan.roles)
    case SplitProfession(role) => Split(plan, role, settled, inherited)
    case MovedProfession(role) => Moved(plan, role, settled, inherited)
    case Underivable(id, e) => exists t: Task :: t.id == id && FailsLast(plan, t, exempt, settled, inherited, e)
  }

  ghost predicate Clean(plan: Plan, exempt: set<TaskId>, settled: Settled, inherited: Option<Plan>,
    reportUnknown: bool) {
    forall i :: !IsIssue(plan, exempt, settled, inherited, reportUnknown, i)
  }

  // ----- A clean plan can always be derived from -----

  ghost predicate DerivesAlways(plan: Plan) {
    forall t :: t in plan.tasks ==> t.lead.Some? && forall s :: Derive(plan, t, s).Ok?
  }

  lemma LeadIsNamed(tasks: seq<Task>, t: Task, settled: set<TaskId>, done: bool)
    requires t in tasks && t.lead.Some? && (t.id in settled) == done
    ensures t.lead.value in LeadsNamed(tasks, t.role, settled, done)
  {
  }

  /** One profession, one lead: whatever is settled, the rest names just that one. */
  lemma OneLeadWhateverSettled(plan: Plan, t: Task, settled: set<TaskId>)
    requires t in plan.tasks && t.lead.Some? && |LeadsNamed(plan.tasks, t.role, {}, false)| == 1
    requires t.id !in settled
    ensures RoleLead(plan, t.role, settled) == Ok(t.lead.value)
  {
    var all := LeadsNamed(plan.tasks, t.role, {}, false);
    var live := LeadsNamed(plan.tasks, t.role, settled, false);
    LeadIsNamed(plan.tasks, t, {}, false);
    LeadIsNamed(plan.tasks, t, settled, false);
    assert all == {TheOnly(all)};
    assert live <= all;
    assert live == {t.lead.value};
  }

  /** With no history, an admitted plan names one lead per profession, and each task names it. */
  lemma CleanNamesOneLead(plan: Plan, settled: Settled, reportUnknown: bool, t: Task)
    requires Clean(plan, {}, settled, None, reportUnknown) && t in plan.tasks
    ensures t.lead.Some? && t.lead.value != t.role
    ensures LeadsNamed(plan.tasks, t.role, {}, false) == {t.lead.value}
  {
    assert !IsIssue(plan, {}, settled, None, reportUnknown, MissingLead(t.id));
    assert !IsIssue(plan, {}, settled, None, reportUnknown, OwnLead(t.id));
    assert !IsIssue(plan, {}, settled, None, reportUnknown, SplitProfession(t.role));
    LeadIsNamed(plan.tasks, t, {}, false);
    var all := LeadsNamed(plan.tasks, t.role, {}, false);
    assert {t.lead.value} <= all && |all| <= 1;
    SubsetSize({t.lead.value}, all);
  }

  lemma CleanChecksLast(plan: Plan, settled: Settled, t: Task)
    requires Clean(plan, {}, settled, None, true) && t in plan.tasks
    ensures Derive(plan, t, {}).Ok?
  {
    CleanNamesOneLead(plan, settled, true, t);
    forall u | u in plan.tasks ensures !Misnames(u, plan.roles) {
      CleanNamesOneLead(plan, settled, true, u);
      assert !IsIssue(plan, {}, settled, None, true, UnknownLead(u.id));
    }
    assert AcceptedLeads(plan.tasks, t.role, {}, settled, plan.roles) == {};
    assert CheckedLast(plan, t, {}, settled, None);
    var e := match Derive(plan, t, {}) case Err(e) => e case Ok(_) => NoLead;
    assert !IsIssue(plan, {}, settled, None, true, Underivable(t.id, e));
    assert !FailsLast(plan, t, {}, settled, None, e);
  }

  /** What is settled does not matter to a plan with one lead per profession. */
  lemma SettledDoesNotMatter(plan: Plan, t: Task, settled: set<TaskId>)
    requires t in plan.tasks && t.lead.Some? && |LeadsNamed(plan.tasks, t.role, {}, false)| == 1
    ensures Derive(plan, t, settled) == Derive(plan, t, {})
  {
    OneLeadWhateverSettled(plan, t, {});
    if t.id !in settled {
      OneLeadWhateverSettled(plan, t, settled);
    }
  }

  lemma DerivedLead(plan: Plan, t: Task)
    requires t in plan.tasks && t.lead.Some? && Derive(plan, t, {}).Ok?
    ensures t.lead.value != t.role && t.lead.value in RoleIds(plan.roles)
    ensures LeadsNamed(plan.tasks, t.role, {}, false) == {t.lead.value}
  {
    LeadIsNamed(plan.tasks, t, {}, false);
  }

  lemma DerivableHasNoIssue(plan: Plan, settled: Settled, i: Issue)
    requires DerivesAlways(plan)
    ensures !IsIssue(plan, {}, settled, None, true, i)
  {
    forall t | t in plan.tasks ensures t.lead.Some? && Derive(plan, t, {}).Ok? && !Misnames(t, plan.roles) {
      DerivedLead(plan, t);
    }
    if i.SplitProfession? && LeadsNamed(plan.tasks, i.role, {}, false) != {} {
      var t :| t in plan.tasks && t.role == i.role && t.lead.Some?;
      DerivedLead(plan, t);
    }
    if i.MovedProfession? {
      assert AcceptedLeads(plan.tasks, i.role, {}, settled, plan.roles) == {};
    }
  }

  /**
    A plan with no exempt tasks has no lead issue exactly when every task names a lead and
    its department can be derived whichever tasks are settled.
   */
  lemma CleanMeansDerivable(plan: Plan, settled: Settled)
    ensures Clean(plan, {}, settled, None, true) <==> DerivesAlways(plan)
  {
    if Clean(plan, {}, settled, None, true) {
      forall t | t in plan.tasks ensures t.lead.Some? && forall s :: Derive(plan, t, s).Ok? {
        CleanNamesOneLead(plan, settled, true, t);
        CleanChecksLast(plan, settled, t);
        forall s ensures Derive(plan, t, s).Ok? {
          SettledDoesNotMatter(plan, t, s);
        }
      }
    }
    if DerivesAlways(plan) {
      forall i ensures !IsIssue(plan, {}, settled, None, true, i) {
        DerivableHasNoIssue(plan, settled, i);
      }
    }
  }

  lemma DerivedDepartment(plan: Plan, t: Task)
    requires t in plan.tasks && t.lead.Some? && Derive(plan, t, {}).Ok?
    ensures Derive(plan, t, {}) == DepartmentForLead(plan, t.lead.value)
    ensures Derive(plan, t, {}).value.lead == t.lead.value
  {
  }

  /** The derived lead is never the task's own profession, and a profession has one department. */
  lemma OneDepartmentPerProfession(plan: Plan, settled: Settled, t: Task, u: Task, s: set<TaskId>, r: set<TaskId>)
    requires Clean(plan, {}, settled, None, true) && t in plan.tasks && u in plan.tasks && t.role == u.role
    ensures Derive(plan, t, s).Ok? && Derive(plan, t, s) == Derive(plan, u, r)
    ensures Derive(plan, t, s).value.lead != t.role && Derive(plan, t, s).value.lead in RoleIds(plan.roles)
  {
    CleanMeansDerivable(plan, settled);
    CleanNamesOneLead(plan, settled, true, t);
    CleanNamesOneLead(plan, settled, true, u);
    SettledDoesNotMatter(plan, t, s);
    SettledDoesNotMatter(plan, u, r);
    DerivedLead(plan, t);
    assert {t.lead.value} == {u.lead.value};
    assert t.lead.value in {u.lead.value};
    DerivedDepartment(plan, t);
    DerivedDepartment(plan, u);
  }
}
