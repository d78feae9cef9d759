/**
  Second leads (`department_audit.py`): every N-th first verdict of a department waits for
  a second lead on the same work, and is applied when the second verdict is in.
 */
module SecondLeads {
  import opened Wrappers
  import opened Collections

  type TaskId = string
  type DepartmentId = string

  datatype Verdict = Verdict(pass: bool, issues: seq<string>)

  /** The `second_lead` entry of a session. */
  datatype Comparison =
    | NotSelected
    | Awaiting(department: DepartmentId, ordinal: nat, verdict: Verdict, verificationId: string)
    | Compared(
        department: DepartmentId, ordinal: nat, verdict: Verdict, verificationId: string,
        agrees: bool, secondId: string)

  /** A worker session; `verdict` is its final status, and `secondOf` the session it was a second lead of. */
  datatype Session = Session(
    task: TaskId, verifier: bool, verdict: Option<Verdict>, comparison: Comparison, secondOf: Option<nat>)

  /** What the caller of the gate goes on with. */
  datatype Ruling = Ruling(deferred: bool, verdict: Verdict, verificationId: string)

  type Departments = map<TaskId, DepartmentId>

  /** `_first_verdict_of`; a task without an entry has no derivable department. */
  predicate IsFirstVerdict(s: Session, departments: Departments, d: DepartmentId) {
    && s.verifier && s.secondOf.None? && s.verdict.Some?
    && s.task in departments && departments[s.task] == d
  }

  function FirstVerdicts(sessions: seq<Session>, departments: Departments, d: DepartmentId): set<nat> {
    set i | 0 <= i < |sessions| && IsFirstVerdict(sessions[i], departments, d)
  }

  predicate AwaitsFor(s: Session, task: TaskId) {
    s.task == task && s.comparison.Awaiting?
  }

  /** `awaiting_second_lead`: the latest such session. */
  function AwaitingFor(sessions: seq<Session>, task: TaskId): (r: Option<nat>)
    ensures r.Some? ==> r.value < |sessions| && AwaitsFor(sessions[r.value], task)
    ensures r.None? ==> forall i :: 0 <= i < |sessions| ==> !AwaitsFor(sessions[i], task)
  {
    if sessions == [] then None
    else if AwaitsFor(sessions[|sessions| - 1], task) then Some(|sessions| - 1)
    else AwaitingFor(sessions[..|sessions| - 1], task)
  }

  predicate IsSecond(sessions: seq<Session>, k: nat)
    requires k < |sessions|
  {
    AwaitingFor(sessions, sessions[k].task).Some? && AwaitingFor(sessions, sessions[k].task).value != k
  }

  function Compare(c: Comparison, v: Verdict, id: string): Comparison
    requires c.Awaiting?
  {
    Compared(c.department, c.ordinal, c.verdict, c.verificationId, v.pass == c.verdict.pass, id)
  }

  predicate IsNth(n: nat, every: int) {
    every > 0 && n % every == 0
  }

  predicate Selects(sessions: seq<Session>, k: nat, departments: Departments, every: int)
    requires k < |sessions|
  {
    var task := sessions[k].task;
    task in departments && IsNth(1 + |FirstVerdicts(sessions, departments, departments[task]) - {k}|, every)
  }

  /** The second verdict, of session `k`, is set beside the first, of session `j`. */
  function Paired(sessions: seq<Session>, k: nat, j: nat, v: Verdict, id: string): (r: seq<Session>)
    requires k < |sessions| && j < |sessions| && j != k && sessions[j].comparison.Awaiting?
  {
    sessions[k := sessions[k].(secondOf := Some(j))][j := sessions[j].(comparison := Compare(sessions[j].comparison, v,
      id))]
  }

  /** The verdict of session `k` is held back. */
  function Held(sessions: seq<Session>, k: nat, v: Verdict, id: string, departments: Departments): seq<Session>
    requires k < |sessions| && sessions[k].task in departments
  {
    var d := departments[sessions[k].task];
    sessions[k := sessions[k].(comparison := Awaiting(d, 1 + |FirstVerdicts(sessions, departments, d) - {k}|, v, id))]
  }

  /** The sessions and the ruling after `second_lead_gate`; session `k` holds its final status already. */
  function Gated(sessions: seq<Session>, k: nat, v: Verdict, id: string, departments: Departments,
    every: int): (seq<Session>, Ruling)
    requires k < |sessions|
  {
    if IsSecond(sessions, k) then
      var j := AwaitingFor(sessions, sessions[k].task).value;
      (Paired(sessions, k, j, v, id),
        Ruling(false, sessions[j].comparison.verdict, sessions[j].comparison.verificationId))
    else if Selects(sessions, k, departments, every) then
      (Held(sessions, k, v, id, departments), Ruling(true, v, id))
    else
      (sessions, Ruling(false, v, id))
  }

  datatype TaskState = Verifying | Implemented | OtherState

  lemma OthersGrow(sessions: seq<Session>, i: nat, k: nat, departments: Departments, d: DepartmentId)
    requires i < |sessions|
    ensures FirstVerdicts(sessions[..i + 1], departments, d) - {k} ==
      (FirstVerdicts(sessions[..i], departments, d) - {k}) +
      if i != k && IsFirstVerdict(sessions[i], departments, d) then {i} else {}
  {
    assert sessions[..i + 1] == sessions[..i] + [sessions[i]];
  }

  function Comparisons(sessions: seq<Session>, d: DepartmentId): set<nat> {
    set i | 0 <= i < |sessions| && sessions[i].comparison.Compared? && sessions[i].comparison.department == d
  }

  function Disagreements(sessions: seq<Session>, d: DepartmentId): set<nat> {
    set i | 0 <= i < |sessions| && sessions[i].comparison.Compared? && sessions[i].comparison.department == d
            && !sessions[i].comparison.agrees
  }

  lemma ComparisonsGrow(sessions: seq<Session>, i: nat, d: DepartmentId)
    requires i < |sessions|
    ensures Comparisons(sessions[..i + 1], d) == Comparisons(sessions[..i], d) +
      if sessions[i].comparison.Compared? && sessions[i].comparison.department == d then {i} else {}
    ensures Disagreements(sessions[..i + 1], d) == Disagreements(sessions[..i], d) +
      if sessions[i].comparison.Compared? && sessions[i].comparison.department == d && !sessions[i].comparison.agrees
        then {i} else {}
  {
  }

  class LeadAudit {
    var sessions: seq<Session>
    var states: map<TaskId, TaskState>

    /** `awaiting_second_lead` */
    method AwaitingSecondLead(task: TaskId) returns (r: Option<nat>)
      ensures r == AwaitingFor(sessions, task)
    {
      var i := |sessions|;
      assert sessions[..i] == sessions;
      while i > 0
        invariant 0 <= i <= |sessions|
        invariant AwaitingFor(sessions, task) == AwaitingFor(sessions[..i], task)
      {
        i := i - 1;
        assert sessions[..i + 1][..i] == sessions[..i];
        if AwaitsFor(sessions[i], task) {
          return Some(i);
        }
      }
      return None;
    }

    /** The number of first verdicts of a department, without that of session `k`. */
    method CountOthers(k: nat, departments: Departments, d: DepartmentId) returns (n: nat)
      ensures n == |FirstVerdicts(sessions, departments, d) - {k}|
    {
      n := 0;
      for i := 0 to |sessions|
        invariant n == |FirstVerdicts(sessions[..i], departments, d) - {k}|
      {
        OthersGrow(sessions, i, k, departments, d);
        if i != k && IsFirstVerdict(sessions[i], departments, d) {
          n := n + 1;
        }
      }
      assert sessions[..|sessions|] == sessions;
    }

    method CompareWith(j: nat, k: nat, v: Verdict, id: string) returns (ruling: Ruling)
      requires j < |sessions| && k < |sessions| && j != k && sessions[j].comparison.Awaiting?
      modifies this`sessions
      ensures sessions == Paired(old(sessions), k, j, v, id)
      ensures ruling == Ruling(false, old(sessions)[j].comparison.verdict, old(sessions)[j].comparison.verificationId)
    {
      var first := sessions[j].comparison;
      sessions := sessions[k := sessions[k].(secondOf := Some(j))];
      sessions := sessions[j := sessions[j].(comparison := Compare(first, v, id))];
      ruling := Ruling(false, first.verdict, first.verificationId);
    }

    method Hold(k: nat, v: Verdict, id: string, departments: Departments, every: int) returns (ruling: Ruling)
      requires k < |sessions| && sessions[k].task in states
      modifies this
      ensures ruling == Ruling(Selects(old(sessions), k, departments, every), v, id)
      ensures ruling.deferred ==> sessions == Held(old(sessions), k, v, id, departments)
      ensures ruling.deferred ==> states == old(states)[old(sessions)[k].task := Implemented]
      ensures !ruling.deferred ==> sessions == old(sessions) && states == old(states)
    {
      var task := sessions[k].task;
      if task !in departments {
        return Ruling(false, v, id);
      }
      var others := CountOthers(k, departments, departments[task]);
      var ordinal := 1 + others;
      if every <= 0 || ordinal % every != 0 {
        return Ruling(false, v, id);
      }
      sessions := sessions[k := sessions[k].(comparison := Awaiting(departments[task], ordinal, v, id))];
      states := states[task := Implemented];
      return Ruling(true, v, id);
    }

    /** `second_lead_gate`, for a verifier session whose task is being verified. */
    method Gate(k: nat, v: Verdict, id: string, departments: Departments, every: int) returns (ruling: Ruling)
      requires k < |sessions| && sessions[k].task in states && states[sessions[k].task] == Verifying
      modifies this
      ensures sessions == Gated(old(sessions), k, v, id, departments, every).0
      ensures ruling == Gated(old(sessions), k, v, id, departments, every).1
      ensures states == if ruling.deferred then old(states)[old(sessions)[k].task := Implemented] else old(states)
    {
      var first := AwaitingSecondLead(sessions[k].task);
      if first.Some? && first.value != k {
        ruling := CompareWith(first.value, k, v, id);
      } else {
        ruling := Hold(k, v, id, departments, every);
      }
    }

    /** `disagreement_rate`: how many comparisons of a department there were, and how many disagreed. */
    method DisagreementRate(d: DepartmentId, pending: Option<bool>) returns (secondLeads: nat, disagreements: nat)
      ensures secondLeads == |Comparisons(sessions, d)| + if pending.Some? then 1 else 0
      ensures disagreements == |Disagreements(sessions, d)| + if pending == Some(false) then 1 else 0
      ensures disagreements <= secondLeads
    {
      secondLeads, disagreements := 0, 0;
      for i := 0 to |sessions|
        invariant secondLeads == |Comparisons(sessions[..i], d)| && disagreements == |Disagreements(sessions[..i], d)|
      {
        ComparisonsGrow(sessions, i, d);
        if sessions[i].comparison.Compared? && sessions[i].comparison.department == d {
          secondLeads := secondLeads + 1;
          disagreements := disagreements + if sessions[i].comparison.agrees then 0 else 1;
        }
      }
      assert sessions[..|sessions|] == sessions;
      SubsetSize(Disagreements(sessions, d), Comparisons(sessions, d));
      if pending.Some? {
        secondLeads := secondLeads + 1;
        disagreements := disagreements + if pending.value then 0 else 1;
      }
    }
  }
}
