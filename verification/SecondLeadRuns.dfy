/** Whole runs of the second-lead gate, with the departments of the tasks fixed. */
module SecondLeadRuns {
  import opened Wrappers
  import opened Collections
  import opened Arithmetic
  import opened SecondLeads

  /** A verdict the caller acted on: the session whose verdict it was, what it said, and the id it is bound to. */
  datatype Applied = Applied(of: nat, verdict: Verdict, verificationId: string)

  datatype State = State(sessions: seq<Session>, applied: seq<Applied>)

  /** A session starts, or a verifier that has not answered yet gives its verdict. */
  datatype Step = Begin(task: TaskId, verifier: bool) | Judge(k: nat, v: Verdict, id: string)

  predicate Unjudged(s: Session) {
    s.verdict.None? && s.comparison.NotSelected? && s.secondOf.None?
  }

  predicate Allowed(s: State, step: Step) {
    step.Judge? ==> step.k < |s.sessions| && s.sessions[step.k].verifier && Unjudged(s.sessions[step.k])
  }

  /** The final status is recorded before the gate reads the sessions. */
  function Recorded(sessions: seq<Session>, k: nat, v: Verdict): seq<Session>
    requires k < |sessions|
  {
    sessions[k := sessions[k].(verdict := Some(v))]
  }

  function Next(s: State, step: Step, departments: Departments, every: int): State
    requires Allowed(s, step)
  {
    match step
    case Begin(task, verifier) =>
      s.(sessions := s.sessions + [Session(task, verifier, None, NotSelected, None)])
    case Judge(k, v, id) =>
      var recorded := Recorded(s.sessions, k, v);
      var (after, ruling) := Gated(recorded, k, v, id, departments, every);
      var source := if IsSecond(recorded, k) then AwaitingFor(recorded, recorded[k].task).value else k;
      State(after,
        if ruling.deferred then s.applied
        else s.applied + [Applied(source, ruling.verdict, ruling.verificationId)])
  }

  ghost predicate IsRun(states: seq<State>, steps: seq<Step>, departments: Departments, every: int) {
    && |states| == |steps| + 1 && states[0] == State([], [])
    && forall i :: 0 <= i < |steps| ==>
        Allowed(states[i], steps[i]) && states[i + 1] == Next(states[i], steps[i], departments, every)
  }

  // ----- What every state keeps -----

  /** The sessions of a department whose verdict was held back for a second lead. */
  function Selected(sessions: seq<Session>, d: DepartmentId): set<nat> {
    set i | 0 <= i < |sessions| && !sessions[i].comparison.NotSelected? && sessions[i].comparison.department == d
  }

  ghost predicate SelectedSound(sessions: seq<Session>, departments: Departments, i: nat)
    requires i < |sessions|
  {
    var s := sessions[i];
    s.comparison.NotSelected?
    || (IsFirstVerdict(s, departments, s.comparison.department) && s.comparison.verdict == s.verdict.value)
  }

  /** A second lead judged the task of its first lead, and the comparison says whether they agreed. */
  ghost predicate SecondSound(sessions: seq<Session>, i: nat)
    requires i < |sessions|
  {
    var s := sessions[i];
    s.secondOf.None?
    || (&& s.verifier && s.verdict.Some? && s.secondOf.value != i && s.secondOf.value < |sessions|
        && var first := sessions[s.secondOf.value];
           first.comparison.Compared? && first.task == s.task
           && first.comparison.agrees == (s.verdict.value.pass == first.comparison.verdict.pass))
  }

  ghost predicate OneAwaiting(sessions: seq<Session>) {
    forall i, j :: 0 <= i < j < |sessions| && sessions[i].comparison.Awaiting? ==>
      !AwaitsFor(sessions[j], sessions[i].task)
  }

  ghost predicate HasSecond(sessions: seq<Session>, j: nat) {
    exists i :: 0 <= i < |sessions| && sessions[i].secondOf == Some(j)
  }

  ghost predicate OneSecondEach(sessions: seq<Session>) {
    && (forall i, j :: 0 <= i < j < |sessions| && sessions[i].secondOf.Some? ==>
        sessions[i].secondOf != sessions[j].secondOf)
    && (forall j :: 0 <= j < |sessions| && sessions[j].comparison.Compared? ==> HasSecond(sessions, j))
  }

  /** How many second leads k first verdicts ask for. */
  function Quota(k: nat, every: int): nat {
    if every > 0 then k / every else 0
  }

  ghost predicate EveryNth(sessions: seq<Session>, departments: Departments, every: int) {
    forall d :: |Selected(sessions, d)| == Quota(|FirstVerdicts(sessions, departments, d)|, every)
  }

  /** A first verdict that does not wait for a second lead. */
  predicate IsDue(s: Session) {
    s.verifier && s.verdict.Some? && s.secondOf.None? && !s.comparison.Awaiting?
  }

  ghost predicate WasApplied(applied: seq<Applied>, i: nat) {
    exists a :: 0 <= a < |applied| && applied[a].of == i
  }

  /** Exactly the due first verdicts were applied, each once and as given. */
  ghost predicate AppliedOnce(s: State) {
    && (forall a, b :: 0 <= a < b < |s.applied| ==> s.applied[a].of != s.applied[b].of)
    && (forall a :: 0 <= a < |s.applied| ==> s.applied[a].of < |s.sessions| && IsDue(s.sessions[s.applied[a].of])
                                             && s.sessions[s.applied[a].of].verdict == Some(s.applied[a].verdict))
    && (forall i :: 0 <= i < |s.sessions| && IsDue(s.sessions[i]) ==> WasApplied(s.applied, i))
  }

  ghost predicate AllSound(sessions: seq<Session>, departments: Departments) {
    forall i :: 0 <= i < |sessions| ==> SelectedSound(sessions, departments, i) && SecondSound(sessions, i)
  }

  lemma RecordedSound(s: State, k: nat, v: Verdict, departments: Departments)
    requires k < |s.sessions| && Unjudged(s.sessions[k]) && AllSound(s.sessions, departments)
    ensures AllSound(Recorded(s.sessions, k, v), departments)
  {
    var recorded := Recorded(s.sessions, k, v);
    forall i | 0 <= i < |recorded| ensures SelectedSound(recorded, departments, i) && SecondSound(recorded, i) {
      assert SelectedSound(s.sessions, departments, i) && SecondSound(s.sessions, i);
    }
  }

  lemma PairedSound(sessions: seq<Session>, k: nat, j: nat, v: Verdict, id: string, departments: Departments)
    requires k < |sessions| && j < |sessions| && j != k && sessions[j].comparison.Awaiting?
    requires AllSound(sessions, departments)
    requires sessions[k].verifier && sessions[k].verdict == Some(v) && sessions[k].comparison.NotSelected?
    requires sessions[k].task == sessions[j].task
    ensures AllSound(Paired(sessions, k, j, v, id), departments)
  {
    var after := Paired(sessions, k, j, v, id);
    forall i | 0 <= i < |after| ensures SelectedSound(after, departments, i) && SecondSound(after, i) {
      assert SelectedSound(sessions, departments, i) && SecondSound(sessions, i);
      assert SelectedSound(sessions, departments, j);
    }
  }

  lemma HeldSound(sessions: seq<Session>, k: nat, v: Verdict, id: string, departments: Departments)
    requires k < |sessions| && sessions[k].task in departments && AllSound(sessions, departments)
    requires sessions[k].verifier && sessions[k].verdict == Some(v) && sessions[k].secondOf.None?
    requires sessions[k].comparison.NotSelected?
    ensures AllSound(Held(sessions, k, v, id, departments), departments)
  {
    var after := Held(sessions, k, v, id, departments);
    forall i | 0 <= i < |after| ensures SelectedSound(after, departments, i) && SecondSound(after, i) {
      assert SelectedSound(sessions, departments, i) && SecondSound(sessions, i);
    }
  }

  lemma SoundKept(s: State, step: Step, departments: Departments, every: int)
    requires Allowed(s, step) && AllSound(s.sessions, departments)
    ensures AllSound(Next(s, step, departments, every).sessions, departments)
  {
    var after := Next(s, step, departments, every).sessions;
    if step.Judge? {
      RecordedSound(s, step.k, step.v, departments);
      var recorded := Recorded(s.sessions, step.k, step.v);
      if IsSecond(recorded, step.k) {
        PairedSound(recorded, step.k, AwaitingFor(recorded, recorded[step.k].task).value, step.v, step.id, departments);
      } else if Selects(recorded, step.k, departments, every) {
        HeldSound(recorded, step.k, step.v, step.id, departments);
      }
    } else {
      forall i | 0 <= i < |after| ensures SelectedSound(after, departments, i) && SecondSound(after, i) {
        if i < |s.sessions| {
          assert SelectedSound(s.sessions, departments, i) && SecondSound(s.sessions, i);
        }
      }
    }
  }

  lemma AwaitingKept(s: State, step: Step, departments: Departments, every: int)
    requires Allowed(s, step) && OneAwaiting(s.sessions)
    ensures OneAwaiting(Next(s, step, departments, every).sessions)
  {
  }

  lemma SecondsStayApart(s: State, step: Step, departments: Departments, every: int)
    requires Allowed(s, step) && AllSound(s.sessions, departments)
    requires forall i, j :: 0 <= i < j < |s.sessions| && s.sessions[i].secondOf.Some? ==>
      s.sessions[i].secondOf != s.sessions[j].secondOf
    ensures var after := Next(s, step, departments, every).sessions;
      forall i, j :: 0 <= i < j < |after| && after[i].secondOf.Some? ==> after[i].secondOf != after[j].secondOf
  {
    forall i | 0 <= i < |s.sessions| && s.sessions[i].secondOf.Some?
      ensures s.sessions[i].secondOf.value < |s.sessions|
      ensures s.sessions[s.sessions[i].secondOf.value].comparison.Compared?
    {
      assert SecondSound(s.sessions, i);
    }
  }

  lemma ComparedHasSecond(s: State, step: Step, departments: Departments, every: int, j: nat)
    requires Allowed(s, step) && j < |Next(s, step, departments, every).sessions|
    requires Next(s, step, departments, every).sessions[j].comparison.Compared?
    requires j < |s.sessions| && s.sessions[j].comparison.Compared? ==> HasSecond(s.sessions, j)
    ensures HasSecond(Next(s, step, departments, every).sessions, j)
  {
    var after := Next(s, step, departments, every).sessions;
    if j < |s.sessions| && s.sessions[j].comparison.Compared? {
      var i :| 0 <= i < |s.sessions| && s.sessions[i].secondOf == Some(j);
      assert after[i].secondOf == Some(j);
    } else {
      assert after[step.k].secondOf == Some(j);
    }
  }

  lemma SecondsKept(s: State, step: Step, departments: Departments, every: int)
    requires Allowed(s, step) && AllSound(s.sessions, departments) && OneSecondEach(s.sessions)
    ensures OneSecondEach(Next(s, step, departments, every).sessions)
  {
    var after := Next(s, step, departments, every).sessions;
    SecondsStayApart(s, step, departments, every);
    forall j | 0 <= j < |after| && after[j].comparison.Compared? ensures HasSecond(after, j) {
      ComparedHasSecond(s, step, departments, every, j);
    }
  }

  /** The session whose verdict a judging step applies, if it applies one. */
  function SourceOf(s: State, k: nat, v: Verdict): nat
    requires k < |s.sessions|
  {
    var recorded := Recorded(s.sessions, k, v);
    if IsSecond(recorded, k) then AwaitingFor(recorded, recorded[k].task).value else k
  }

  /** The verdict of one session more was acted on, as that session gave it. */
  ghost predicate AddsOne(s: State, next: State, source: nat)
    requires source < |next.sessions|
  {
    && |next.applied| == |s.applied| + 1 && next.applied[..|s.applied|] == s.applied
    && next.applied[|s.applied|].of == source
    && next.sessions[source].verdict == Some(next.applied[|s.applied|].verdict)
  }

  /** A verdict makes one first verdict due, its own or the one it is compared with, or none when it is held back. */
  lemma JudgedDue(s: State, k: nat, v: Verdict, id: string, departments: Departments, every: int)
    requires Allowed(s, Judge(k, v, id)) && AllSound(s.sessions, departments)
    ensures var next := Next(s, Judge(k, v, id), departments, every);
      var source := SourceOf(s, k, v);
      && |next.sessions| == |s.sessions| && source < |s.sessions| && !IsDue(s.sessions[source])
      && (forall i :: 0 <= i < |s.sessions| && i != source ==> (IsDue(next.sessions[i]) <==> IsDue(s.sessions[i])))
      && (forall i :: 0 <= i < |s.sessions| && IsDue(s.sessions[i]) ==>
          next.sessions[i].verdict == s.sessions[i].verdict)
      && if IsDue(next.sessions[source]) then AddsOne(s, next, source) else next.applied == s.applied
  {
    assert SelectedSound(s.sessions, departments, SourceOf(s, k, v));
  }

  lemma AppliedGrows(s: State, next: State, source: nat)
    requires AppliedOnce(s) && |s.sessions| <= |next.sessions| && source < |next.sessions|
    requires source < |s.sessions| ==> !IsDue(s.sessions[source])
    requires forall i :: 0 <= i < |next.sessions| && i != source ==>
      i < |s.sessions| && (IsDue(next.sessions[i]) <==> IsDue(s.sessions[i]))
    requires forall i :: 0 <= i < |s.sessions| && IsDue(s.sessions[i]) ==>
      next.sessions[i].verdict == s.sessions[i].verdict
    requires if IsDue(next.sessions[source]) then AddsOne(s, next, source) else next.applied == s.applied
    ensures AppliedOnce(next)
  {
    forall i | 0 <= i < |next.sessions| && IsDue(next.sessions[i]) ensures WasApplied(next.applied, i) {
      if i == source {
        assert next.applied[|s.applied|].of == i;
      } else {
        assert WasApplied(s.applied, i);
        var a :| 0 <= a < |s.applied| && s.applied[a].of == i;
        assert next.applied[a].of == i;
      }
    }
  }

  lemma AppliedKept(s: State, step: Step, departments: Departments, every: int)
    requires Allowed(s, step) && AllSound(s.sessions, departments) && AppliedOnce(s)
    ensures AppliedOnce(Next(s, step, departments, every))
  {
    var next := Next(s, step, departments, every);
    if step.Judge? {
      JudgedDue(s, step.k, step.v, step.id, departments, every);
    }
    AppliedGrows(s, next, if step.Judge? then SourceOf(s, step.k, step.v) else |s.sessions|);
  }

  predicate Belongs(s: Session, departments: Departments, d: DepartmentId) {
    s.task in departments && departments[s.task] == d
  }

  predicate IsCounted(s: State, k: nat, v: Verdict, departments: Departments, d: DepartmentId)
    requires k < |s.sessions|
  {
    !IsSecond(Recorded(s.sessions, k, v), k) && Belongs(s.sessions[k], departments, d)
  }

  lemma RecordedSets(s: State, k: nat, v: Verdict, departments: Departments, d: DepartmentId)
    requires k < |s.sessions| && s.sessions[k].verifier && Unjudged(s.sessions[k])
    ensures k !in FirstVerdicts(s.sessions, departments, d) && k !in Selected(s.sessions, d)
    ensures FirstVerdicts(Recorded(s.sessions, k, v), departments, d)
         == FirstVerdicts(s.sessions, departments, d) + if Belongs(s.sessions[k], departments, d) then {k} else {}
    ensures Selected(Recorded(s.sessions, k, v), d) == Selected(s.sessions, d)
  {
  }

  lemma PairedSets(sessions: seq<Session>, k: nat, j: nat, v: Verdict, id: string, departments: Departments,
    d: DepartmentId)
    requires k < |sessions| && j < |sessions| && j != k && sessions[j].comparison.Awaiting?
    ensures FirstVerdicts(Paired(sessions, k, j, v, id), departments, d) ==
      FirstVerdicts(sessions, departments, d) - {k}
    ensures Selected(Paired(sessions, k, j, v, id), d) == Selected(sessions, d)
  {
  }

  lemma HeldSets(sessions: seq<Session>, k: nat, c: Comparison, departments: Departments, d: DepartmentId)
    requires k < |sessions| && sessions[k].comparison.NotSelected? && c.Awaiting?
    ensures var after := sessions[k := sessions[k].(comparison := c)];
      && FirstVerdicts(after, departments, d) == FirstVerdicts(sessions, departments, d)
      && Selected(after, d) == Selected(sessions, d) + if c.department == d then {k} else {}
  {
  }

  /** What one verdict does to the two counts of a department. */
  lemma JudgedCounts(s: State, k: nat, v: Verdict, id: string, departments: Departments, every: int, d: DepartmentId)
    requires Allowed(s, Judge(k, v, id))
    ensures var after := Next(s, Judge(k, v, id), departments, every).sessions;
      var firsts, selected := FirstVerdicts(s.sessions, departments, d), Selected(s.sessions, d);
      var counted := IsCounted(s, k, v, departments, d);
      && |FirstVerdicts(after, departments, d)| == |firsts| + (if counted then 1 else 0)
      && |Selected(after, d)| == |selected| + (if counted && IsNth(1 + |firsts|, every) then 1 else 0)
  {
    var recorded := Recorded(s.sessions, k, v);
    RecordedSets(s, k, v, departments, d);
    assert FirstVerdicts(recorded, departments, d) - {k} == FirstVerdicts(s.sessions, departments, d);
    if IsSecond(recorded, k) {
      PairedSets(recorded, k, AwaitingFor(recorded, recorded[k].task).value, v, id, departments, d);
    } else if Selects(recorded, k, departments, every) {
      HeldSets(recorded, k, Held(recorded, k, v, id, departments)[k].comparison, departments, d);
    }
  }

  lemma NextQuota(n: nat, every: int)
    ensures Quota(n + 1, every) == Quota(n, every) + if IsNth(1 + n, every) then 1 else 0
  {
    if every > 0 {
      NextQuotient(n, every);
    }
  }

  lemma NthKept(s: State, step: Step, departments: Departments, every: int)
    requires Allowed(s, step) && AllSound(s.sessions, departments) && EveryNth(s.sessions, departments, every)
    ensures EveryNth(Next(s, step, departments, every).sessions, departments, every)
  {
    var after := Next(s, step, departments, every).sessions;
    forall d ensures |Selected(after, d)| == Quota(|FirstVerdicts(after, departments, d)|, every) {
      var firsts, selected := FirstVerdicts(s.sessions, departments, d), Selected(s.sessions, d);
      if step.Begin? {
        assert FirstVerdicts(after, departments, d) == firsts && Selected(after, d) == selected;
      } else {
        JudgedCounts(s, step.k, step.v, step.id, departments, every, d);
        NextQuota(|firsts|, every);
      }
    }
  }

  // ----- The results -----

  lemma NothingSelected(departments: Departments, every: int)
    ensures EveryNth([], departments, every)
  {
    forall d ensures Selected([], d) == {} && FirstVerdicts([], departments, d) == {} {
    }
  }

  lemma {:induction false} RunKeeps(states: seq<State>, steps: seq<Step>, departments: Departments, every: int, n: nat)
    requires IsRun(states, steps, departments, every) && n <= |steps|
    ensures AllSound(states[n].sessions, departments) && OneAwaiting(states[n].sessions)
    ensures OneSecondEach(states[n].sessions)
    ensures EveryNth(states[n].sessions, departments, every) && AppliedOnce(states[n])
  {
    if n == 0 {
      NothingSelected(departments, every);
    } else {
      RunKeeps(states, steps, departments, every, n - 1);
      var s, step := states[n - 1], steps[n - 1];
      SoundKept(s, step, departments, every);
      AwaitingKept(s, step, departments, every);
      SecondsKept(s, step, departments, every);
      AppliedKept(s, step, departments, every);
      NthKept(s, step, departments, every);
    }
  }

  /** After k first verdicts of a department exactly k div N second leads were requested, and no task awaits two. */
  lemma SecondLeadEveryNth(states: seq<State>, steps: seq<Step>, departments: Departments, every: int, n: nat,
    d: DepartmentId)
    requires IsRun(states, steps, departments, every) && n <= |steps|
    ensures every > 0 ==>
      |Selected(states[n].sessions, d)| == |FirstVerdicts(states[n].sessions, departments, d)| / every
    ensures every <= 0 ==> Selected(states[n].sessions, d) == {}
    ensures OneAwaiting(states[n].sessions)
  {
    RunKeeps(states, steps, departments, every, n);
  }

  /**
    The verdicts acted on are those of the first leads: each that does not await a second
    lead once, as given, and never one that a second lead gave.
   */
  lemma FirstVerdictsApply(states: seq<State>, steps: seq<Step>, departments: Departments, every: int, n: nat, i: nat)
    requires IsRun(states, steps, departments, every) && n <= |steps| && i < |states[n].sessions|
    ensures WasApplied(states[n].applied, i) <==> IsDue(states[n].sessions[i])
    ensures forall a, b :: 0 <= a < b < |states[n].applied| ==> states[n].applied[a].of != states[n].applied[b].of
    ensures forall a :: 0 <= a < |states[n].applied| && states[n].applied[a].of == i ==>
      states[n].sessions[i].verdict == Some(states[n].applied[a].verdict)
  {
    RunKeeps(states, steps, departments, every, n);
  }

  /** The second leads of a department: the sessions set beside one of its first verdicts. */
  function SecondLeadsOf(sessions: seq<Session>, d: DepartmentId): set<nat> {
    set i | 0 <= i < |sessions| && sessions[i].secondOf.Some? && sessions[i].secondOf.value < |sessions|
            && sessions[sessions[i].secondOf.value].comparison.Compared?
            && sessions[sessions[i].secondOf.value].comparison.department == d
  }

  lemma {:induction false} SameSize(a: set<nat>, b: set<nat>, sessions: seq<Session>)
    requires forall i :: i in a ==> i < |sessions| && sessions[i].secondOf.Some? && sessions[i].secondOf.value in b
    requires forall j :: j in b ==> exists i :: i in a && sessions[i].secondOf == Some(j)
    requires OneSecondEach(sessions)
    ensures |a| == |b|
  {
    if i :| i in a {
      var j := sessions[i].secondOf.value;
      forall h | h in b - {j} ensures exists g :: g in a - {i} && sessions[g].secondOf == Some(h) {
        var g :| g in a && sessions[g].secondOf == Some(h);
        assert g in a - {i};
      }
      SameSize(a - {i}, b - {j}, sessions);
    } else {
      assert b == {};
    }
  }

  /** The measured rate is of all second leads and of nothing else: each comparison is one second verdict. */
  lemma EachComparisonIsOneSecondLead(states: seq<State>, steps: seq<Step>, departments: Departments, every: int,
    n: nat, d: DepartmentId)
    requires IsRun(states, steps, departments, every) && n <= |steps|
    ensures |SecondLeadsOf(states[n].sessions, d)| == |Comparisons(states[n].sessions, d)|
    ensures |Disagreements(states[n].sessions, d)| <= |Comparisons(states[n].sessions,
      d)| <= |Selected(states[n].sessions, d)|
  {
    RunKeeps(states, steps, departments, every, n);
    var sessions := states[n].sessions;
    forall j | j in Comparisons(sessions, d)
      ensures exists i :: i in SecondLeadsOf(sessions, d) && sessions[i].secondOf == Some(j)
    {
      assert HasSecond(sessions, j);
    }
    forall i | i in SecondLeadsOf(sessions, d) ensures sessions[i].secondOf.value in Comparisons(sessions, d) {
    }
    SameSize(SecondLeadsOf(sessions, d), Comparisons(sessions, d), sessions);
    SubsetSize(Disagreements(sessions, d), Comparisons(sessions, d));
    SubsetSize(Comparisons(sessions, d), Selected(sessions, d));
  }
}
