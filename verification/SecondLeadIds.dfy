/** Which verification id each verdict of a lead is bound to, and what one verdict does. */
module SecondLeadIds {
  import opened Wrappers
  import opened Collections
  import opened SecondLeads
  import opened SecondLeadRuns

  // ----- One verdict -----

  /** All but the sessions `k` and `j` are as they were. */
  ghost predicate OthersAsBefore(before: seq<Session>, after: seq<Session>, k: nat, j: nat) {
    |after| == |before| && forall i :: 0 <= i < |before| && i != k && i != j ==> after[i] == before[i]
  }

  lemma {:induction false} TheOneAwaiting(sessions: seq<Session>, task: TaskId, j: nat)
    requires OneAwaiting(sessions) && j < |sessions| && AwaitsFor(sessions[j], task)
    ensures AwaitingFor(sessions, task) == Some(j)
  {
    var i := AwaitingFor(sessions, task);
  }

  /**
    A verdict on a task whose first verdict is held back: the two are compared, and the
    first one is applied under the id it came with.
   */
  lemma SecondVerdict(s: State, k: nat, v: Verdict, id: string, departments: Departments, every: int, j: nat)
    requires Allowed(s, Judge(k, v, id)) && OneAwaiting(s.sessions)
    requires j < |s.sessions| && s.sessions[j].task == s.sessions[k].task && s.sessions[j].comparison.Awaiting?
    ensures var next := Next(s, Judge(k, v, id), departments, every);
      && OthersAsBefore(s.sessions, next.sessions, k, j)
      && next.sessions[k] == s.sessions[k].(verdict := Some(v), secondOf := Some(j))
      && next.sessions[j].task == s.sessions[j].task && next.sessions[j].verifier == s.sessions[j].verifier
      && next.sessions[j].verdict == s.sessions[j].verdict && next.sessions[j].secondOf == s.sessions[j].secondOf
      && next.sessions[j].comparison.Compared?
      && next.sessions[j].comparison.department == s.sessions[j].comparison.department
      && next.sessions[j].comparison.ordinal == s.sessions[j].comparison.ordinal
      && next.sessions[j].comparison.verdict == s.sessions[j].comparison.verdict
      && next.sessions[j].comparison.verificationId == s.sessions[j].comparison.verificationId
      && next.sessions[j].comparison.secondId == id
      && (next.sessions[j].comparison.agrees <==> v.pass == s.sessions[j].comparison.verdict.pass)
      && next.applied == s.applied +
          [Applied(j, s.sessions[j].comparison.verdict, s.sessions[j].comparison.verificationId)]
  {
    var recorded := Recorded(s.sessions, k, v);
    TheOneAwaiting(recorded, s.sessions[k].task, j);
  }

  /** No first verdict of the task is held back. */
  predicate NoneAwaits(sessions: seq<Session>, task: TaskId) {
    forall i :: 0 <= i < |sessions| ==> !AwaitsFor(sessions[i], task)
  }

  /** The first verdicts that a department has had. */
  function CountOf(s: State, departments: Departments, task: TaskId): nat
    requires task in departments
  {
    |FirstVerdicts(s.sessions, departments, departments[task])|
  }

  lemma CountedApart(s: State, k: nat, v: Verdict, departments: Departments)
    requires k < |s.sessions| && s.sessions[k].verifier && Unjudged(s.sessions[k]) && s.sessions[k].task in departments
    ensures |FirstVerdicts(Recorded(s.sessions, k, v), departments, departments[s.sessions[k].task]) - {k}| ==
      CountOf(s, departments, s.sessions[k].task)
  {
    var d := departments[s.sessions[k].task];
    RecordedSets(s, k, v, departments, d);
    assert FirstVerdicts(Recorded(s.sessions, k, v), departments, d) - {k} == FirstVerdicts(s.sessions, departments, d);
  }

  /**
    Any other verdict: the N-th of a department is held back with its id, and nothing is
    applied; every other one is applied at once, under the id it came with.
   */
  lemma FirstVerdict(s: State, k: nat, v: Verdict, id: string, departments: Departments, every: int)
    requires Allowed(s, Judge(k, v, id)) && NoneAwaits(s.sessions, s.sessions[k].task)
    ensures var next := Next(s, Judge(k, v, id), departments, every); var task := s.sessions[k].task;
      && OthersAsBefore(s.sessions, next.sessions, k, k)
      && if task in departments && every > 0 && (1 + CountOf(s, departments, task)) % every == 0 then
           && next.sessions[k] == s.sessions[k].(verdict := Some(v),
                comparison := Awaiting(departments[task], 1 + CountOf(s, departments, task), v, id))
           && next.applied == s.applied
         else
           && next.sessions[k] == s.sessions[k].(verdict := Some(v))
           && next.applied == s.applied + [Applied(k, v, id)]
  {
    var recorded := Recorded(s.sessions, k, v);
    var task := s.sessions[k].task;
    forall i | 0 <= i < |recorded| ensures !AwaitsFor(recorded[i], task) {
      assert !AwaitsFor(s.sessions[i], task);
    }
    if task in departments {
      CountedApart(s, k, v, departments);
    }
  }

  // ----- Runs -----

  /** The verdict and the id were offered together, in the step that judged the session. */
  ghost predicate Offered(steps: seq<Step>, n: nat, k: nat, v: Verdict, id: string)
    requires n <= |steps|
  {
    exists m :: 0 <= m < n && steps[m] == Judge(k, v, id)
  }

  lemma StillOffered(steps: seq<Step>, n: nat, k: nat, v: Verdict, id: string)
    requires n < |steps| && (Offered(steps, n, k, v, id) || steps[n] == Judge(k, v, id))
    ensures Offered(steps, n + 1, k, v, id)
  {
    if Offered(steps, n, k, v, id) {
      var m :| 0 <= m < n && steps[m] == Judge(k, v, id);
      assert 0 <= m < n + 1;
    }
  }

  /** Session `i` gave the second verdict on session `j`, and the comparison has its id and says whether they agreed. */
  ghost predicate GaveSecond(sessions: seq<Session>, steps: seq<Step>, n: nat, j: nat, i: int, w: Verdict)
    requires n <= |steps| && j < |sessions| && sessions[j].comparison.Compared?
  {
    && 0 <= i < |sessions| && sessions[i].secondOf == Some(j)
    && Offered(steps, n, i, w, sessions[j].comparison.secondId)
    && (sessions[j].comparison.agrees <==> w.pass == sessions[j].comparison.verdict.pass)
  }

  /** A held or compared verdict has the id that was offered with it, and a comparison the id of its second lead. */
  ghost predicate IdsTraced(sessions: seq<Session>, steps: seq<Step>, n: nat, j: nat)
    requires n <= |steps| && j < |sessions|
  {
    var c := sessions[j].comparison;
    && (!c.NotSelected? ==> Offered(steps, n, j, c.verdict, c.verificationId))
    && (c.Compared? ==> exists i, w :: GaveSecond(sessions, steps, n, j, i, w))
  }

  ghost predicate AppliedTraced(s: State, steps: seq<Step>, n: nat, a: nat)
    requires n <= |steps| && a < |s.applied|
  {
    Offered(steps, n, s.applied[a].of, s.applied[a].verdict, s.applied[a].verificationId)
  }

  ghost predicate AllTraced(s: State, steps: seq<Step>, n: nat)
    requires n <= |steps|
  {
    && (forall j :: 0 <= j < |s.sessions| ==> IdsTraced(s.sessions, steps, n, j))
    && (forall a :: 0 <= a < |s.applied| ==> AppliedTraced(s, steps, n, a))
  }

  lemma TracedLater(before: seq<Session>, after: seq<Session>, steps: seq<Step>, n: nat, j: nat)
    requires n < |steps| && j < |before| <= |after| && IdsTraced(before, steps, n, j)
    requires after[j].comparison == before[j].comparison
    requires forall i :: 0 <= i < |before| && before[i].secondOf.Some? ==> after[i].secondOf == before[i].secondOf
    ensures IdsTraced(after, steps, n + 1, j)
  {
    var c := before[j].comparison;
    if !c.NotSelected? {
      StillOffered(steps, n, j, c.verdict, c.verificationId);
    }
    if c.Compared? {
      var i, w :| GaveSecond(before, steps, n, j, i, w);
      StillOffered(steps, n, i, w, c.secondId);
      assert GaveSecond(after, steps, n + 1, j, i, w);
    }
  }

  lemma AppliedLater(s: State, next: State, steps: seq<Step>, n: nat, a: nat)
    requires n < |steps| && a < |s.applied| <= |next.applied| && next.applied[a] == s.applied[a]
    requires AppliedTraced(s, steps, n, a)
    ensures AppliedTraced(next, steps, n + 1, a)
  {
    StillOffered(steps, n, s.applied[a].of, s.applied[a].verdict, s.applied[a].verificationId);
  }

  lemma SecondTraced(s: State, steps: seq<Step>, n: nat, departments: Departments, every: int, j: nat)
    requires n < |steps| && steps[n].Judge? && Allowed(s, steps[n]) && OneAwaiting(s.sessions) && AllTraced(s, steps, n)
    requires j < |s.sessions| && s.sessions[j].task == s.sessions[steps[n].k].task && s.sessions[j].comparison.Awaiting?
    ensures AllTraced(Next(s, steps[n], departments, every), steps, n + 1)
  {
    var k, v, id := steps[n].k, steps[n].v, steps[n].id;
    var next, later := Next(s, steps[n], departments, every), n + 1;
    SecondVerdict(s, k, v, id, departments, every, j);
    forall i | 0 <= i < |next.sessions| ensures IdsTraced(next.sessions, steps, later, i) {
      assert IdsTraced(s.sessions, steps, n, i);
      if i != j {
        TracedLater(s.sessions, next.sessions, steps, n, i);
      } else {
        var c := s.sessions[j].comparison;
        StillOffered(steps, n, j, c.verdict, c.verificationId);
        StillOffered(steps, n, k, v, id);
        assert GaveSecond(next.sessions, steps, n + 1, j, k, v);
      }
    }
    forall a | 0 <= a < |next.applied| ensures AppliedTraced(next, steps, later, a) {
      if a < |s.applied| {
        AppliedLater(s, next, steps, n, a);
      } else {
        assert IdsTraced(s.sessions, steps, n, j);
        StillOffered(steps, n, j, s.sessions[j].comparison.verdict, s.sessions[j].comparison.verificationId);
      }
    }
  }

  lemma FirstTraced(s: State, steps: seq<Step>, n: nat, departments: Departments, every: int)
    requires n < |steps| && steps[n].Judge? && Allowed(s, steps[n]) && AllTraced(s, steps, n)
    requires NoneAwaits(s.sessions, s.sessions[steps[n].k].task)
    ensures AllTraced(Next(s, steps[n], departments, every), steps, n + 1)
  {
    var k, v, id := steps[n].k, steps[n].v, steps[n].id;
    var next, later := Next(s, steps[n], departments, every), n + 1;
    FirstVerdict(s, k, v, id, departments, every);
    StillOffered(steps, n, k, v, id);
    forall i | 0 <= i < |next.sessions| ensures IdsTraced(next.sessions, steps, later, i) {
      assert IdsTraced(s.sessions, steps, n, i);
      if i != k {
        TracedLater(s.sessions, next.sessions, steps, n, i);
      }
    }
    forall a | 0 <= a < |next.applied| ensures AppliedTraced(next, steps, later, a) {
      if a < |s.applied| {
        AppliedLater(s, next, steps, n, a);
      }
    }
  }

  lemma StepTraced(s: State, steps: seq<Step>, n: nat, departments: Departments, every: int)
    requires n < |steps| && Allowed(s, steps[n]) && OneAwaiting(s.sessions) && AllTraced(s, steps, n)
    ensures AllTraced(Next(s, steps[n], departments, every), steps, n + 1)
  {
    if steps[n].Begin? {
      var next, later := Next(s, steps[n], departments, every), n + 1;
      forall j | 0 <= j < |next.sessions| ensures IdsTraced(next.sessions, steps, later, j) {
        if j < |s.sessions| {
          TracedLater(s.sessions, next.sessions, steps, n, j);
        }
      }
      forall a | 0 <= a < |next.applied| ensures AppliedTraced(next, steps, later, a) {
        AppliedLater(s, next, steps, n, a);
      }
    } else if j :| 0 <= j < |s.sessions| && AwaitsFor(s.sessions[j], s.sessions[steps[n].k].task) {
      SecondTraced(s, steps, n, departments, every, j);
    } else {
      FirstTraced(s, steps, n, departments, every);
    }
  }

  lemma {:induction false} RunTraced(states: seq<State>, steps: seq<Step>, departments: Departments, every: int, n: nat)
    requires IsRun(states, steps, departments, every) && n <= |steps|
    ensures AllTraced(states[n], steps, n)
  {
    if n > 0 {
      RunTraced(states, steps, departments, every, n - 1);
      RunKeeps(states, steps, departments, every, n - 1);
      StepTraced(states[n - 1], steps, n - 1, departments, every);
    }
  }

  /** In every run, a verdict is acted on under the verification id that was offered with it for that very session. */
  lemma AppliedUnderItsOwnId(states: seq<State>, steps: seq<Step>, departments: Departments, every: int, n: nat, a: nat)
    requires IsRun(states, steps, departments, every) && n <= |steps| && a < |states[n].applied|
    ensures var applied := states[n].applied[a];
      exists m :: 0 <= m < n && steps[m] == Judge(applied.of, applied.verdict, applied.verificationId)
  {
    RunTraced(states, steps, departments, every, n);
    assert AppliedTraced(states[n], steps, n, a);
  }

  /** In every run, a comparison carries the first lead's own id, and the id that its second lead offered. */
  lemma ComparedUnderBothIds(states: seq<State>, steps: seq<Step>, departments: Departments, every: int, n: nat, j: nat)
    requires IsRun(states, steps, departments, every) && n <= |steps|
    requires j < |states[n].sessions| && states[n].sessions[j].comparison.Compared?
    ensures var c := states[n].sessions[j].comparison;
      && Offered(steps, n, j, c.verdict, c.verificationId)
      && exists i, w :: GaveSecond(states[n].sessions, steps, n, j, i, w)
  {
    RunTraced(states, steps, departments, every, n);
    assert IdsTraced(states[n].sessions, steps, n, j);
  }

  lemma JudgedStaysJudged(s: State, step: Step, departments: Departments, every: int, k: nat)
    requires Allowed(s, step) && k < |s.sessions| && (s.sessions[k].verdict.Some? || (step.Judge? && step.k == k))
    ensures k < |Next(s, step, departments, every).sessions|
    ensures Next(s, step, departments, every).sessions[k].verdict.Some?
  {
  }

  lemma {:induction false} JudgedForGood(states: seq<State>, steps: seq<Step>, departments: Departments, every: int,
    m: nat, n: nat)
    requires IsRun(states, steps, departments, every) && m < n <= |steps| && steps[m].Judge?
    ensures steps[m].k < |states[n].sessions| && states[n].sessions[steps[m].k].verdict.Some?
    decreases n
  {
    if m < n - 1 {
      JudgedForGood(states, steps, departments, every, m, n - 1);
    }
    JudgedStaysJudged(states[n - 1], steps[n - 1], departments, every, steps[m].k);
  }

  /** A session is judged once, so the id of its verdict is one id. */
  lemma JudgedOnce(states: seq<State>, steps: seq<Step>, departments: Departments, every: int, m: nat, n: nat)
    requires IsRun(states, steps, departments, every) && m < n < |steps| && steps[m].Judge? && steps[n].Judge?
    ensures steps[m].k != steps[n].k
  {
    JudgedForGood(states, steps, departments, every, m, n);
  }

  // ----- The measured disagreements -----

  /** Session `i` was a second lead on session `j` and passed what the other one did not, or the other way round. */
  ghost predicate Disagreed(sessions: seq<Session>, j: nat, i: int)
    requires j < |sessions|
  {
    && 0 <= i < |sessions| && sessions[i].secondOf == Some(j)
    && sessions[i].verdict.Some? && sessions[j].verdict.Some?
    && sessions[i].verdict.value.pass != sessions[j].verdict.value.pass
  }

  /**
    In every run the comparisons of a department are the verdicts on its tasks that had a second
    lead, and its disagreements those that the second lead contradicted.
   */
  lemma CountedExactly(states: seq<State>, steps: seq<Step>, departments: Departments, every: int, n: nat, j: nat,
    d: DepartmentId)
    requires IsRun(states, steps, departments, every) && n <= |steps| && j < |states[n].sessions|
    ensures var sessions := states[n].sessions;
      && (j in Comparisons(sessions, d) <==>
          HasSecond(sessions, j) && Belongs(sessions[j], departments, d))
      && (j in Disagreements(sessions, d) <==>
          Belongs(sessions[j], departments, d) && exists i :: Disagreed(sessions, j, i))
  {
    RunKeeps(states, steps, departments, every, n);
    var sessions := states[n].sessions;
    assert SelectedSound(sessions, departments, j);
    forall i | 0 <= i < |sessions| && sessions[i].secondOf == Some(j)
      ensures sessions[j].comparison.Compared? && sessions[i].verdict.Some?
      ensures sessions[j].comparison.agrees == (sessions[i].verdict.value.pass == sessions[j].comparison.verdict.pass)
    {
      assert SecondSound(sessions, i);
    }
    if sessions[j].comparison.Compared? {
      assert HasSecond(sessions, j);
      var i :| 0 <= i < |sessions| && sessions[i].secondOf == Some(j);
      assert Disagreed(sessions, j, i) <==> !sessions[j].comparison.agrees;
    }
  }

  // ----- Ordinals -----

  /** A held verdict is a multiple of N in the department's count, and no later than the last. */
  ghost predicate OrdinalSound(sessions: seq<Session>, departments: Departments, every: int, j: nat)
    requires j < |sessions|
  {
    var c := sessions[j].comparison;
    c.NotSelected? ||
      (every > 0 && c.ordinal % every == 0 && 1 <= c.ordinal <= |FirstVerdicts(sessions, departments, c.department)|)
  }

  predicate SameDepartment(a: Comparison, b: Comparison) {
    !a.NotSelected? && !b.NotSelected? && a.department == b.department
  }

  ghost predicate OrdinalsApart(sessions: seq<Session>) {
    forall i, j :: 0 <= i < j < |sessions| && SameDepartment(sessions[i].comparison, sessions[j].comparison) ==>
      sessions[i].comparison.ordinal != sessions[j].comparison.ordinal
  }

  ghost predicate OrdinalsSound(sessions: seq<Session>, departments: Departments, every: int) {
    OrdinalsApart(sessions) && forall j :: 0 <= j < |sessions| ==> OrdinalSound(sessions, departments, every, j)
  }

  lemma CountGrows(s: State, step: Step, departments: Departments, every: int, d: DepartmentId)
    requires Allowed(s, step)
    ensures |FirstVerdicts(s.sessions, departments, d)| <=
      |FirstVerdicts(Next(s, step, departments, every).sessions, departments, d)|
  {
    if step.Judge? {
      JudgedCounts(s, step.k, step.v, step.id, departments, every, d);
    } else {
      assert FirstVerdicts(s.sessions, departments, d) <=
        FirstVerdicts(Next(s, step, departments, every).sessions, departments, d);
      SubsetSize(FirstVerdicts(s.sessions, departments, d),
        FirstVerdicts(Next(s, step, departments, every).sessions, departments, d));
    }
  }

  /** The verdict just judged is the next one of its department, and an N-th. */
  ghost predicate IsNextOrdinal(s: State, after: State, departments: Departments, every: int, c: Comparison)
    requires !c.NotSelected?
  {
    && every > 0 && c.ordinal % every == 0
    && c.ordinal == 1 + |FirstVerdicts(s.sessions, departments, c.department)|
    && c.ordinal <= |FirstVerdicts(after.sessions, departments, c.department)|
  }

  lemma RecordedNotSecond(s: State, k: nat, v: Verdict)
    requires k < |s.sessions| && Unjudged(s.sessions[k]) && NoneAwaits(s.sessions, s.sessions[k].task)
    ensures !IsSecond(Recorded(s.sessions, k, v), k)
  {
    var recorded := Recorded(s.sessions, k, v);
    forall i | 0 <= i < |recorded| ensures !AwaitsFor(recorded[i], s.sessions[k].task) {
      assert !AwaitsFor(s.sessions[i], s.sessions[k].task);
    }
  }

  /** What a step does to the ordinals: it keeps them, and may add the next one. */
  lemma StepOrdinal(s: State, step: Step, departments: Departments, every: int, j: nat)
    requires Allowed(s, step) && OneAwaiting(s.sessions) && j < |Next(s, step, departments, every).sessions|
    requires !Next(s, step, departments, every).sessions[j].comparison.NotSelected?
    ensures j < |s.sessions|
    ensures var next := Next(s, step, departments, every); var before := s.sessions[j].comparison;
      var after := next.sessions[j].comparison;
      if before.NotSelected? then step.Judge? && step.k == j && IsNextOrdinal(s, next, departments, every, after)
      else after.department == before.department && after.ordinal == before.ordinal
  {
    if step.Judge? {
      var task := s.sessions[step.k].task;
      if first :| 0 <= first < |s.sessions| && AwaitsFor(s.sessions[first], task) {
        SecondVerdict(s, step.k, step.v, step.id, departments, every, first);
      } else {
        FirstVerdict(s, step.k, step.v, step.id, departments, every);
        if task in departments {
          JudgedCounts(s, step.k, step.v, step.id, departments, every, departments[task]);
          RecordedNotSecond(s, step.k, step.v);
        }
      }
    }
  }

  lemma OrdinalsKept(s: State, step: Step, departments: Departments, every: int)
    requires Allowed(s, step) && OneAwaiting(s.sessions) && OrdinalsSound(s.sessions, departments, every)
    ensures OrdinalsSound(Next(s, step, departments, every).sessions, departments, every)
  {
    var after := Next(s, step, departments, every).sessions;
    forall j | 0 <= j < |after| ensures OrdinalSound(after, departments, every, j) {
      if !after[j].comparison.NotSelected? {
        StepOrdinal(s, step, departments, every, j);
        assert OrdinalSound(s.sessions, departments, every, j);
        CountGrows(s, step, departments, every, after[j].comparison.department);
      }
    }
    forall i, j | 0 <= i < j < |after| && SameDepartment(after[i].comparison, after[j].comparison)
      ensures after[i].comparison.ordinal != after[j].comparison.ordinal
    {
      StepOrdinal(s, step, departments, every, i);
      StepOrdinal(s, step, departments, every, j);
      assert OrdinalSound(s.sessions, departments, every, i) && OrdinalSound(s.sessions, departments, every, j);
    }
  }

  /** In every run the verdicts held back for second leads are the N-th, 2N-th, ... of their department, each once. */
  lemma {:induction false} HeldAreTheNths(states: seq<State>, steps: seq<Step>, departments: Departments, every: int,
    n: nat)
    requires IsRun(states, steps, departments, every) && n <= |steps|
    ensures OrdinalsSound(states[n].sessions, departments, every)
  {
    if n > 0 {
      HeldAreTheNths(states, steps, departments, every, n - 1);
      RunKeeps(states, steps, departments, every, n - 1);
      OrdinalsKept(states[n - 1], steps[n - 1], departments, every);
    }
  }
}
