/**
  What a return and a revocation do, task by task and patch by patch: when a stopped task
  goes back, to which state and with which hire, and what is taken back with the patches.
 */
module GrantEffects {
  import opened Wrappers
  import opened Arithmetic
  import opened Grants
  import opened GrantRuns

  // ----- Returns -----

  /** The task has had as many revisions as all its hires are worth, and no stronger effort is left. */
  predicate AtTheTop(s: State, task: TaskId, budget: Budget) {
    && budget.topEffort
    && (if task in s.revisions then s.revisions[task] else 0) >=
        budget.maximum * ((if task in s.tallies.rehires then s.tallies.rehires[task] else 0) + 1)
  }

  /** The ticket staged the patch for acceptance, it is staged or installed, and no return has rested on it. */
  ghost predicate Unspent(s: State, i: nat, changes: set<PatchId>, p: PatchId)
    requires i < |s.tickets|
  {
    && p in s.tickets[i].patches && p in changes
    && p in s.patches && (s.patches[p] == Pending || s.patches[p] == Installed)
    && forall j, a :: !Rests(s.tickets, j, a, p)
  }

  predicate IsStopped(s: State, task: TaskId) {
    task in s.tallies.states && s.tallies.states[task] == Blocked
  }

  predicate NeedsPatch(s: State, i: nat, task: TaskId, budget: Budget)
    requires i < |s.tickets|
  {
    s.tickets[i].ladderExhausted || AtTheTop(s, task, budget)
  }

  lemma ConsumedMeans(tickets: seq<Ticket>, p: PatchId)
    ensures p in Consumed(tickets) <==> exists j, a :: Rests(tickets, j, a, p)
  {
    if p in Consumed(tickets) {
      var t, e :| t in tickets && e in t.entries && p in e.patches;
      var j :| 0 <= j < |tickets| && tickets[j] == t;
      var a :| 0 <= a < |t.entries| && t.entries[a] == e;
      assert Rests(tickets, j, a, p);
    }
    if j, a :| Rests(tickets, j, a, p) {
      RestsIsConsumed(tickets, j, a, p);
    }
  }

  lemma FreshMeans(s: State, i: nat, changes: set<PatchId>)
    requires i < |s.tickets|
    ensures forall p :: p in Fresh(s.tickets[i].patches, s.patches, changes, Consumed(s.tickets)) <==>
      Unspent(s, i, changes, p)
  {
    forall p ensures p in Consumed(s.tickets) <==> exists j, a :: Rests(s.tickets, j, a, p) {
      ConsumedMeans(s.tickets, p);
    }
  }

  lemma NoneFresh(s: State, i: nat, changes: set<PatchId>)
    requires i < |s.tickets|
    ensures Fresh(s.tickets[i].patches, s.patches, changes, Consumed(s.tickets)) == [] <==>
      forall p :: !Unspent(s, i, changes, p)
  {
    FreshMeans(s, i, changes);
    var unspent := Fresh(s.tickets[i].patches, s.patches, changes, Consumed(s.tickets));
    if unspent != [] {
      assert unspent[0] in unspent;
    }
  }

  /** Which returns are refused: a task that is not stopped, and one at the top without an unspent patch. */
  lemma ReturnRefusesExactly(s: State, i: nat, task: TaskId, budget: Budget, changes: set<PatchId>, at: nat)
    requires i < |s.tickets|
    ensures var r := Returned(s, i, task, budget, changes, at);
      && (r == Err(NotBlocked) <==> !IsStopped(s, task))
      && (r == Err(NoFreshPatch) <==>
          IsStopped(s, task) && NeedsPatch(s, i, task, budget) && forall p :: !Unspent(s, i, changes, p))
  {
    NoneFresh(s, i, changes);
  }

  /** Only the ticket's record of returns grew, by the entry. */
  ghost predicate NotedAs(s: State, next: State, i: nat, e: Grants.Return)
    requires i < |s.tickets|
  {
    && |next.tickets| == |s.tickets| && (forall j :: 0 <= j < |s.tickets| && j != i ==> next.tickets[j] == s.tickets[j])
    && next.tickets[i].entries == s.tickets[i].entries + [e]
    && next.tickets[i].ladderExhausted == s.tickets[i].ladderExhausted
    && next.tickets[i].patches == s.tickets[i].patches && next.tickets[i].revoked == s.tickets[i].revoked
  }

  /** With that many hires the task has a revision left. */
  predicate LeavesOne(used: nat, maximum: nat, hires: nat) {
    used < (if maximum > 1 then maximum else 1) * (hires + 1)
  }

  /** The least tally, from the one before on, that leaves the task a revision. */
  predicate IsLeastTally(used: nat, before: nat, maximum: nat, now: nat) {
    && before <= now && LeavesOne(used, maximum, now)
    && forall n :: before <= n < now ==> !LeavesOne(used, maximum, n)
  }

  lemma FreshTallyIsLeast(used: nat, before: nat, budget: Budget)
    ensures IsLeastTally(used, before, budget.maximum, FreshTally(used, before, budget))
  {
    var m := if budget.maximum > 1 then budget.maximum else 1;
    var q := used / m;
    var now := FreshTally(used, before, budget);
    assert used == q * m + used % m && m * (q + 1) == q * m + m;
    if q < now {
      ProductGrows(q, now, m);
      assert m * (now + 1) == now * m + m;
    }
    forall n | before <= n < now ensures !LeavesOne(used, budget.maximum, n) {
      ProductGrows(n, q, m);
      assert m * (n + 1) == n * m + m;
    }
  }

  /**
    What a return does: the task is READY again if it has had no revision and waits for a
    verifier if it has, the entry says so, and no other task is touched.  Below the top
    nothing else happens.
   */
  lemma ReturnSends(s: State, i: nat, task: TaskId, budget: Budget, changes: set<PatchId>, at: nat, next: State)
    requires i < |s.tickets| && Returned(s, i, task, budget, changes, at) == Ok(next)
    ensures var e := next.tickets[i].entries[|next.tickets[i].entries| - 1];
      && NotedAs(s, next, i, e) && e.task == task && e.at == at
      && next.tallies.states == s.tallies.states[task := e.to]
      && (e.to == Ready <==> task !in s.revisions || s.revisions[task] == 0)
      && (e.to == Implemented <==> task in s.revisions && s.revisions[task] > 0)
      && next.patches == s.patches && next.revisions == s.revisions && next.atWork == s.atWork
      && (!NeedsPatch(s, i, task, budget) ==>
          && e.grant.None? && e.patches == []
          && next.tallies.rehires == s.tallies.rehires && next.tallies.grantedOn == s.tallies.grantedOn)
  {
  }

  /** At the top every unspent patch of the ticket is spent, on one hire that leaves the task a revision. */
  lemma ReturnBuys(s: State, i: nat, task: TaskId, budget: Budget, changes: set<PatchId>, at: nat, next: State)
    requires i < |s.tickets| && Returned(s, i, task, budget, changes, at) == Ok(next)
    requires NeedsPatch(s, i, task, budget)
    ensures var e := next.tickets[i].entries[|next.tickets[i].entries| - 1];
      && e.patches != [] && (forall p :: p in e.patches <==> Unspent(s, i, changes, p))
      && e.grant.Some? && e.grant.value.before == (if task in s.tallies.rehires then s.tallies.rehires[task] else 0)
      && IsLeastTally(if task in s.revisions then s.revisions[task] else 0, e.grant.value.before, budget.maximum,
           e.grant.value.now)
      && next.tallies.rehires == s.tallies.rehires[task := e.grant.value.now]
      && next.tallies.grantedOn == s.tallies.grantedOn + {task}
  {
    FreshMeans(s, i, changes);
    FreshTallyIsLeast(Count(s.revisions, task), Count(s.tallies.rehires, task), budget);
  }

  // ----- Revocations -----

  /** The return loses its grounds: a patch of it went, no other one is staged or installed, and it still counted. */
  ghost predicate LosesGrounds(s: State, gone: set<PatchId>, e: Grants.Return) {
    exists i :: 0 <= i < |s.tickets| && e in s.tickets[i].entries && (e.task, e.at) !in s.tickets[i].revoked
      && (exists p :: p in e.patches && p in gone)
      && forall p :: p in e.patches && p !in gone && p in s.patches ==>
           s.patches[p] != Pending && s.patches[p] != Installed
  }

  lemma FallsMeans(s: State, gone: set<PatchId>, e: Grants.Return)
    ensures e in Fallen(s.tickets, gone, s.patches) <==> LosesGrounds(s, gone, e)
  {
    FallenMembers(s.tickets, gone, s.patches, e);
    if FallsIn(s.tickets, gone, s.patches, e) {
      var i :| 0 <= i < |s.tickets| && e in s.tickets[i].entries && Falls(e, s.tickets[i].revoked, gone, s.patches);
      forall p | p in e.patches && p !in gone && p in s.patches
        ensures s.patches[p] != Pending && s.patches[p] != Installed
      {
        assert !IsLive(s.patches, p);
      }
    }
  }

  /** A return in the list is of the task, and the task still stands where it sent it, not started. */
  ghost predicate SentBack(w: Tallies, fallen: seq<Grants.Return>, atWork: set<TaskId>, planned: set<TaskId>,
    t: TaskId) {
    && t !in atWork && t in planned && t in w.states
    && exists e :: e in fallen && e.task == t && e.to == w.states[t]
  }

  lemma {:induction false} UndoneStates(w: Tallies, fallen: seq<Grants.Return>, atWork: set<TaskId>,
    planned: set<TaskId>, t: TaskId)
    requires forall e :: e in fallen ==> e.to != Blocked
    ensures var after := UndoneAll(w, fallen, atWork, planned);
      && after.states.Keys == w.states.Keys
      && (t in w.states ==>
          after.states[t] == if SentBack(w, fallen, atWork, planned, t) then Blocked else w.states[t])
      && (t in BlockedBy(w, fallen, atWork, planned) <==> SentBack(w, fallen, atWork, planned, t))
      && (t in after.grantedOn <==> t in w.grantedOn && forall e :: e in fallen ==> e.task != t)
      && ((forall e :: e in fallen ==> e.task != t) ==> Count(after.rehires, t) == Count(w.rehires, t))
  {
    if fallen != [] {
      var n := |fallen| - 1;
      assert fallen == fallen[..n] + [fallen[n]];
      assert forall e :: e in fallen <==> e in fallen[..n] || e == fallen[n];
      UndoneStates(w, fallen[..n], atWork, planned, t);
    }
  }

  /**
    What a revocation does to a task: it is blocked again exactly if a return of it loses its
    grounds, it has not been started or moved since, and the plan still has it.  The tasks
    reported are these; without such a return a task keeps its hires.
   */
  lemma RevocationMeans(s: State, gone: set<PatchId>, planned: set<TaskId>, t: TaskId)
    requires forall e :: LosesGrounds(s, gone, e) ==> e.to != Blocked
    ensures var after := Revoked(s, gone, planned).tallies;
      var stopped := t !in s.atWork && t in planned && t in s.tallies.states
        && exists e :: LosesGrounds(s, gone, e) && e.task == t && e.to == s.tallies.states[t];
      && after.states.Keys == s.tallies.states.Keys
      && (t in s.tallies.states ==> after.states[t] == if stopped then Blocked else s.tallies.states[t])
      && (t in BlockedBy(s.tallies, Fallen(s.tickets, gone, s.patches), s.atWork, planned) <==> stopped)
      && (t in after.grantedOn <==> t in s.tallies.grantedOn && forall e :: LosesGrounds(s, gone, e) ==> e.task != t)
      && ((forall e :: LosesGrounds(s, gone, e) ==> e.task != t) ==>
          Count(after.rehires, t) == Count(s.tallies.rehires, t))
  {
    var fallen := Fallen(s.tickets, gone, s.patches);
    forall e ensures e in fallen <==> LosesGrounds(s, gone, e) {
      FallsMeans(s, gone, e);
    }
    UndoneStates(s.tallies, fallen, s.atWork, planned, t);
  }

  // ----- Runs -----

  ghost predicate GoOn(tickets: seq<Ticket>) {
    forall i, e :: 0 <= i < |tickets| && e in tickets[i].entries ==> e.to == Ready || e.to == Implemented
  }

  /** In every run a recorded return names READY or IMPLEMENTED, never BLOCKED. */
  lemma {:induction false} ReturnsGoOn(states: seq<State>, steps: seq<Step>, n: nat)
    requires IsRun(states, steps) && n <= |steps|
    ensures GoOn(states[n].tickets)
  {
    if n > 0 {
      ReturnsGoOn(states, steps, n - 1);
      var s, next := states[n - 1], states[n];
      assert Next(s, steps[n - 1], next);
      match steps[n - 1]
      case Return(i, task, budget, changes, at) => ReturnSends(s, i, task, budget, changes, at, next);
      case TakeBack(p, planned) => RevokedOnlyStrikes(s.(patches := WithoutPatch(s.patches, p)), {p}, planned);
      case Refuse(ps, planned) =>
        RevokedEachOnlyStrikes(
          s.(patches := map p | p in s.patches :: if p in ps then Refused else s.patches[p]), ps, planned);
      case Elsewhere(state) =>
    }
  }

  lemma HangsMeans(s: State, p: PatchId, e: Grants.Return)
    requires IsLive(s.patches, p)
    ensures LosesGrounds(s.(patches := WithoutPatch(s.patches, p)), {p}, e) <==> exists i :: Hangs(s, p, i, e)
  {
    var patches := WithoutPatch(s.patches, p);
    FallsMeans(s.(patches := patches), {p}, e);
    FallenMembers(s.tickets, {p}, patches, e);
    forall i: nat | i < |s.tickets| && e in s.tickets[i].entries
      ensures Hangs(s, p, i, e) <==> Falls(e, s.tickets[i].revoked, {p}, patches)
    {
      HangsFalls(s, p, i, e);
    }
    if i: nat :| Hangs(s, p, i, e) {
      assert Falls(e, s.tickets[i].revoked, {p}, patches);
    }
    if FallsIn(s.tickets, {p}, patches, e) {
      var i :| 0 <= i < |s.tickets| && e in s.tickets[i].entries && Falls(e, s.tickets[i].revoked, {p}, patches);
      assert Hangs(s, p, i, e);
    }
  }

  /**
    So in every run, taking back a patch stops a task again exactly if a return of it hangs
    on that patch, and the task stands, not started, where the return sent it.
   */
  lemma TakeBackStops(states: seq<State>, steps: seq<Step>, n: nat, p: PatchId, planned: set<TaskId>, t: TaskId)
    requires IsRun(states, steps) && n <= |steps| && IsLive(states[n].patches, p) && t in states[n].tallies.states
    ensures var s := states[n]; var after := TakenBack(s, p, planned);
      && t in after.tallies.states
      && after.tallies.states[t] ==
          (if t !in s.atWork && t in planned
            && (exists i, e :: Hangs(s, p, i, e) && e.task == t && e.to == s.tallies.states[t])
           then Blocked else s.tallies.states[t])
      && p in after.patches && after.patches == s.patches[p := after.patches[p]]
      && after.patches[p] == (if s.patches[p] == Pending then Withdrawn else Reverted)
  {
    var s := states[n];
    ReturnsGoOn(states, steps, n);
    var went := s.(patches := WithoutPatch(s.patches, p));
    forall e ensures LosesGrounds(went, {p}, e) <==> exists i :: Hangs(s, p, i, e) {
      HangsMeans(s, p, e);
    }
    RevocationMeans(went, {p}, planned, t);
  }
}
