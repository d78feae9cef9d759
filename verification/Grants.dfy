/**
  Fresh hires bought by runtime patches (`engineer_stop_actions.py`, `ladder_grants.py`,
  `revision_budget.py`): a patch buys one hire, and the hire goes when the patch goes.
 */
module Grants {
  import opened Wrappers
  import opened Arithmetic

  type TaskId = string
  type PatchId = string

  datatype PatchStatus = Absent | Pending | Installed | Withdrawn | Refused | Reverted

  datatype TaskState = Blocked | Ready | Implemented | Elsewhere

  /** The tally of hires before a grant and right after it. */
  datatype Grant = Grant(before: nat, now: nat)

  /** An entry of a ticket's `returns`; `patches` are its grounds. */
  datatype Return = Return(task: TaskId, to: TaskState, patches: seq<PatchId>, grant: Option<Grant>, at: nat)

  /** A stop ticket: the patches its engineer staged, the returns, and the revoked ones by task and time. */
  datatype Ticket = Ticket(
    ladderExhausted: bool, patches: seq<PatchId>, entries: seq<Return>, revoked: set<(TaskId, nat)>)

  /** What a grant changes in the run state. */
  datatype Tallies = Tallies(rehires: map<TaskId, nat>, grantedOn: set<TaskId>, states: map<TaskId, TaskState>)

  datatype State = State(tickets: seq<Ticket>, patches: map<PatchId, PatchStatus>, tallies: Tallies,
                         revisions: map<TaskId, nat>, atWork: set<TaskId>)

  /** What the plan says of a task: its revision budget, and whether a higher effort step is left. */
  datatype Budget = Budget(maximum: nat, topEffort: bool)

  function Count(counts: map<TaskId, nat>, task: TaskId): nat {
    if task in counts then counts[task] else 0
  }

  /** `patch_status` and `patch_is_live` */
  predicate IsLive(patches: map<PatchId, PatchStatus>, p: PatchId) {
    p in patches && (patches[p].Pending? || patches[p].Installed?)
  }

  // ----- Granting -----

  /** `_consumed_patch_ids`: every patch that some return of some ticket rested on. */
  function Consumed(tickets: seq<Ticket>): set<PatchId> {
    set t, e, p | t in tickets && e in t.entries && p in e.patches :: p
  }

  /** `acceptance_patches` that are not consumed; `changes` are the patches whose texts touch the acceptance path. */
  function Fresh(listed: seq<PatchId>, patches: map<PatchId, PatchStatus>, changes: set<PatchId>,
    consumed: set<PatchId>): (r: seq<PatchId>)
    ensures forall p :: p in r <==> p in listed && IsLive(patches, p) && p in changes && p !in consumed
  {
    if listed == [] then []
    else
      var n := |listed| - 1;
      var p := listed[n];
      Fresh(listed[..n], patches, changes, consumed)
        + if IsLive(patches, p) && p in changes && p !in consumed then [p] else []
  }

  /** `at_top_of_ladder` */
  predicate AtTop(used: nat, hires: nat, budget: Budget) {
    used >= budget.maximum * (hires + 1) && budget.topEffort
  }

  /** `grant_fresh_hire` */
  function FreshTally(used: nat, before: nat, budget: Budget): nat {
    var hires := used / (if budget.maximum > 1 then budget.maximum else 1);
    if before > hires then before else hires
  }

  /** `unblock_target` */
  function Target(used: nat): TaskState {
    if used > 0 then Implemented else Ready
  }

  datatype ReturnError = NotBlocked | NoFreshPatch

  function Recorded(ticket: Ticket, entry: Return): Ticket {
    ticket.(entries := ticket.entries + [entry])
  }

  /** `return_stopped_task`, once the ticket, its means and the engineer's thread have been checked. */
  function Returned(s: State, i: nat, task: TaskId, budget: Budget, changes: set<PatchId>,
    at: nat): Result<State, ReturnError>
    requires i < |s.tickets|
  {
    if task !in s.tallies.states || s.tallies.states[task] != Blocked then Err(NotBlocked)
    else
      var ticket, w := s.tickets[i], s.tallies;
      var used, before := Count(s.revisions, task), Count(w.rehires, task);
      var states := w.states[task := Target(used)];
      if ticket.ladderExhausted || AtTop(used, before, budget) then
        var unspent := Fresh(ticket.patches, s.patches, changes, Consumed(s.tickets));
        var now := FreshTally(used, before, budget);
        if unspent == [] then Err(NoFreshPatch)
        else
          Ok(s.(tickets := s.tickets[i := Recorded(ticket,
            Return(task, Target(used), unspent, Some(Grant(before, now)), at))],
                tallies := Tallies(w.rehires[task := now], w.grantedOn + {task}, states)))
      else
        Ok(s.(tickets := s.tickets[i := Recorded(ticket, Return(task, Target(used), [], None, at))],
          tallies := w.(states := states)))
  }

  // ----- Revoking -----

  /** A grant falls when one of its patches went, none of the others stands, and it was not revoked before. */
  predicate Falls(e: Return, revoked: set<(TaskId, nat)>, gone: set<PatchId>, patches: map<PatchId, PatchStatus>) {
    && (exists p :: p in e.patches && p in gone)
    && (e.task, e.at) !in revoked
    && !(exists p :: p in e.patches && p !in gone && IsLive(patches, p))
  }

  function FallenOf(entries: seq<Return>, revoked: set<(TaskId, nat)>, gone: set<PatchId>,
    patches: map<PatchId, PatchStatus>): (r: seq<Return>)
    ensures forall e :: e in r <==> e in entries && Falls(e, revoked, gone, patches)
  {
    if entries == [] then []
    else
      var n := |entries| - 1;
      FallenOf(entries[..n], revoked, gone, patches) + if Falls(entries[n], revoked, gone, patches) then [entries[n]]
        else []
  }

  /** All that fall, in the order of the tickets and their returns. */
  function Fallen(tickets: seq<Ticket>, gone: set<PatchId>, patches: map<PatchId, PatchStatus>): seq<Return> {
    if tickets == [] then []
    else
      var n := |tickets| - 1;
      Fallen(tickets[..n], gone, patches) + FallenOf(tickets[n].entries, tickets[n].revoked, gone, patches)
  }

  predicate Moves(w: Tallies, e: Return, atWork: set<TaskId>, planned: set<TaskId>) {
    e.task !in atWork && e.task in planned && e.task in w.states && w.states[e.task] == e.to
  }

  /** One revocation: the tally goes back if it has not moved since, and a task not started yet is blocked again. */
  function Undone(w: Tallies, e: Return, atWork: set<TaskId>, planned: set<TaskId>): Tallies {
    Tallies(
      if e.grant.Some? && Count(w.rehires, e.task) == e.grant.value.now then w.rehires[e.task := e.grant.value.before]
        else w.rehires,
      w.grantedOn - {e.task},
      if Moves(w, e, atWork, planned) then w.states[e.task := Blocked] else w.states)
  }

  function UndoneAll(w: Tallies, fallen: seq<Return>, atWork: set<TaskId>, planned: set<TaskId>): Tallies {
    if fallen == [] then w
    else Undone(UndoneAll(w, fallen[..|fallen| - 1], atWork, planned), fallen[|fallen| - 1], atWork, planned)
  }

  /** The tasks that go back to BLOCKED, in order. */
  function BlockedBy(w: Tallies, fallen: seq<Return>, atWork: set<TaskId>, planned: set<TaskId>): seq<TaskId> {
    if fallen == [] then []
    else
      var n := |fallen| - 1;
      BlockedBy(w, fallen[..n], atWork, planned)
        + if Moves(UndoneAll(w, fallen[..n], atWork, planned), fallen[n], atWork, planned) then [fallen[n].task] else []
  }

  function Keys(entries: seq<Return>): set<(TaskId, nat)> {
    set e | e in entries :: (e.task, e.at)
  }

  function Struck(ticket: Ticket, gone: set<PatchId>, patches: map<PatchId, PatchStatus>): Ticket {
    ticket.(revoked := ticket.revoked + Keys(FallenOf(ticket.entries, ticket.revoked, gone, patches)))
  }

  /** `revoke_grants` */
  function Revoked(s: State, gone: set<PatchId>, planned: set<TaskId>): State {
    s.(tickets := seq(|s.tickets|, i requires 0 <= i < |s.tickets| => Struck(s.tickets[i], gone, s.patches)),
       tallies := UndoneAll(s.tallies, Fallen(s.tickets, gone, s.patches), s.atWork, planned))
  }

  // ----- What a grant gives -----

  /** At the top of the ladder a grant raises the tally and leaves one to `maximum` more revisions. */
  lemma GrantGivesABudget(used: nat, before: nat, budget: Budget)
    requires AtTop(used, before, budget) && budget.maximum > 0
    ensures before < FreshTally(used, before, budget)
    ensures used < budget.maximum * (FreshTally(used, before, budget) + 1) <= used + budget.maximum
    ensures !AtTop(used, FreshTally(used, before, budget), budget)
  {
    var m := budget.maximum;
    var q := used / m;
    assert m * (before + 1) == (before + 1) * m;
    QuotientAtLeast(used, before + 1, m);
    assert used == q * m + used % m && m * (q + 1) == q * m + m;
  }

  // ----- What a revocation takes -----

  /** The return falls, and one of the tickets records it. */
  ghost predicate FallsIn(tickets: seq<Ticket>, gone: set<PatchId>, patches: map<PatchId, PatchStatus>, e: Return) {
    exists i :: 0 <= i < |tickets| && e in tickets[i].entries && Falls(e, tickets[i].revoked, gone, patches)
  }

  lemma FallsInOneMore(front: seq<Ticket>, last: Ticket, gone: set<PatchId>, patches: map<PatchId, PatchStatus>,
    e: Return)
    ensures FallsIn(front + [last], gone, patches, e) <==>
      FallsIn(front, gone, patches, e) || (e in last.entries && Falls(e, last.revoked, gone, patches))
  {
    var tickets := front + [last];
    if i :| 0 <= i < |front| && e in front[i].entries && Falls(e, front[i].revoked, gone, patches) {
      assert tickets[i] == front[i];
    }
    assert tickets[|front|] == last;
  }

  lemma {:induction false} FallenMembers(tickets: seq<Ticket>, gone: set<PatchId>, patches: map<PatchId, PatchStatus>,
    e: Return)
    ensures e in Fallen(tickets, gone, patches) <==> FallsIn(tickets, gone, patches, e)
  {
    if tickets != [] {
      var n := |tickets| - 1;
      FallenMembers(tickets[..n], gone, patches, e);
      FallsInOneMore(tickets[..n], tickets[n], gone, patches, e);
      assert tickets == tickets[..n] + [tickets[n]];
    }
  }

  lemma {:induction false} NoneOf(entries: seq<Return>, revoked: set<(TaskId, nat)>, gone: set<PatchId>,
    patches: map<PatchId, PatchStatus>)
    requires forall e :: e in entries ==> !Falls(e, revoked, gone, patches)
    ensures FallenOf(entries, revoked, gone, patches) == []
  {
    if entries != [] {
      NoneOf(entries[..|entries| - 1], revoked, gone, patches);
    }
  }

  lemma {:induction false} NothingFalls(tickets: seq<Ticket>, gone: set<PatchId>, patches: map<PatchId, PatchStatus>)
    requires forall i, e :: 0 <= i < |tickets| && e in tickets[i].entries ==>
      !Falls(e, tickets[i].revoked, gone, patches)
    ensures Fallen(tickets, gone, patches) == []
    ensures forall i :: 0 <= i < |tickets| ==> Struck(tickets[i], gone, patches) == tickets[i]
  {
    if tickets != [] {
      var n := |tickets| - 1;
      NothingFalls(tickets[..n], gone, patches);
      NoneOf(tickets[n].entries, tickets[n].revoked, gone, patches);
      forall i | 0 <= i < n ensures Struck(tickets[i], gone, patches) == tickets[i] {
        assert tickets[..n][i] == tickets[i];
      }
    }
  }

  /** Revoking again for the same patches changes nothing. */
  lemma RevokingAgainDoesNothing(s: State, gone: set<PatchId>, planned: set<TaskId>)
    ensures Revoked(Revoked(s, gone, planned), gone, planned) == Revoked(s, gone, planned)
  {
    var r := Revoked(s, gone, planned);
    forall i, e | 0 <= i < |r.tickets| && e in r.tickets[i].entries
      ensures !Falls(e, r.tickets[i].revoked, gone, s.patches)
    {
      if Falls(e, s.tickets[i].revoked, gone, s.patches) {
        assert (e.task, e.at) in Keys(FallenOf(s.tickets[i].entries, s.tickets[i].revoked, gone, s.patches));
      }
    }
    NothingFalls(r.tickets, gone, s.patches);
    assert Revoked(r, gone, planned).tickets == r.tickets;
  }
}
