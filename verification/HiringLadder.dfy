/** The run state that returns and revocations change in place. */
module HiringLadder {
  import opened Wrappers
  import opened Grants
  import opened GrantRuns

  lemma FreshGrows(listed: seq<PatchId>, n: nat, patches: map<PatchId, PatchStatus>, changes: set<PatchId>,
    consumed: set<PatchId>)
    requires n < |listed|
    ensures Fresh(listed[..n + 1], patches, changes, consumed) == Fresh(listed[..n], patches, changes, consumed) +
      if IsLive(patches, listed[n]) && listed[n] in changes && listed[n] !in consumed then [listed[n]] else []
  {
    assert listed[..n + 1][..n] == listed[..n];
  }

  function StruckUpTo(t: Ticket, a: nat, gone: set<PatchId>, patches: map<PatchId, PatchStatus>): (r: Ticket)
    requires a <= |t.entries|
    ensures a == 0 ==> r == t
  {
    var r := t.(revoked := t.revoked + Keys(FallenOf(t.entries[..a], t.revoked, gone, patches)));
    assert a == 0 ==> r.revoked == t.revoked;
    r
  }

  /** What fell in earlier tickets and in the first `a` returns of a ticket. */
  ghost function UpTo(before: seq<Grants.Return>, t: Ticket, a: nat, gone: set<PatchId>,
    patches: map<PatchId, PatchStatus>): seq<Grants.Return>
    requires a <= |t.entries|
  {
    before + FallenOf(t.entries[..a], t.revoked, gone, patches)
  }

  lemma UpToAll(before: seq<Grants.Return>, t: Ticket, gone: set<PatchId>, patches: map<PatchId, PatchStatus>)
    ensures UpTo(before, t, 0, gone, patches) == before
    ensures UpTo(before, t, |t.entries|, gone, patches) == before + FallenOf(t.entries, t.revoked, gone, patches)
    ensures StruckUpTo(t, |t.entries|, gone, patches) == Struck(t, gone, patches)
  {
    assert t.entries[..|t.entries|] == t.entries;
  }

  lemma UndoneGrows(w: Tallies, es: seq<Grants.Return>, e: Grants.Return, atWork: set<TaskId>, planned: set<TaskId>)
    ensures UndoneAll(w, es + [e], atWork, planned) == Undone(UndoneAll(w, es, atWork, planned), e, atWork, planned)
    ensures BlockedBy(w, es + [e], atWork, planned) == BlockedBy(w, es, atWork, planned)
      + if Moves(UndoneAll(w, es, atWork, planned), e, atWork, planned) then [e.task] else []
  {
    assert (es + [e])[..|es|] == es;
  }

  lemma UpToSnoc(before: seq<Grants.Return>, t: Ticket, a: nat, gone: set<PatchId>, patches: map<PatchId, PatchStatus>)
    requires a < |t.entries|
    ensures var e := t.entries[a];
      if Falls(e, t.revoked, gone, patches) then
        UpTo(before, t, a + 1, gone, patches) == UpTo(before, t, a, gone, patches) + [e]
        && StruckUpTo(t, a + 1, gone, patches).revoked == StruckUpTo(t, a, gone, patches).revoked + {(e.task, e.at)}
      else
        UpTo(before, t, a + 1, gone, patches) == UpTo(before, t, a, gone, patches)
        && StruckUpTo(t, a + 1, gone, patches) == StruckUpTo(t, a, gone, patches)
  {
    assert t.entries[..a + 1][..a] == t.entries[..a];
  }

  lemma UpToGrows(w: Tallies, before: seq<Grants.Return>, t: Ticket, a: nat, gone: set<PatchId>,
    patches: map<PatchId, PatchStatus>,
                  atWork: set<TaskId>, planned: set<TaskId>)
    requires a < |t.entries|
    ensures var e := t.entries[a];
      var now, next := UpTo(before, t, a, gone, patches), UpTo(before, t, a + 1, gone, patches);
      var struck := StruckUpTo(t, a, gone, patches);
      if Falls(e, t.revoked, gone, patches)
      then && UndoneAll(w, next, atWork, planned) == Undone(UndoneAll(w, now, atWork, planned), e, atWork, planned)
           && BlockedBy(w, next, atWork, planned) == BlockedBy(w, now, atWork, planned)
             + (if Moves(UndoneAll(w, now, atWork, planned), e, atWork, planned) then [e.task] else [])
           && StruckUpTo(t, a + 1, gone, patches) == struck.(revoked := struck.revoked + {(e.task, e.at)})
      else next == now && StruckUpTo(t, a + 1, gone, patches) == struck
  {
    UpToSnoc(before, t, a, gone, patches);
    UndoneGrows(w, UpTo(before, t, a, gone, patches), t.entries[a], atWork, planned);
  }

  /** Only the `i`-th ticket may have changed. */
  ghost predicate OnlyAt(before: seq<Ticket>, after: seq<Ticket>, i: nat) {
    i < |before| == |after| && forall j :: 0 <= j < |before| && j != i ==> after[j] == before[j]
  }

  class HiringLadder {
    var tickets: seq<Ticket>
    var patches: map<PatchId, PatchStatus>
    var tallies: Tallies
    var revisions: map<TaskId, nat>
    var atWork: set<TaskId>

    function View(): State
      reads this
    {
      State(tickets, patches, tallies, revisions, atWork)
    }

    method FreshPatches(i: nat, changes: set<PatchId>) returns (r: seq<PatchId>)
      requires i < |tickets|
      ensures r == Fresh(tickets[i].patches, patches, changes, Consumed(tickets))
    {
      var consumed := Consumed(tickets);
      var listed := tickets[i].patches;
      r := [];
      for n := 0 to |listed|
        invariant r == Fresh(listed[..n], patches, changes, consumed)
      {
        FreshGrows(listed, n, patches, changes, consumed);
        if IsLive(patches, listed[n]) && listed[n] in changes && listed[n] !in consumed {
          r := r + [listed[n]];
        }
      }
      assert listed[..|listed|] == listed;
    }

    /** `grant_fresh_hire` */
    method GrantFreshHire(task: TaskId, budget: Budget) returns (grant: Grant)
      modifies this`tallies
      ensures grant == Grant(Count(old(tallies).rehires, task),
        FreshTally(Count(revisions, task), Count(old(tallies).rehires, task), budget))
      ensures tallies ==
        Tallies(old(tallies).rehires[task := grant.now], old(tallies).grantedOn + {task}, old(tallies).states)
    {
      var before := Count(tallies.rehires, task);
      tallies := tallies.(rehires := tallies.rehires[task := FreshTally(Count(revisions, task), before, budget)]);
      tallies := tallies.(grantedOn := tallies.grantedOn + {task});
      grant := Grant(before, tallies.rehires[task]);
    }

    /** `return_stopped_task` */
    method ReturnStoppedTask(i: nat, task: TaskId, budget: Budget, changes: set<PatchId>, at: nat)
      returns (r: Result<TaskState, ReturnError>)
      requires i < |tickets|
      modifies this
      ensures match r
              case Ok(to) => Returned(old(View()), i, task, budget, changes, at) == Ok(View())
                && tallies.states == old(tallies).states[task := to]
              case Err(e) => Returned(old(View()), i, task, budget, changes, at) == Err(e) && View() == old(View())
    {
      if task !in tallies.states || tallies.states[task] != Blocked {
        return Err(NotBlocked);
      }
      var used := Count(revisions, task);
      var grounds: seq<PatchId>, bought: Option<Grant> := [], None;
      if tickets[i].ladderExhausted || AtTop(used, Count(tallies.rehires, task), budget) {
        grounds := FreshPatches(i, changes);
        if grounds == [] {
          return Err(NoFreshPatch);
        }
        var grant := GrantFreshHire(task, budget);
        bought := Some(grant);
      }
      tallies := tallies.(states := tallies.states[task := Target(used)]);
      tickets := tickets[i := Recorded(tickets[i], Grants.Return(task, Target(used), grounds, bought, at))];
      return Ok(Target(used));
    }

    /** The body of `revoke_grants` for one return. */
    method RevokeOne(i: nat, e: Grants.Return, planned: set<TaskId>) returns (moved: bool)
      requires i < |tickets|
      modifies this`tickets, this`tallies
      ensures moved == Moves(old(tallies), e, atWork, planned)
      ensures tallies == Undone(old(tallies), e, atWork, planned)
      ensures OnlyAt(old(tickets), tickets, i)
      ensures tickets[i] == old(tickets)[i].(revoked := old(tickets)[i].revoked + {(e.task, e.at)})
    {
      if e.grant.Some? && Count(tallies.rehires, e.task) == e.grant.value.now {
        tallies := tallies.(rehires := tallies.rehires[e.task := e.grant.value.before]);
      }
      tallies := tallies.(grantedOn := tallies.grantedOn - {e.task});
      moved := e.task !in atWork && e.task in planned && e.task in tallies.states && tallies.states[e.task] == e.to;
      if moved {
        tallies := tallies.(states := tallies.states[e.task := Blocked]);
      }
      tickets := tickets[i := tickets[i].(revoked := tickets[i].revoked + {(e.task, e.at)})];
    }

    /** The inner loop of `revoke_grants`, over one ticket as it was loaded; `before` fell in earlier tickets. */
    method RevokeTicket(i: nat, t: Ticket, gone: set<PatchId>, planned: set<TaskId>, blocked: seq<TaskId>,
      ghost w: Tallies, ghost before: seq<Grants.Return>)
      returns (more: seq<TaskId>)
      requires i < |tickets| && tickets[i] == t
      requires tallies == UndoneAll(w, before, atWork, planned) && blocked == BlockedBy(w, before, atWork, planned)
      modifies this`tickets, this`tallies
      ensures OnlyAt(old(tickets), tickets, i) && tickets[i] == Struck(t, gone, patches)
      ensures tallies == UndoneAll(w, before + FallenOf(t.entries, t.revoked, gone, patches), atWork, planned)
      ensures more == BlockedBy(w, before + FallenOf(t.entries, t.revoked, gone, patches), atWork, planned)
    {
      more := blocked;
      UpToAll(before, t, gone, patches);
      for a := 0 to |t.entries|
        invariant OnlyAt(old(tickets), tickets, i) && tickets[i] == StruckUpTo(t, a, gone, patches)
        invariant tallies == UndoneAll(w, UpTo(before, t, a, gone, patches), atWork, planned)
        invariant more == BlockedBy(w, UpTo(before, t, a, gone, patches), atWork, planned)
      {
        UpToGrows(w, before, t, a, gone, patches, atWork, planned);
        if Falls(t.entries[a], t.revoked, gone, patches) {
          var moved := RevokeOne(i, t.entries[a], planned);
          if moved {
            more := more + [t.entries[a].task];
          }
        }
      }
    }

    /** `revoke_grants`: the tickets are read once, and struck out one return at a time. */
    method RevokeGrants(gone: set<PatchId>, planned: set<TaskId>) returns (blocked: seq<TaskId>)
      modifies this`tickets, this`tallies
      ensures View() == Revoked(old(View()), gone, planned)
      ensures blocked == BlockedBy(old(tallies), Fallen(old(tickets), gone, patches), atWork, planned)
    {
      var loaded := tickets;
      ghost var w := tallies;
      blocked := [];
      for i := 0 to |loaded|
        invariant |tickets| == |loaded|
        invariant forall j :: 0 <= j < |loaded| ==>
          tickets[j] == if j < i then Struck(loaded[j], gone, patches) else loaded[j]
        invariant tallies == UndoneAll(w, Fallen(loaded[..i], gone, patches), atWork, planned)
        invariant blocked == BlockedBy(w, Fallen(loaded[..i], gone, patches), atWork, planned)
      {
        assert loaded[..i + 1][..i] == loaded[..i];
        blocked := RevokeTicket(i, loaded[i], gone, planned, blocked, w, Fallen(loaded[..i], gone, patches));
      }
      assert loaded[..|loaded|] == loaded;
      assert tickets == Revoked(old(View()), gone, planned).tickets;
    }

    /** `take_back_patch`, for a live patch that the caller may take back. */
    method TakeBackPatch(p: PatchId, planned: set<TaskId>) returns (done: bool, blocked: seq<TaskId>)
      modifies this
      ensures done == IsLive(old(patches), p)
      ensures View() == if done then TakenBack(old(View()), p, planned) else old(View())
    {
      blocked := [];
      if p !in patches {
        return false, blocked;
      }
      if patches[p].Pending? {
        patches := patches[p := Withdrawn];
      } else if patches[p].Installed? {
        patches := patches[p := Reverted];
      } else {
        return false, blocked;
      }
      blocked := RevokeGrants({p}, planned);
      return true, blocked;
    }
  }
}
