/** Whole runs of returns, patches that come and go, and the revocations that follow. */
module GrantRuns {
  import opened Wrappers
  import opened Grants

  function WithoutPatch(patches: map<PatchId, PatchStatus>, p: PatchId): map<PatchId, PatchStatus>
    requires p in patches
  {
    patches[p := if patches[p].Pending? then Withdrawn else Reverted]
  }

  /** `take_back_patch`: a staged patch is withdrawn, an installed one is being reverted, and its hire is revoked. */
  function TakenBack(s: State, p: PatchId, planned: set<TaskId>): State
    requires IsLive(s.patches, p)
  {
    Revoked(s.(patches := WithoutPatch(s.patches, p)), {p}, planned)
  }

  function RevokedEach(s: State, ps: seq<PatchId>, planned: set<TaskId>): (r: State)
    ensures |r.tickets| == |s.tickets| && r.patches == s.patches
  {
    if ps == [] then s else Revoked(RevokedEach(s, ps[..|ps| - 1], planned), {ps[|ps| - 1]}, planned)
  }

  /** Patches that the installation refuses: all are set aside, then each is revoked in turn. */
  function RefusedAll(s: State, refused: seq<PatchId>, planned: set<TaskId>): State {
    RevokedEach(s.(patches := map p | p in s.patches :: if p in refused then Refused else s.patches[p]), refused,
      planned)
  }

  datatype Step =
    | Return(ticket: nat, task: TaskId, budget: Budget, changes: set<PatchId>, at: nat)
    | TakeBack(patch: PatchId, planned: set<TaskId>)
    | Refuse(patches: seq<PatchId>, all: set<TaskId>)
    | Elsewhere(state: State)

  /** The rest of the system works, stages, installs and opens tickets; no live patch goes that way. */
  ghost predicate LeavesGrants(s: State, next: State) {
    && |s.tickets| <= |next.tickets|
    && (forall i :: 0 <= i < |s.tickets| ==>
          next.tickets[i].entries == s.tickets[i].entries && next.tickets[i].revoked == s.tickets[i].revoked)
    && (forall i :: |s.tickets| <= i < |next.tickets| ==>
        next.tickets[i].entries == [] && next.tickets[i].revoked == {})
    && (forall p :: IsLive(s.patches, p) ==> IsLive(next.patches, p))
  }

  ghost predicate Next(s: State, step: Step, next: State) {
    match step
    case Return(i, task, budget, changes, at) => i < |s.tickets|
      && Returned(s, i, task, budget, changes, at) == Ok(next)
    case TakeBack(p, planned) => IsLive(s.patches, p) && next == TakenBack(s, p, planned)
    case Refuse(ps, planned) => (forall p :: p in ps ==> p in s.patches && s.patches[p].Pending?)
      && next == RefusedAll(s, ps, planned)
    case Elsewhere(state) => LeavesGrants(s, state) && next == state
  }

  ghost predicate IsRun(states: seq<State>, steps: seq<Step>) {
    && |states| == |steps| + 1 && states[0].tickets == []
    && forall i :: 0 <= i < |steps| ==> Next(states[i], steps[i], states[i + 1])
  }

  /** The `a`-th return of the `i`-th ticket rests on the patch. */
  predicate Rests(tickets: seq<Ticket>, i: int, a: int, p: PatchId) {
    0 <= i < |tickets| && 0 <= a < |tickets[i].entries| && p in tickets[i].entries[a].patches
  }

  ghost predicate NoPatchTwice(tickets: seq<Ticket>) {
    forall i, a, j, b, p :: Rests(tickets, i, a, p) && Rests(tickets, j, b, p) ==> i == j && a == b
  }

  ghost predicate Stands(e: Grants.Return, patches: map<PatchId, PatchStatus>) {
    exists p :: p in e.patches && IsLive(patches, p)
  }

  /** A hire that was bought and not revoked has a patch that is still staged or installed. */
  ghost predicate GrantsStand(s: State) {
    forall i, e :: 0 <= i < |s.tickets| && e in s.tickets[i].entries && e.grant.Some? ==>
      (e.task, e.at) in s.tickets[i].revoked || Stands(e, s.patches)
  }

  lemma RestsIsConsumed(tickets: seq<Ticket>, i: int, a: int, p: PatchId)
    requires Rests(tickets, i, a, p)
    ensures p in Consumed(tickets)
  {
    assert tickets[i] in tickets && tickets[i].entries[a] in tickets[i].entries;
  }

  lemma ReturnKeepsPatchesApart(s: State, i: nat, task: TaskId, budget: Budget, changes: set<PatchId>, at: nat,
    next: State)
    requires i < |s.tickets| && Returned(s, i, task, budget, changes, at) == Ok(next) && NoPatchTwice(s.tickets)
    ensures NoPatchTwice(next.tickets)
  {
    forall j, a, p | Rests(next.tickets, j, a, p)
      ensures Rests(s.tickets, j, a, p) || (j == i && a == |s.tickets[i].entries| && p !in Consumed(s.tickets))
    {
      assert j == i ==> next.tickets[i].entries[..|s.tickets[i].entries|] == s.tickets[i].entries;
    }
    forall j, a, k, b, p | Rests(next.tickets, j, a, p) && Rests(next.tickets, k, b, p) ensures j == k && a == b {
      if Rests(s.tickets, j, a, p) {
        RestsIsConsumed(s.tickets, j, a, p);
      }
      if Rests(s.tickets, k, b, p) {
        RestsIsConsumed(s.tickets, k, b, p);
      }
    }
  }

  lemma SameEntries(tickets: seq<Ticket>, next: seq<Ticket>)
    requires |tickets| <= |next| && forall i :: 0 <= i < |tickets| ==> next[i].entries == tickets[i].entries
    requires forall i :: |tickets| <= i < |next| ==> next[i].entries == []
    requires NoPatchTwice(tickets)
    ensures NoPatchTwice(next)
  {
    forall i, a, p | Rests(next, i, a, p) ensures Rests(tickets, i, a, p) {
    }
  }

  /** A revocation only strikes returns out. */
  ghost predicate OnlyStrikes(tickets: seq<Ticket>, next: seq<Ticket>) {
    && |next| == |tickets|
    && forall i :: 0 <= i < |tickets| ==> next[i].entries == tickets[i].entries && tickets[i].revoked <= next[i].revoked
  }

  lemma RevokedOnlyStrikes(s: State, gone: set<PatchId>, planned: set<TaskId>)
    ensures OnlyStrikes(s.tickets, Revoked(s, gone, planned).tickets)
  {
  }

  lemma {:induction false} RevokedEachOnlyStrikes(s: State, ps: seq<PatchId>, planned: set<TaskId>)
    ensures OnlyStrikes(s.tickets, RevokedEach(s, ps, planned).tickets)
  {
    if ps != [] {
      var m := RevokedEach(s, ps[..|ps| - 1], planned);
      RevokedEachOnlyStrikes(s, ps[..|ps| - 1], planned);
      RevokedOnlyStrikes(m, {ps[|ps| - 1]}, planned);
    }
  }

  /** After a revocation each grant on the patches that went is revoked, or another of its patches stands. */
  lemma RevokedOrStands(s: State, p: PatchId, planned: set<TaskId>, i: nat, e: Grants.Return)
    requires i < |s.tickets| && e in s.tickets[i].entries && p in e.patches && !IsLive(s.patches, p)
    ensures (e.task, e.at) in Revoked(s, {p}, planned).tickets[i].revoked || Stands(e, s.patches)
  {
    if !Stands(e, s.patches) && (e.task, e.at) !in s.tickets[i].revoked {
      assert Falls(e, s.tickets[i].revoked, {p}, s.patches);
      assert e in FallenOf(s.tickets[i].entries, s.tickets[i].revoked, {p}, s.patches);
      assert (e.task, e.at) in Keys(FallenOf(s.tickets[i].entries, s.tickets[i].revoked, {p}, s.patches));
    }
  }

  lemma {:induction false} EachRevokedOrStands(s: State, ps: seq<PatchId>, planned: set<TaskId>, i: nat,
    e: Grants.Return, p: PatchId)
    requires i < |s.tickets| && e in s.tickets[i].entries && p in e.patches && p in ps && !IsLive(s.patches, p)
    ensures (e.task, e.at) in RevokedEach(s, ps, planned).tickets[i].revoked || Stands(e, s.patches)
  {
    var n := |ps| - 1;
    var m := RevokedEach(s, ps[..n], planned);
    RevokedEachOnlyStrikes(s, ps[..n], planned);
    if ps[n] == p {
      RevokedOrStands(m, p, planned, i, e);
    } else {
      EachRevokedOrStands(s, ps[..n], planned, i, e, p);
      RevokedOnlyStrikes(m, {ps[n]}, planned);
    }
  }

  lemma StrikesKeepStanding(s: State, next: State)
    requires GrantsStand(s) && OnlyStrikes(s.tickets, next.tickets)
    requires forall i, e :: 0 <= i < |s.tickets| && e in s.tickets[i].entries && Stands(e, s.patches) ==>
      (e.task, e.at) in next.tickets[i].revoked || Stands(e, next.patches)
    ensures GrantsStand(next)
  {
    forall i, e | 0 <= i < |next.tickets| && e in next.tickets[i].entries && e.grant.Some?
      ensures (e.task, e.at) in next.tickets[i].revoked || Stands(e, next.patches)
    {
      assert e in s.tickets[i].entries;
    }
  }

  lemma TakeBackStrikes(s: State, p: PatchId, planned: set<TaskId>, i: nat, e: Grants.Return)
    requires IsLive(s.patches, p) && i < |s.tickets| && e in s.tickets[i].entries && Stands(e, s.patches)
    ensures (e.task, e.at) in TakenBack(s, p, planned).tickets[i].revoked || Stands(e, TakenBack(s, p, planned).patches)
  {
    var patches := WithoutPatch(s.patches, p);
    if p in e.patches {
      RevokedOrStands(s.(patches := patches), p, planned, i, e);
    } else {
      var q :| q in e.patches && IsLive(s.patches, q);
      assert IsLive(patches, q);
    }
  }

  lemma TakeBackKeeps(s: State, p: PatchId, planned: set<TaskId>)
    requires IsLive(s.patches, p) && NoPatchTwice(s.tickets) && GrantsStand(s)
    ensures NoPatchTwice(TakenBack(s, p, planned).tickets) && GrantsStand(TakenBack(s, p, planned))
  {
    var next := TakenBack(s, p, planned);
    RevokedOnlyStrikes(s.(patches := next.patches), {p}, planned);
    SameEntries(s.tickets, next.tickets);
    forall i, e | 0 <= i < |s.tickets| && e in s.tickets[i].entries && Stands(e, s.patches)
      ensures (e.task, e.at) in next.tickets[i].revoked || Stands(e, next.patches)
    {
      TakeBackStrikes(s, p, planned, i, e);
    }
    StrikesKeepStanding(s, next);
  }

  lemma RefuseKeeps(s: State, ps: seq<PatchId>, planned: set<TaskId>)
    requires NoPatchTwice(s.tickets) && GrantsStand(s)
    ensures NoPatchTwice(RefusedAll(s, ps, planned).tickets) && GrantsStand(RefusedAll(s, ps, planned))
  {
    var gone := s.(patches := map p | p in s.patches :: if p in ps then Refused else s.patches[p]);
    var next := RefusedAll(s, ps, planned);
    RevokedEachOnlyStrikes(gone, ps, planned);
    SameEntries(s.tickets, next.tickets);
    forall i, e | 0 <= i < |next.tickets| && e in next.tickets[i].entries && e.grant.Some?
      ensures (e.task, e.at) in next.tickets[i].revoked || Stands(e, next.patches)
    {
      if (e.task, e.at) !in s.tickets[i].revoked {
        var q :| q in e.patches && IsLive(s.patches, q);
        if q in ps {
          EachRevokedOrStands(gone, ps, planned, i, e, q);
        } else {
          assert IsLive(next.patches, q);
        }
      }
    }
  }

  lemma ReturnKeepsStanding(s: State, i: nat, task: TaskId, budget: Budget, changes: set<PatchId>, at: nat, next: State)
    requires i < |s.tickets| && Returned(s, i, task, budget, changes, at) == Ok(next) && GrantsStand(s)
    ensures GrantsStand(next)
  {
    forall j, e | 0 <= j < |next.tickets| && e in next.tickets[j].entries && e.grant.Some?
      ensures (e.task, e.at) in next.tickets[j].revoked || Stands(e, next.patches)
    {
      if e !in s.tickets[j].entries {
        assert IsLive(s.patches, e.patches[0]) by {
          assert e.patches[0] in e.patches;
        }
      } else if (e.task, e.at) !in s.tickets[j].revoked {
        assert Stands(e, s.patches);
      }
    }
  }

  lemma ElsewhereKeeps(s: State, next: State)
    requires LeavesGrants(s, next) && NoPatchTwice(s.tickets) && GrantsStand(s)
    ensures NoPatchTwice(next.tickets) && GrantsStand(next)
  {
    SameEntries(s.tickets, next.tickets);
    forall i, e | 0 <= i < |next.tickets| && e in next.tickets[i].entries && e.grant.Some?
      ensures (e.task, e.at) in next.tickets[i].revoked || Stands(e, next.patches)
    {
      assert i < |s.tickets| && e in s.tickets[i].entries;
    }
  }

  lemma {:induction false} RunKeeps(states: seq<State>, steps: seq<Step>, n: nat)
    requires IsRun(states, steps) && n <= |steps|
    ensures NoPatchTwice(states[n].tickets) && GrantsStand(states[n])
  {
    if n > 0 {
      RunKeeps(states, steps, n - 1);
      var s, next := states[n - 1], states[n];
      assert Next(s, steps[n - 1], next);
      match steps[n - 1]
      case Return(i, task, budget, changes, at) =>
        ReturnKeepsPatchesApart(s, i, task, budget, changes, at, next);
        ReturnKeepsStanding(s, i, task, budget, changes, at, next);
      case TakeBack(p, planned) => TakeBackKeeps(s, p, planned);
      case Refuse(ps, planned) => RefuseKeeps(s, ps, planned);
      case Elsewhere(state) => ElsewhereKeeps(s, state);
    }
  }

  /** Across all tickets of a run no patch is the ground of two returns. */
  lemma PatchBuysOneHire(states: seq<State>, steps: seq<Step>, n: nat, i: int, a: int, j: int, b: int, p: PatchId)
    requires IsRun(states, steps) && n <= |steps|
    requires Rests(states[n].tickets, i, a, p) && Rests(states[n].tickets, j, b, p)
    ensures i == j && a == b
  {
    RunKeeps(states, steps, n);
  }

  /** A hire that was bought lives no longer than the patches it rests on. */
  lemma HireGoesWithItsPatch(states: seq<State>, steps: seq<Step>, n: nat, i: nat, e: Grants.Return)
    requires IsRun(states, steps) && n <= |steps| && i < |states[n].tickets| && e in states[n].tickets[i].entries
    requires e.grant.Some?
    ensures (e.task, e.at) in states[n].tickets[i].revoked || Stands(e, states[n].patches)
  {
    RunKeeps(states, steps, n);
  }

  // ----- Exactly one grant is undone -----

  lemma {:induction false} AtMostOneOf(entries: seq<Grants.Return>, revoked: set<(TaskId, nat)>, p: PatchId,
    patches: map<PatchId, PatchStatus>)
    requires forall a, b ::
      0 <= a < |entries| && 0 <= b < |entries| && p in entries[a].patches && p in entries[b].patches ==> a == b
    ensures |FallenOf(entries, revoked, {p}, patches)| <= 1
  {
    if entries != [] {
      var n := |entries| - 1;
      AtMostOneOf(entries[..n], revoked, p, patches);
      if p in entries[n].patches {
        NoneOf(entries[..n], revoked, {p}, patches);
      }
    }
  }

  lemma {:induction false} AtMostOne(tickets: seq<Ticket>, p: PatchId, patches: map<PatchId, PatchStatus>)
    requires NoPatchTwice(tickets)
    ensures |Fallen(tickets, {p}, patches)| <= 1
  {
    if tickets != [] {
      var n := |tickets| - 1;
      var last := tickets[n].entries;
      forall i, a, q | Rests(tickets[..n], i, a, q) ensures Rests(tickets, i, a, q) {
      }
      AtMostOne(tickets[..n], p, patches);
      forall a, b | 0 <= a < |last| && 0 <= b < |last| && p in last[a].patches && p in last[b].patches ensures a == b {
        assert Rests(tickets, n, a, p) && Rests(tickets, n, b, p);
      }
      AtMostOneOf(last, tickets[n].revoked, p, patches);
      if a :| 0 <= a < |last| && p in last[a].patches {
        forall i, e | 0 <= i < n && e in tickets[..n][i].entries ensures p !in e.patches {
          var b :| 0 <= b < |tickets[i].entries| && tickets[i].entries[b] == e;
          assert Rests(tickets, n, a, p) && (p in e.patches ==> Rests(tickets, i, b, p));
        }
        NothingFalls(tickets[..n], {p}, patches);
      } else {
        NoneOf(last, tickets[n].revoked, {p}, patches);
      }
    }
  }

  /** The hire that taking back a patch revokes: it bought the hire, and no other live patch holds it. */
  ghost predicate Hangs(s: State, p: PatchId, i: nat, e: Grants.Return) {
    && i < |s.tickets| && e in s.tickets[i].entries && p in e.patches && (e.task, e.at) !in s.tickets[i].revoked
    && forall q :: q in e.patches && q != p ==> !IsLive(s.patches, q)
  }

  lemma HangsFalls(s: State, p: PatchId, i: nat, e: Grants.Return)
    requires IsLive(s.patches, p) && i < |s.tickets| && e in s.tickets[i].entries
    ensures Hangs(s, p, i, e) <==> Falls(e, s.tickets[i].revoked, {p}, WithoutPatch(s.patches, p))
  {
    var patches := WithoutPatch(s.patches, p);
    forall q | q != p ensures IsLive(s.patches, q) <==> IsLive(patches, q) {
    }
    if p in e.patches {
      assert p in {p};
    }
  }

  lemma FallenIs(s: State, p: PatchId, i: nat, e: Grants.Return)
    requires NoPatchTwice(s.tickets) && IsLive(s.patches, p) && Hangs(s, p, i, e)
    ensures Fallen(s.tickets, {p}, WithoutPatch(s.patches, p)) == [e]
  {
    var patches := WithoutPatch(s.patches, p);
    HangsFalls(s, p, i, e);
    FallenMembers(s.tickets, {p}, patches, e);
    AtMostOne(s.tickets, p, patches);
    var fallen := Fallen(s.tickets, {p}, patches);
    assert fallen == [fallen[0]];
  }

  lemma UndoneOne(w: Tallies, e: Grants.Return, atWork: set<TaskId>, planned: set<TaskId>)
    ensures UndoneAll(w, [e], atWork, planned) == Undone(w, e, atWork, planned)
  {
    assert [e][..0] == [];
  }

  lemma OnlyItsReturnFalls(s: State, p: PatchId, i: nat, e: Grants.Return, j: nat, f: Grants.Return)
    requires NoPatchTwice(s.tickets) && IsLive(s.patches, p) && Hangs(s, p, i, e)
    requires j < |s.tickets| && f in s.tickets[j].entries
    ensures Falls(f, s.tickets[j].revoked, {p}, WithoutPatch(s.patches, p)) <==> j == i && f == e
  {
    HangsFalls(s, p, i, e);
    if Falls(f, s.tickets[j].revoked, {p}, WithoutPatch(s.patches, p)) {
      var a :| 0 <= a < |s.tickets[j].entries| && s.tickets[j].entries[a] == f;
      var b :| 0 <= b < |s.tickets[i].entries| && s.tickets[i].entries[b] == e;
      assert Rests(s.tickets, j, a, p) && Rests(s.tickets, i, b, p);
    }
  }

  lemma TakeBackStrikesOne(s: State, p: PatchId, i: nat, e: Grants.Return, j: nat)
    requires NoPatchTwice(s.tickets) && IsLive(s.patches, p) && Hangs(s, p, i, e) && j < |s.tickets|
    ensures Struck(s.tickets[j], {p}, WithoutPatch(s.patches, p))
         == if j == i then s.tickets[i].(revoked := s.tickets[i].revoked + {(e.task, e.at)}) else s.tickets[j]
  {
    var patches := WithoutPatch(s.patches, p);
    var fallen := FallenOf(s.tickets[j].entries, s.tickets[j].revoked, {p}, patches);
    forall f | f in s.tickets[j].entries ensures f in fallen <==> j == i && f == e {
      OnlyItsReturnFalls(s, p, i, e, j, f);
    }
    assert Keys(fallen) == if j == i then {(e.task, e.at)} else {};
  }

  /**
    Taking back a patch undoes the one hire it bought, and nothing else: the tally goes back
    exactly if it has not moved, and every other task keeps its tally and its state.
   */
  lemma TakeBackUndoesItsHire(s: State, p: PatchId, planned: set<TaskId>, i: nat, e: Grants.Return)
    requires NoPatchTwice(s.tickets) && IsLive(s.patches, p) && Hangs(s, p, i, e)
    ensures TakenBack(s, p, planned).tallies == Undone(s.tallies, e, s.atWork, planned)
    ensures TakenBack(s, p, planned).tickets ==
      s.tickets[i := s.tickets[i].(revoked := s.tickets[i].revoked + {(e.task, e.at)})]
  {
    FallenIs(s, p, i, e);
    UndoneOne(s.tallies, e, s.atWork, planned);
    forall j: nat | j < |s.tickets| ensures TakenBack(s, p, planned).tickets[j]
      == if j == i then s.tickets[i].(revoked := s.tickets[i].revoked + {(e.task, e.at)}) else s.tickets[j]
    {
      TakeBackStrikesOne(s, p, i, e, j);
    }
  }

  /** A patch that no hire hangs on goes without any effect on the tasks. */
  lemma TakeBackWithoutHire(s: State, p: PatchId, planned: set<TaskId>)
    requires IsLive(s.patches, p) && forall i, e :: !Hangs(s, p, i, e)
    ensures TakenBack(s, p, planned).tallies == s.tallies && TakenBack(s, p, planned).tickets == s.tickets
  {
    forall i, e | 0 <= i < |s.tickets| && e in s.tickets[i].entries
      ensures !Falls(e, s.tickets[i].revoked, {p}, WithoutPatch(s.patches, p))
    {
      HangsFalls(s, p, i, e);
    }
    NothingFalls(s.tickets, {p}, WithoutPatch(s.patches, p));
  }

  /** Two hires of one task, the second granted on top of the first, and nothing moved the tally since. */
  ghost predicate Stacked(w: Tallies, first: Grants.Return, second: Grants.Return) {
    && first.task == second.task && first.at != second.at && first.grant.Some? && second.grant.Some?
    && first.grant.value.before < first.grant.value.now == second.grant.value.before < second.grant.value.now
    && Count(w.rehires, first.task) == second.grant.value.now
  }

  /**
    Two stacked hires whose patches are both taken back: newest first gives the tally from
    before both back, oldest first keeps the older hire.
   */
  lemma OrderOfTakingBack(s: State, p: PatchId, q: PatchId, planned: set<TaskId>, i: nat, j: nat, first: Grants.Return,
    second: Grants.Return)
    requires NoPatchTwice(s.tickets) && GrantsStand(s) && p != q && IsLive(s.patches, p) && IsLive(s.patches, q)
    requires Hangs(s, p, i, first) && first.patches == [p] && Hangs(s, q, j, second) && second.patches == [q]
    requires Stacked(s.tallies, first, second)
    ensures IsLive(TakenBack(s, q, planned).patches, p) && IsLive(TakenBack(s, p, planned).patches, q)
    ensures Count(TakenBack(TakenBack(s, q, planned), p, planned).tallies.rehires, first.task) ==
      first.grant.value.before
    ensures Count(TakenBack(TakenBack(s, p, planned), q, planned).tallies.rehires, first.task) == first.grant.value.now
  {
    TakeBackUndoesItsHire(s, q, planned, j, second);
    TakeBackKeeps(s, q, planned);
    TakeBackUndoesItsHire(TakenBack(s, q, planned), p, planned, i, first);
    TakeBackUndoesItsHire(s, p, planned, i, first);
    TakeBackKeeps(s, p, planned);
    TakeBackUndoesItsHire(TakenBack(s, p, planned), q, planned, j, second);
  }

  /** What a return that buys a hire records and changes. */
  lemma BoughtReturn(s: State, i: nat, task: TaskId, budget: Budget, changes: set<PatchId>, at: nat, next: State,
    e: Grants.Return)
    requires i < |s.tickets| && Returned(s, i, task, budget, changes, at) == Ok(next)
    requires e == next.tickets[i].entries[|s.tickets[i].entries|] && e.patches != []
    ensures e.task == task && e.at == at && e.to != Blocked && e.grant.Some?
    ensures e.grant.value.before == Count(s.tallies.rehires, task)
    ensures next.tallies.rehires == s.tallies.rehires[task := e.grant.value.now] && next.atWork == s.atWork
    ensures task in s.tallies.states && s.tallies.states[task] == Blocked
    ensures next.tallies.states == s.tallies.states[task := e.to]
    ensures next.tickets[i].revoked == s.tickets[i].revoked
    ensures forall p :: p in e.patches ==> IsLive(next.patches, p)
  {
  }

  lemma UndoneRestores(w: Tallies, next: Tallies, e: Grants.Return, atWork: set<TaskId>, planned: set<TaskId>)
    requires e.grant.Some? && e.grant.value.before == Count(w.rehires, e.task) && e.task in planned && e.task !in atWork
    requires next.rehires == w.rehires[e.task := e.grant.value.now]
    requires e.task in w.states && w.states[e.task] == Blocked && next.states == w.states[e.task := e.to]
    ensures var back := Undone(next, e, atWork, planned);
      back.states == w.states && forall t :: Count(back.rehires, t) == Count(w.rehires, t)
  {
  }

  /** A return bought with one patch, and taken back with it before the task starts: the task is where it was. */
  lemma ReturnRoundTrip(s: State, i: nat, task: TaskId, budget: Budget, changes: set<PatchId>, at: nat, next: State,
    p: PatchId, planned: set<TaskId>)
    requires i < |s.tickets| && Returned(s, i, task, budget, changes, at) == Ok(next) && NoPatchTwice(s.tickets)
    requires next.tickets[i].entries[|s.tickets[i].entries|].patches == [p] && (task, at) !in s.tickets[i].revoked
    requires task in planned && task !in s.atWork
    ensures IsLive(next.patches, p)
    ensures TakenBack(next, p, planned).tallies.states == s.tallies.states
    ensures forall t :: Count(TakenBack(next, p, planned).tallies.rehires, t) == Count(s.tallies.rehires, t)
  {
    var e := next.tickets[i].entries[|s.tickets[i].entries|];
    assert p in e.patches;
    BoughtReturn(s, i, task, budget, changes, at, next, e);
    ReturnKeepsPatchesApart(s, i, task, budget, changes, at, next);
    TakeBackUndoesItsHire(next, p, planned, i, e);
    UndoneRestores(s.tallies, next.tallies, e, s.atWork, planned);
  }
}
