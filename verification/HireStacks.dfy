/**
  Several hires of one task, each granted on top of the one before: in which order taking
  them back gives the tally back.
 */
module HireStacks {
  import opened Wrappers
  import opened Grants
  import opened GrantRuns

  /** A hire that hangs on one patch: the patch, the ticket and the return. */
  datatype Hire = Hire(patch: PatchId, ticket: nat, entry: Grants.Return)

  ghost predicate HangsAlone(s: State, h: Hire) {
    IsLive(s.patches, h.patch) && Hangs(s, h.patch, h.ticket, h.entry) && h.entry.patches == [h.patch]
      && h.entry.grant.Some?
  }

  /** Patches and times of return tell the hires apart. */
  ghost predicate Apart(hires: seq<Hire>) {
    forall k, l :: 0 <= k < l < |hires| ==>
      hires[k].patch != hires[l].patch && hires[k].entry.at != hires[l].entry.at
  }

  /** Each hire was granted on the tally that the one before left. */
  ghost predicate Chained(hires: seq<Hire>, task: TaskId) {
    && (forall k :: 0 <= k < |hires| ==>
          hires[k].entry.task == task && hires[k].entry.grant.Some?
            && hires[k].entry.grant.value.before < hires[k].entry.grant.value.now)
    && (forall k :: 0 < k < |hires| ==> hires[k].entry.grant.value.before == hires[k - 1].entry.grant.value.now)
  }

  /** The tally with the first `m` hires of a chain. */
  function Level(hires: seq<Hire>, m: nat): nat
    requires hires != [] && m <= |hires| && forall k :: 0 <= k < |hires| ==> hires[k].entry.grant.Some?
  {
    if m == 0 then hires[0].entry.grant.value.before else hires[m - 1].entry.grant.value.now
  }

  function TakenBackInOrder(s: State, hires: seq<Hire>, order: seq<nat>, planned: set<TaskId>): State
    requires forall o :: o in order ==> o < |hires|
    decreases |order|
  {
    if order == [] then s
    else
      assert order[0] in order && forall o :: o in order[1..] ==> o in order;
      var p := hires[order[0]].patch;
      TakenBackInOrder(if IsLive(s.patches, p) then TakenBack(s, p, planned) else s, hires, order[1..], planned)
  }

  /** The number of hires left after taking back in that order: only the newest one left can be taken off the tally. */
  function LevelAfter(m: nat, order: seq<nat>): (r: nat)
    ensures r <= m
  {
    if order == [] then m else LevelAfter(if m == order[0] + 1 then order[0] else m, order[1..])
  }

  /** As many take-backs as hires empty the tally exactly newest first. */
  lemma {:induction false} EmptiedExactlyNewestFirst(m: nat, order: seq<nat>)
    ensures LevelAfter(m, order) == 0 ==> |order| >= m
    ensures |order| == m ==> (LevelAfter(m, order) == 0 <==> forall k :: 0 <= k < m ==> order[k] == m - 1 - k)
  {
    if order != [] {
      var next := if m == order[0] + 1 then order[0] else m;
      EmptiedExactlyNewestFirst(next, order[1..]);
      if |order| == m && m == order[0] + 1 {
        assert forall k :: 0 <= k < m - 1 ==> order[1..][k] == order[k + 1];
        if forall k :: 0 <= k < m - 1 ==> order[1..][k] == m - 2 - k {
          forall k | 0 <= k < m ensures order[k] == m - 1 - k {
            if k > 0 { assert order[1..][k - 1] == order[k]; }
          }
        }
      }
    }
  }

  lemma {:induction false} LevelsRise(hires: seq<Hire>, task: TaskId, m: nat, n: nat)
    requires hires != [] && Chained(hires, task) && m < n <= |hires|
    ensures Level(hires, m) < Level(hires, n)
  {
    if m + 1 < n {
      LevelsRise(hires, task, m, n - 1);
    }
    assert Level(hires, n - 1) == hires[n - 1].entry.grant.value.before;
  }

  /** Taking one patch back changes the tally exactly if the tally is still the one that its hire left. */
  lemma OneTakenBack(s: State, h: Hire, planned: set<TaskId>)
    requires NoPatchTwice(s.tickets) && HangsAlone(s, h)
    ensures Count(TakenBack(s, h.patch, planned).tallies.rehires, h.entry.task)
         == if Count(s.tallies.rehires, h.entry.task) == h.entry.grant.value.now then h.entry.grant.value.before
            else Count(s.tallies.rehires, h.entry.task)
    ensures NoPatchTwice(TakenBack(s, h.patch, planned).tickets)
  {
    TakeBackUndoesItsHire(s, h.patch, planned, h.ticket, h.entry);
    SameEntries(s.tickets, TakenBack(s, h.patch, planned).tickets);
  }

  lemma OthersStillHang(s: State, h: Hire, other: Hire, planned: set<TaskId>)
    requires NoPatchTwice(s.tickets) && HangsAlone(s, h) && HangsAlone(s, other)
    requires h.patch != other.patch && h.entry.at != other.entry.at
    ensures HangsAlone(TakenBack(s, h.patch, planned), other)
  {
    TakeBackUndoesItsHire(s, h.patch, planned, h.ticket, h.entry);
  }

  ghost predicate AllHang(s: State, hires: seq<Hire>, order: seq<nat>) {
    forall o :: o in order ==> o < |hires| && HangsAlone(s, hires[o])
  }

  lemma LevelMatches(hires: seq<Hire>, task: TaskId, m: nat, o: nat)
    requires hires != [] && Chained(hires, task) && m <= |hires| && o < |hires|
    ensures Level(hires, m) == hires[o].entry.grant.value.now <==> m == o + 1
    ensures hires[o].entry.grant.value.before == Level(hires, o)
  {
    assert hires[o].entry.grant.value.now == Level(hires, o + 1);
    if m < o + 1 {
      LevelsRise(hires, task, m, o + 1);
    } else if m > o + 1 {
      LevelsRise(hires, task, o + 1, m);
    }
  }

  lemma {:induction false} TakenBackLevels(s: State, hires: seq<Hire>, task: TaskId, order: seq<nat>, m: nat,
    planned: set<TaskId>)
    requires NoPatchTwice(s.tickets) && hires != [] && Chained(hires, task) && Apart(hires) && AllHang(s, hires, order)
    requires forall k, l :: 0 <= k < l < |order| ==> order[k] != order[l]
    requires m <= |hires| && Count(s.tallies.rehires, task) == Level(hires, m)
    ensures LevelAfter(m, order) <= |hires|
    ensures Count(TakenBackInOrder(s, hires, order, planned).tallies.rehires, task) ==
      Level(hires, LevelAfter(m, order))
    decreases |order|
  {
    if order != [] {
      var o := order[0];
      assert o in order;
      var h := hires[o];
      var after := TakenBack(s, h.patch, planned);
      OneTakenBack(s, h, planned);
      forall x | x in order[1..] ensures x < |hires| && HangsAlone(after, hires[x]) {
        var k :| 0 <= k < |order| - 1 && order[1..][k] == x;
        assert order[k + 1] == x && x in order;
        OthersStillHang(s, h, hires[x], planned);
      }
      LevelMatches(hires, task, m, o);
      TakenBackLevels(after, hires, task, order[1..], if m == o + 1 then o else m, planned);
    }
  }

  /**
    Over all orders of taking back the patches of a chain of hires whose tally has not moved:
    the tally from before the first hire comes back exactly if they go newest first.
   */
  lemma RestoredExactlyNewestFirst(s: State, hires: seq<Hire>, task: TaskId, order: seq<nat>, planned: set<TaskId>)
    requires NoPatchTwice(s.tickets) && hires != [] && Chained(hires, task) && Apart(hires) && AllHang(s, hires, order)
    requires |order| == |hires| && forall k, l :: 0 <= k < l < |order| ==> order[k] != order[l]
    requires Count(s.tallies.rehires, task) == hires[|hires| - 1].entry.grant.value.now
    ensures Count(TakenBackInOrder(s, hires, order, planned).tallies.rehires, task) == hires[0].entry.grant.value.before
       <==> forall k :: 0 <= k < |order| ==> order[k] == |order| - 1 - k
  {
    var n := |hires|;
    TakenBackLevels(s, hires, task, order, n, planned);
    EmptiedExactlyNewestFirst(n, order);
    if LevelAfter(n, order) > 0 {
      LevelsRise(hires, task, 0, LevelAfter(n, order));
    }
  }

  // ----- A run that stacks two hires -----

  lemma ReturnBuys(s: State, i: nat, task: TaskId, budget: Budget, p: PatchId, at: nat)
    requires i < |s.tickets| && s.tickets[i].patches == [p] && IsLive(s.patches, p) && p !in Consumed(s.tickets)
    requires task in s.tallies.states && s.tallies.states[task] == Blocked
    requires AtTop(Count(s.revisions, task), Count(s.tallies.rehires, task), budget)
    ensures Returned(s, i, task, budget, {p}, at).Ok?
    ensures var next := Returned(s, i, task, budget, {p}, at).value;
      var used, before := Count(s.revisions, task), Count(s.tallies.rehires, task);
      var now := FreshTally(used, before, budget);
      var e := Grants.Return(task, Target(used), [p], Some(Grant(before, now)), at);
      next == s.(tickets := s.tickets[i := Recorded(s.tickets[i], e)],
                 tallies := Tallies(s.tallies.rehires[task := now], s.tallies.grantedOn + {task},
                   s.tallies.states[task := Target(used)]))
  {
    assert [p][..0] == [];
    assert Fresh([p], s.patches, {p}, Consumed(s.tickets)) == [p];
  }

  function NewTicket(p: PatchId): Ticket {
    Ticket(true, [p], [], {})
  }

  /** A ticket with a staged patch, and a task at the top of its ladder with one revision. */
  function Opened(task: TaskId, p: PatchId): State {
    State([NewTicket(p)], map[p := Pending], Tallies(map[], {}, map[task := Blocked]), map[task := 1], {})
  }

  function FirstHire(task: TaskId, p: PatchId): Hire {
    Hire(p, 0, Grants.Return(task, Implemented, [p], Some(Grant(0, 1)), 1))
  }

  function SecondHire(task: TaskId, q: PatchId): Hire {
    Hire(q, 1, Grants.Return(task, Implemented, [q], Some(Grant(1, 2)), 2))
  }

  function Hired(task: TaskId, p: PatchId): State {
    Opened(task, p).(
      tickets := [Recorded(NewTicket(p), FirstHire(task, p).entry)],
      tallies := Tallies(map[task := 1], {task}, map[task := Implemented]))
  }

  /** The patch is installed, the hire is used up, the task has stopped again, and another ticket has staged a patch. */
  function StoppedAgain(task: TaskId, p: PatchId, q: PatchId): State {
    State([Recorded(NewTicket(p), FirstHire(task, p).entry), NewTicket(q)], map[p := Installed, q := Pending],
      Tallies(map[task := 1], {task}, map[task := Blocked]), map[task := 2], {})
  }

  function HiredTwice(task: TaskId, p: PatchId, q: PatchId): State {
    StoppedAgain(task, p, q).(
      tickets := [Recorded(NewTicket(p), FirstHire(task, p).entry), Recorded(NewTicket(q), SecondHire(task, q).entry)],
      tallies := Tallies(map[task := 2], {task}, map[task := Implemented]))
  }

  const SPENT := Budget(1, true)

  lemma FirstReturn(task: TaskId, p: PatchId)
    ensures Returned(Opened(task, p), 0, task, SPENT, {p}, 1) == Ok(Hired(task, p))
  {
    var s := Opened(task, p);
    assert Consumed(s.tickets) == {};
    ReturnBuys(s, 0, task, SPENT, p, 1);
    assert s.tickets[0 := Recorded(s.tickets[0], FirstHire(task, p).entry)] == Hired(task, p).tickets;
    assert s.tallies.grantedOn + {task} == {task};
    assert s.tallies.rehires[task := 1] == map[task := 1]
      && s.tallies.states[task := Implemented] == map[task := Implemented];
  }

  lemma SecondReturn(task: TaskId, p: PatchId, q: PatchId)
    requires p != q
    ensures Returned(StoppedAgain(task, p, q), 1, task, SPENT, {q}, 2) == Ok(HiredTwice(task, p, q))
  {
    var s := StoppedAgain(task, p, q);
    assert s.tickets[1].entries == [];
    forall t, e, x | t in s.tickets && e in t.entries && x in e.patches ensures x == p {
      assert t == s.tickets[0];
    }
    ReturnBuys(s, 1, task, SPENT, q, 2);
    assert s.tickets[1 := Recorded(s.tickets[1], SecondHire(task, q).entry)] == HiredTwice(task, p, q).tickets;
    assert s.tallies.grantedOn + {task} == {task};
    assert s.tallies.rehires[task := 2] == map[task := 2]
      && s.tallies.states[task := Implemented] == map[task := Implemented];
  }

  lemma HireHangs(task: TaskId, p: PatchId, q: PatchId)
    requires p != q
    ensures HangsAlone(HiredTwice(task, p, q), FirstHire(task, p))
    ensures HangsAlone(HiredTwice(task, p, q), SecondHire(task, q))
  {
    var s := HiredTwice(task, p, q);
    assert s.tickets[0].entries == [FirstHire(task, p).entry];
    assert s.tickets[1].entries == [SecondHire(task, q).entry];
  }

  ghost predicate StandReady(s: State, hires: seq<Hire>, task: TaskId) {
    && Chained(hires, task) && Apart(hires) && |hires| == 2 && HangsAlone(s, hires[0]) && HangsAlone(s, hires[1])
    && Count(s.tallies.rehires, task) == 2 && Stacked(s.tallies, hires[0].entry, hires[1].entry)
  }

  lemma HiresStandReady(task: TaskId, p: PatchId, q: PatchId)
    requires p != q
    ensures StandReady(HiredTwice(task, p, q), [FirstHire(task, p), SecondHire(task, q)], task)
  {
    HireHangs(task, p, q);
  }

  function Empty(task: TaskId, p: PatchId): State {
    Opened(task, p).(tickets := [], patches := map[])
  }

  lemma TicketOpens(task: TaskId, p: PatchId)
    ensures Next(Empty(task, p), Step.Elsewhere(Opened(task, p)), Opened(task, p))
  {
  }

  lemma FirstStep(task: TaskId, p: PatchId)
    ensures Next(Opened(task, p), Step.Return(0, task, SPENT, {p}, 1), Hired(task, p))
  {
    FirstReturn(task, p);
  }

  lemma StopsAgain(task: TaskId, p: PatchId, q: PatchId)
    requires p != q
    ensures Next(Hired(task, p), Step.Elsewhere(StoppedAgain(task, p, q)), StoppedAgain(task, p, q))
  {
  }

  lemma SecondStep(task: TaskId, p: PatchId, q: PatchId)
    requires p != q
    ensures Next(StoppedAgain(task, p, q), Step.Return(1, task, SPENT, {q}, 2), HiredTwice(task, p, q))
  {
    SecondReturn(task, p, q);
  }

  lemma FourSteps(a: State, b: State, c: State, d: State, e: State, w: Step, x: Step, y: Step, z: Step)
    requires a.tickets == [] && Next(a, w, b) && Next(b, x, c) && Next(c, y, d) && Next(d, z, e)
    ensures IsRun([a, b, c, d, e], [w, x, y, z])
  {
    var states, steps := [a, b, c, d, e], [w, x, y, z];
    forall i | 0 <= i < 4 ensures Next(states[i], steps[i], states[i + 1]) {
      if i == 0 {
      } else if i == 1 {
      } else if i == 2 {
      } else {
      }
    }
  }

  /**
    For any task and any two patches, a run in which two hires are stacked and hang on one
    patch each; whenever the task works, every patch that was staged is installed.
   */
  lemma HiresStack(task: TaskId, p: PatchId, q: PatchId) returns (states: seq<State>, steps: seq<Step>)
    requires p != q
    ensures IsRun(states, steps) && states[|steps|] == HiredTwice(task, p, q)
    ensures StandReady(states[|steps|], [FirstHire(task, p), SecondHire(task, q)], task)
  {
    states := [Empty(task, p), Opened(task, p), Hired(task, p), StoppedAgain(task, p, q), HiredTwice(task, p, q)];
    steps := [Step.Elsewhere(Opened(task, p)), Step.Return(0, task, SPENT, {p}, 1),
              Step.Elsewhere(StoppedAgain(task, p, q)), Step.Return(1, task, SPENT, {q}, 2)];
    TicketOpens(task, p);
    FirstStep(task, p);
    StopsAgain(task, p, q);
    SecondStep(task, p, q);
    FourSteps(states[0], states[1], states[2], states[3], states[4], steps[0], steps[1], steps[2], steps[3]);
    HiresStandReady(task, p, q);
  }

  lemma TwoTickets(task: TaskId, p: PatchId, q: PatchId)
    requires p != q
    ensures NoPatchTwice(HiredTwice(task, p, q).tickets)
  {
    var tickets := HiredTwice(task, p, q).tickets;
    assert tickets[0].entries == [FirstHire(task, p).entry] && tickets[1].entries == [SecondHire(task, q).entry];
    forall i, a, x | Rests(tickets, i, a, x) ensures a == 0 && x == if i == 0 then p else q {
    }
  }

  lemma LevelsOfTwo()
    ensures LevelAfter(2, [1, 0]) == 0 && LevelAfter(2, [0, 1]) == 1
  {
    assert [0, 1][1..] == [1] && [1, 0][1..] == [0] && [1][1..] == [] && [0][1..] == [];
    assert LevelAfter(2, [0, 1]) == LevelAfter(2, [1]);
    assert LevelAfter(2, [1, 0]) == LevelAfter(1, [0]);
  }

  lemma EitherOrder(s: State, hires: seq<Hire>, task: TaskId, planned: set<TaskId>)
    requires NoPatchTwice(s.tickets) && StandReady(s, hires, task)
    ensures Count(TakenBackInOrder(s, hires, [1, 0], planned).tallies.rehires, task) == Level(hires, 0)
    ensures Count(TakenBackInOrder(s, hires, [0, 1], planned).tallies.rehires, task) == Level(hires, 1)
  {
    TakenBackLevels(s, hires, task, [1, 0], 2, planned);
    TakenBackLevels(s, hires, task, [0, 1], 2, planned);
    LevelsOfTwo();
  }

  /** So the older patch taken back first leaves one hire that nothing holds any more. */
  lemma OldestFirstKeepsAHire(task: TaskId, p: PatchId, q: PatchId, planned: set<TaskId>)
    requires p != q
    ensures var s := HiredTwice(task, p, q); var hires := [FirstHire(task, p), SecondHire(task, q)];
      && Count(TakenBackInOrder(s, hires, [1, 0], planned).tallies.rehires, task) == 0
      && Count(TakenBackInOrder(s, hires, [0, 1], planned).tallies.rehires, task) == 1
  {
    TwoTickets(task, p, q);
    HiresStandReady(task, p, q);
    EitherOrder(HiredTwice(task, p, q), [FirstHire(task, p), SecondHire(task, q)], task, planned);
  }
}
