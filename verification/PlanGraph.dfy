/**
  The scheduler's order of a plan (`plan_graph.py`): Kahn's algorithm whose ready list is
  kept sorted by declaration rank.

  The method below is the loop of the source.  It is proved to return the greedy order,
  and the lemmas after it say what the greedy order is: the lexicographically least of all
  dependency orders, and that the loop gives up exactly when the plan has a cycle.
 */
module PlanGraph {
  import opened Collections

  datatype Task = Task(id: string, dependsOn: seq<string>)

  /** What the function returns or raises. */
  datatype Outcome =
    | Ordered(ids: seq<string>)
    | UnknownDependency(id: string)  // the KeyError of `dependents[dependency]`
    | CyclicPlan                     // "plan task graph contains a cycle"

  type Plan = seq<Task>

  ghost predicate UniqueIds(plan: Plan) {
    forall i, j :: 0 <= i < j < |plan| ==> plan[i].id != plan[j].id
  }

  ghost predicate Declares(plan: Plan, id: string) {
    exists i :: 0 <= i < |plan| && plan[i].id == id
  }

  ghost predicate KnownDependencies(plan: Plan) {
    forall i, d :: 0 <= i < |plan| && d in plan[i].dependsOn ==> Declares(plan, d)
  }

  ghost function Rank(plan: Plan, id: string): (r: nat)
    requires Declares(plan, id)
    ensures r < |plan| && plan[r].id == id
  {
    var i :| 0 <= i < |plan| && plan[i].id == id;
    i
  }

  ghost function Dependencies(plan: Plan, id: string): seq<string>
    requires Declares(plan, id)
  {
    plan[Rank(plan, id)].dependsOn
  }

  /** `id` is still to be done and waits for nothing that is not done. */
  ghost predicate Available(plan: Plan, done: seq<string>, id: string) {
    && Declares(plan, id)
    && id !in done
    && forall d :: d in Dependencies(plan, id) ==> d in done
  }

  /** A dependency order: every task exactly once, each after all it depends on. */
  ghost predicate IsTopological(plan: Plan, order: seq<string>) {
    && |order| == |plan|
    && forall k :: 0 <= k < |order| ==> Available(plan, order[..k], order[k])
  }

  ghost predicate LeastAvailable(plan: Plan, done: seq<string>, id: string) {
    && Available(plan, done, id)
    && forall other :: Available(plan, done, other) ==> Rank(plan, id) <= Rank(plan, other)
  }

  /** At every position, the earliest declared of the tasks available there. */
  ghost predicate IsGreedy(plan: Plan, order: seq<string>) {
    forall k :: 0 <= k < |order| ==> LeastAvailable(plan, order[..k], order[k])
  }

  /** Each task of the sequence depends on the next, and the last on the first. */
  ghost predicate IsCycle(plan: Plan, c: seq<string>) {
    && c != []
    && (forall i :: 0 <= i < |c| ==> Declares(plan, c[i]))
    && (forall i :: 0 <= i < |c| - 1 ==> c[i + 1] in Dependencies(plan, c[i]))
    && c[0] in Dependencies(plan, c[|c| - 1])
  }

  // ----- Sorting by rank -----

  ghost predicate SortedByRank(s: seq<string>, rank: map<string, nat>)
    requires forall x :: x in s ==> x in rank
  {
    forall i, j :: 0 <= i < j < |s| ==> rank[s[i]] <= rank[s[j]]
  }

  function InsertByRank(x: string, s: seq<string>, rank: map<string, nat>): seq<string>
    requires x in rank && forall y :: y in s ==> y in rank
  {
    if s == [] || rank[x] <= rank[s[0]] then [x] + s else [s[0]] + InsertByRank(x, s[1..], rank)
  }

  lemma {:induction false} InsertByRankKeeps(x: string, s: seq<string>, rank: map<string, nat>)
    requires x in rank && forall y :: y in s ==> y in rank
    ensures multiset(InsertByRank(x, s, rank)) == multiset(s) + multiset{x}
  {
    if s != [] && rank[s[0]] < rank[x] {
      InsertByRankKeeps(x, s[1..], rank);
      assert s == [s[0]] + s[1..];
    }
  }

  lemma {:induction false} InsertByRankSorts(x: string, s: seq<string>, rank: map<string, nat>)
    requires x in rank && forall y :: y in s ==> y in rank
    requires SortedByRank(s, rank)
    ensures forall y :: y in InsertByRank(x, s, rank) ==> y in s || y == x
    ensures SortedByRank(InsertByRank(x, s, rank), rank)
  {
    if s != [] && rank[s[0]] < rank[x] {
      InsertByRankSorts(x, s[1..], rank);
      assert forall y :: y in s[1..] ==> rank[s[0]] <= rank[y];
    }
  }

  /** `list.sort(key=rank.get)`: a stable insertion sort stands for the library's. */
  function SortByRank(s: seq<string>, rank: map<string, nat>): (r: seq<string>)
    requires forall x :: x in s ==> x in rank
    ensures multiset(r) == multiset(s)
    ensures forall x :: x in r ==> x in rank
    ensures SortedByRank(r, rank)
  {
    if s == [] then []
    else
      assert s == [s[0]] + s[1..];
      var rest := SortByRank(s[1..], rank);
      InsertByRankKeeps(s[0], rest, rank);
      InsertByRankSorts(s[0], rest, rank);
      InsertByRank(s[0], rest, rank)
  }

  function Count(s: seq<string>, x: string): nat {
    if s == [] then 0 else Count(s[..|s| - 1], x) + if s[|s| - 1] == x then 1 else 0
  }

  lemma {:induction false} CountConcat(s: seq<string>, t: seq<string>, x: string)
    ensures Count(s + t, x) == Count(s, x) + Count(t, x)
  {
    if t == [] {
      assert s + t == s;
    } else {
      assert (s + t)[..|s + t| - 1] == s + t[..|t| - 1];
      CountConcat(s, t[..|t| - 1], x);
    }
  }

  lemma {:induction false} CountIsMultiplicity(s: seq<string>, x: string)
    ensures Count(s, x) == multiset(s)[x]
  {
    if s != [] {
      assert s == s[..|s| - 1] + [s[|s| - 1]];
      CountIsMultiplicity(s[..|s| - 1], x);
    }
  }

  lemma {:induction false} OneCount(s: seq<string>, i: nat)
    requires i < |s|
    ensures Count(s, s[i]) >= 1
  {
    if i < |s| - 1 { OneCount(s[..|s| - 1], i); }
  }

  lemma {:induction false} PairCount(s: seq<string>, i: nat, j: nat)
    requires i < j < |s| && s[i] == s[j]
    ensures Count(s, s[i]) >= 2
  {
    if j < |s| - 1 {
      PairCount(s[..|s| - 1], i, j);
    } else {
      OneCount(s[..|s| - 1], i);
    }
  }

  lemma {:induction false} DistinctCount(s: seq<string>, x: string)
    requires Distinct(s)
    ensures Count(s, x) <= 1
    ensures x in s <==> Count(s, x) == 1
  {
    if s != [] {
      DistinctCount(s[..|s| - 1], x);
      assert s == s[..|s| - 1] + [s[|s| - 1]];
    }
  }

  lemma DistinctByMultiset(s: seq<string>, r: seq<string>)
    requires Distinct(s) && multiset(s) == multiset(r)
    ensures Distinct(r)
  {
    forall i, j | 0 <= i < j < |r| ensures r[i] != r[j] {
      DistinctCount(s, r[i]);
      CountIsMultiplicity(s, r[i]);
      CountIsMultiplicity(r, r[i]);
      if r[i] == r[j] { PairCount(r, i, j); }
    }
  }

  // ----- Counting what a task still waits for -----

  function Missing(deps: seq<string>, done: seq<string>): nat {
    if deps == [] then 0
    else (if deps[0] in done then 0 else 1) + Missing(deps[1..], done)
  }

  lemma {:induction false} MissingZero(deps: seq<string>, done: seq<string>)
    ensures Missing(deps, done) == 0 <==> forall d :: d in deps ==> d in done
  {
    if deps != [] {
      assert deps == [deps[0]] + deps[1..];
      MissingZero(deps[1..], done);
    }
  }

  lemma {:induction false} MissingNone(deps: seq<string>)
    ensures Missing(deps, []) == |deps|
  {
    if deps != [] { MissingNone(deps[1..]); }
  }

  lemma {:induction false} MissingAfter(deps: seq<string>, done: seq<string>, x: string)
    requires x !in done
    ensures Missing(deps, done + [x]) == Missing(deps, done) - multiset(deps)[x]
  {
    if deps != [] {
      assert deps == [deps[0]] + deps[1..];
      MissingAfter(deps[1..], done, x);
    }
  }

  lemma RankIsIndex(plan: Plan, i: nat)
    requires UniqueIds(plan) && i < |plan|
    ensures Declares(plan, plan[i].id) && Rank(plan, plan[i].id) == i
  {
    assert Declares(plan, plan[i].id);
  }

  // ----- The loop -----

  lemma CountPrefix(s: seq<string>, k: nat, x: string)
    requires k < |s|
    ensures Count(s[..k + 1], x) == Count(s[..k], x) + if s[k] == x then 1 else 0
  {
    assert s[..k + 1][..k] == s[..k];
  }

  /** The list of `d` after the first `k` dependencies of `task` have been gone through. */
  function Grown(before: seq<string>, task: Task, k: nat, d: string): seq<string>
    requires k <= |task.dependsOn|
  {
    if k == 0 then before
    else if task.dependsOn[k - 1] == d then Grown(before, task, k - 1, d) + [task.id]
    else Grown(before, task, k - 1, d)
  }

  /** The list kept for `d` after the first `i` tasks: one entry per mention of `d`. */
  function Dependents(plan: Plan, i: nat, d: string): seq<string>
    requires i <= |plan|
  {
    if i == 0 then [] else Grown(Dependents(plan, i - 1, d), plan[i - 1], |plan[i - 1].dependsOn|, d)
  }

  lemma {:induction false} GrownCount(before: seq<string>, task: Task, k: nat, d: string, id: string)
    requires k <= |task.dependsOn|
    ensures Count(Grown(before, task, k, d), id) ==
      Count(before, id) + if id == task.id then Count(task.dependsOn[..k], d) else 0
    ensures forall x :: x in Grown(before, task, k, d) ==> x in before || x == task.id
  {
    if k > 0 {
      GrownCount(before, task, k - 1, d, id);
      CountPrefix(task.dependsOn, k - 1, d);
      var rest := Grown(before, task, k - 1, d);
      assert (rest + [task.id])[..|rest|] == rest;
    }
  }

  lemma {:induction false} DependentsCount(plan: Plan, i: nat, d: string, id: string)
    requires UniqueIds(plan) && i <= |plan| && Declares(plan, id)
    ensures Count(Dependents(plan, i, d), id) ==
      if Rank(plan, id) < i then Count(Dependencies(plan, id), d) else 0
    ensures forall x :: x in Dependents(plan, i, d) ==> Declares(plan, x)
  {
    if i > 0 {
      var task := plan[i - 1];
      DependentsCount(plan, i - 1, d, id);
      GrownCount(Dependents(plan, i - 1, d), task, |task.dependsOn|, d, id);
      assert task.dependsOn[..|task.dependsOn|] == task.dependsOn;
      RankIsIndex(plan, i - 1);
    }
  }

  method IndexTables(plan: Plan) returns (rank: map<string, nat>, indegree: map<string, int>)
    requires UniqueIds(plan)
    ensures forall id :: id in rank <==> Declares(plan, id)
    ensures forall id :: id in rank ==> rank[id] == Rank(plan, id)
    ensures indegree.Keys == rank.Keys
    ensures forall id :: id in rank ==> indegree[id] == |Dependencies(plan, id)|
  {
    rank, indegree := map[], map[];
    for i := 0 to |plan|
      invariant forall j :: 0 <= j < i ==> plan[j].id in rank
      invariant forall id :: id in rank ==> rank[id] < i && plan[rank[id]].id == id
      invariant indegree.Keys == rank.Keys
      invariant forall id :: id in rank ==> indegree[id] == |plan[rank[id]].dependsOn|
    {
      rank := rank[plan[i].id := i];
      indegree := indegree[plan[i].id := |plan[i].dependsOn|];
    }
    forall id | id in rank ensures Declares(plan, id) && rank[id] == Rank(plan, id) {
      RankIsIndex(plan, rank[id]);
    }
  }

  /** The inner loop: one task is listed under each of its dependencies. */
  method ListUnder(dependents: map<string, seq<string>>, task: Task)
    returns (after: map<string, seq<string>>, unknown: bool, at: string)
    ensures unknown ==> at !in dependents && at in task.dependsOn
    ensures !unknown ==> after.Keys == dependents.Keys
    ensures !unknown ==> forall d :: d in task.dependsOn ==> d in dependents
    ensures !unknown ==> forall d :: d in dependents ==> after[d] == Grown(dependents[d], task, |task.dependsOn|, d)
  {
    after, unknown, at := dependents, false, "";
    for k := 0 to |task.dependsOn|
      invariant after.Keys == dependents.Keys
      invariant forall m :: 0 <= m < k ==> task.dependsOn[m] in dependents
      invariant forall d :: d in dependents ==> after[d] == Grown(dependents[d], task, k, d)
    {
      var dependency := task.dependsOn[k];
      if dependency !in after {
        return after, true, dependency;
      }
      after := after[dependency := after[dependency] + [task.id]];
    }
  }

  method DependentsTable(plan: Plan, rank: map<string, nat>)
    returns (dependents: map<string, seq<string>>, unknown: Outcome)
    requires forall id :: id in rank <==> Declares(plan, id)
    ensures unknown.UnknownDependency? <==> !KnownDependencies(plan)
    ensures unknown.UnknownDependency? ==> !Declares(plan, unknown.id)
    ensures unknown.UnknownDependency? ==> exists i :: 0 <= i < |plan| && unknown.id in plan[i].dependsOn
    ensures KnownDependencies(plan) ==> dependents.Keys == rank.Keys
    ensures KnownDependencies(plan) ==>
      forall d :: d in dependents ==> dependents[d] == Dependents(plan, |plan|, d)
  {
    dependents, unknown := map id | id in rank :: [], CyclicPlan;
    for i := 0 to |plan|
      invariant dependents.Keys == rank.Keys && unknown == CyclicPlan
      invariant forall j, d :: 0 <= j < i && d in plan[j].dependsOn ==> d in rank
      invariant forall d :: d in dependents ==> dependents[d] == Dependents(plan, i, d)
    {
      var missing, at;
      dependents, missing, at := ListUnder(dependents, plan[i]);
      if missing {
        unknown := UnknownDependency(at);
        return;
      }
    }
  }

  ghost predicate ReadyList(rank: map<string, nat>, done: seq<string>, ready: seq<string>,
    indegree: map<string, int>)
    requires indegree.Keys == rank.Keys
  {
    && (forall id :: id in ready <==> id in rank && id !in done && indegree[id] == 0)
    && Distinct(ready)
    && SortedByRank(ready, rank)
  }

  /** What the loop knows between two tasks: `done` is greedy, and `ready` is what is available. */
  ghost predicate LoopState(plan: Plan, rank: map<string, nat>, done: seq<string>, ready: seq<string>,
    indegree: map<string, int>)
  {
    && (forall id :: id in rank <==> Declares(plan, id))
    && (forall id :: id in rank ==> rank[id] == Rank(plan, id))
    && indegree.Keys == rank.Keys
    && (forall id :: id in rank ==> indegree[id] == Missing(Dependencies(plan, id), done))
    && (forall id :: id in done ==> id in rank && indegree[id] == 0)
    && ReadyList(rank, done, ready, indegree)
  }

  /** Part way through the dependents of `current`, of which those in `gone` have been taken off. */
  ghost predicate Releasing(plan: Plan, rank: map<string, nat>, done: seq<string>, gone: seq<string>,
    indegree: map<string, int>)
  {
    && (forall id :: id in rank <==> Declares(plan, id))
    && indegree.Keys == rank.Keys
    && (forall id :: id in rank ==> indegree[id] == Missing(Dependencies(plan, id), done) - Count(gone, id))
  }

  lemma {:induction false} CountTake(s: seq<string>, k: nat, x: string)
    requires k <= |s|
    ensures Count(s[..k], x) <= Count(s, x)
    decreases |s|
  {
    if k == |s| {
      assert s[..k] == s;
    } else {
      assert s[..|s| - 1][..k] == s[..k];
      CountTake(s[..|s| - 1], k, x);
    }
  }

  /** `ready.append(dependent); ready.sort(key=rank.get)` */
  function Enqueue(ready: seq<string>, id: string, rank: map<string, nat>): (r: seq<string>)
    requires id in rank && forall x :: x in ready ==> x in rank
    ensures forall x :: x in r ==> x in rank
  {
    SortByRank(ready + [id], rank)
  }

  lemma EnqueueKeepsReady(ready: seq<string>, id: string, rank: map<string, nat>)
    requires id in rank && forall x :: x in ready ==> x in rank
    requires Distinct(ready) && id !in ready
    ensures Distinct(Enqueue(ready, id, rank)) && SortedByRank(Enqueue(ready, id, rank), rank)
    ensures forall x :: x in Enqueue(ready, id, rank) <==> x in ready || x == id
  {
    var r := Enqueue(ready, id, rank);
    DistinctByMultiset(ready + [id], r);
    forall x ensures x in r <==> x in ready || x == id {
      assert x in r <==> x in multiset(r);
      assert x in ready + [id] <==> x in multiset(ready + [id]);
    }
  }

  /** One turn of the inner loop: `dependent` waits for one thing fewer. */
  method ReleaseOne(ghost plan: Plan, rank: map<string, nat>, ghost done: seq<string>, current: string,
    ghost gone: seq<string>, dependent: string, ready: seq<string>, indegree: map<string, int>)
    returns (ready': seq<string>, indegree': map<string, int>)
    requires Releasing(plan, rank, done, gone, indegree)
    requires ReadyList(rank, done + [current], ready, indegree)
    requires dependent in rank && indegree[dependent] > 0
    requires forall id :: id in done + [current] ==> id in rank && indegree[id] == 0
    ensures Releasing(plan, rank, done, gone + [dependent], indegree')
    ensures ReadyList(rank, done + [current], ready', indegree')
    ensures forall id :: id in done + [current] ==> id in rank && indegree'[id] == 0
  {
    indegree' := indegree[dependent := indegree[dependent] - 1];
    ready' := ready;
    forall id ensures Count(gone + [dependent], id) == Count(gone, id) + if id == dependent then 1 else 0 {
      CountConcat(gone, [dependent], id);
    }
    if indegree'[dependent] == 0 {
      ready' := Enqueue(ready, dependent, rank);
      EnqueueKeepsReady(ready, dependent, rank);
    }
  }

  lemma PopHead(current: string, ready: seq<string>, rank: map<string, nat>, done: seq<string>,
    indegree: map<string, int>)
    requires indegree.Keys == rank.Keys && ReadyList(rank, done, [current] + ready, indegree)
    ensures current in rank && current !in done && indegree[current] == 0
    ensures ReadyList(rank, done + [current], ready, indegree)
  {
    var all := [current] + ready;
    assert current in all;
    assert forall i :: 0 <= i < |ready| ==> ready[i] == all[i + 1];
    assert forall i :: 0 <= i < |ready| ==> ready[i] != all[0];
    assert forall id :: id in all <==> id == current || id in ready;
  }

  lemma MissingReleased(plan: Plan, done: seq<string>, current: string, dependents: seq<string>, id: string)
    requires Declares(plan, id) && current !in done
    requires Count(dependents, id) == Count(Dependencies(plan, id), current)
    ensures Missing(Dependencies(plan, id), done + [current]) ==
      Missing(Dependencies(plan, id), done) - Count(dependents, id)
  {
    MissingAfter(Dependencies(plan, id), done, current);
    CountIsMultiplicity(Dependencies(plan, id), current);
  }

  lemma AllReleased(plan: Plan, rank: map<string, nat>, done: seq<string>, current: string, dependents: seq<string>,
    ready: seq<string>, indegree: map<string, int>)
    requires Releasing(plan, rank, done, dependents, indegree) && current !in done
    requires forall id :: id in rank ==> rank[id] == Rank(plan, id)
    requires ReadyList(rank, done + [current], ready, indegree)
    requires forall id :: id in done + [current] ==> id in rank && indegree[id] == 0
    requires forall id :: id in rank ==> Count(dependents, id) == Count(Dependencies(plan, id), current)
    ensures LoopState(plan, rank, done + [current], ready, indegree)
  {
    forall id | id in rank ensures indegree[id] == Missing(Dependencies(plan, id), done + [current]) {
      MissingReleased(plan, done, current, dependents, id);
    }
  }

  /** While a dependent is still to be taken off, it waits for something. */
  lemma StillWaiting(plan: Plan, rank: map<string, nat>, done: seq<string>, current: string, dependents: seq<string>,
    k: nat, indegree: map<string, int>)
    requires k < |dependents| && dependents[k] in rank
    requires Releasing(plan, rank, done, dependents[..k], indegree) && current !in done
    requires Count(dependents, dependents[k]) == Count(Dependencies(plan, dependents[k]), current)
    ensures indegree[dependents[k]] > 0
  {
    CountPrefix(dependents, k, dependents[k]);
    CountTake(dependents, k + 1, dependents[k]);
    MissingReleased(plan, done, current, dependents, dependents[k]);
  }

  /** The inner loop: everything that waited for `current` is released. */
  method Release(ghost plan: Plan, rank: map<string, nat>, ghost done: seq<string>, current: string,
    dependents: seq<string>, ready: seq<string>, indegree: map<string, int>)
    returns (ready': seq<string>, indegree': map<string, int>)
    requires LoopState(plan, rank, done, [current] + ready, indegree)
    requires forall id :: id in dependents ==> id in rank
    requires forall id :: id in rank ==> Count(dependents, id) == Count(Dependencies(plan, id), current)
    ensures LoopState(plan, rank, done + [current], ready', indegree')
  {
    PopHead(current, ready, rank, done, indegree);
    ready', indegree' := ready, indegree;
    for k := 0 to |dependents|
      invariant Releasing(plan, rank, done, dependents[..k], indegree')
      invariant ReadyList(rank, done + [current], ready', indegree')
      invariant forall id :: id in done + [current] ==> id in rank && indegree'[id] == 0
    {
      StillWaiting(plan, rank, done, current, dependents, k, indegree');
      assert dependents[..k + 1] == dependents[..k] + [dependents[k]];
      ready', indegree' := ReleaseOne(plan, rank, done, current, dependents[..k], dependents[k], ready', indegree');
    }
    assert dependents[..|dependents|] == dependents;
    AllReleased(plan, rank, done, current, dependents, ready', indegree');
  }

  lemma HeadIsLeast(plan: Plan, rank: map<string, nat>, done: seq<string>, ready: seq<string>,
    indegree: map<string, int>)
    requires LoopState(plan, rank, done, ready, indegree) && ready != []
    ensures LeastAvailable(plan, done, ready[0])
  {
    forall id ensures id in ready <==> Available(plan, done, id) {
      if Declares(plan, id) { MissingZero(Dependencies(plan, id), done); }
    }
    assert ready[0] in ready;
    forall id | Available(plan, done, id) ensures Rank(plan, ready[0]) <= Rank(plan, id) {
      var i :| 0 <= i < |ready| && ready[i] == id;
      assert rank[ready[0]] <= rank[ready[i]];
    }
  }

  lemma NothingReady(plan: Plan, rank: map<string, nat>, done: seq<string>, indegree: map<string, int>)
    requires LoopState(plan, rank, done, [], indegree)
    ensures forall id :: !Available(plan, done, id)
  {
    forall id | Declares(plan, id) {
      MissingZero(Dependencies(plan, id), done);
    }
  }

  /** The comprehension over `indegree.items()`, which lists tasks in declaration order. */
  method InitiallyReady(plan: Plan, rank: map<string, nat>, indegree: map<string, int>) returns (ready: seq<string>)
    requires UniqueIds(plan)
    requires forall id :: id in rank <==> Declares(plan, id)
    requires forall id :: id in rank ==> rank[id] == Rank(plan, id)
    requires indegree.Keys == rank.Keys
    requires forall id :: id in rank ==> indegree[id] == |Dependencies(plan, id)|
    ensures LoopState(plan, rank, [], ready, indegree)
  {
    var free: seq<string> := [];
    for i := 0 to |plan|
      invariant Distinct(free)
      invariant forall id :: id in free ==> id in rank
      invariant forall id :: id in free <==> id in rank && rank[id] < i && indegree[id] == 0
    {
      RankIsIndex(plan, i);
      forall id | id in rank && rank[id] == i ensures id == plan[i].id {
      }
      if indegree[plan[i].id] == 0 {
        free := free + [plan[i].id];
      }
    }
    ready := SortByRank(free, rank);
    DistinctByMultiset(free, ready);
    forall id ensures id in ready <==> id in rank && indegree[id] == 0 {
      assert id in ready <==> id in multiset(ready);
      assert id in free <==> id in multiset(free);
    }
    forall id | id in rank ensures indegree[id] == Missing(Dependencies(plan, id), []) {
      MissingNone(Dependencies(plan, id));
    }
  }

  lemma GreedyStep(plan: Plan, done: seq<string>, id: string)
    requires IsGreedy(plan, done) && LeastAvailable(plan, done, id)
    ensures IsGreedy(plan, done + [id])
  {
    forall k | 0 <= k < |done + [id]| ensures LeastAvailable(plan, (done + [id])[..k], (done + [id])[k]) {
      assert (done + [id])[..k] == done[..k];
      assert done[..|done|] == done;
    }
  }

  ghost function Ids(plan: Plan): seq<string> {
    seq(|plan|, i requires 0 <= i < |plan| => plan[i].id)
  }

  lemma IdsSize(plan: Plan)
    requires UniqueIds(plan)
    ensures |Elements(Ids(plan))| == |plan|
    ensures forall id :: id in Elements(Ids(plan)) <==> Declares(plan, id)
  {
    var ids := Ids(plan);
    assert forall i :: 0 <= i < |plan| ==> ids[i] == plan[i].id;
    DistinctSize(ids);
  }

  lemma GreedyIsDistinct(plan: Plan, done: seq<string>)
    requires IsGreedy(plan, done)
    ensures Distinct(done)
    ensures forall id :: id in done ==> Declares(plan, id)
  {
    forall i, j | 0 <= i < j < |done| ensures done[i] != done[j] {
      assert LeastAvailable(plan, done[..j], done[j]);
      assert done[i] == done[..j][i];
    }
    forall k | 0 <= k < |done| ensures Declares(plan, done[k]) {
      assert LeastAvailable(plan, done[..k], done[k]);
    }
  }

  /** A greedy order repeats nothing, and misses a task exactly while it is too short. */
  lemma GreedyIsShort(plan: Plan, done: seq<string>)
    requires UniqueIds(plan) && IsGreedy(plan, done)
    ensures |done| <= |plan|
    ensures |done| == |plan| <==> forall id :: Declares(plan, id) ==> id in done
  {
    GreedyIsDistinct(plan, done);
    DistinctSize(done);
    IdsSize(plan);
    var declared := Elements(Ids(plan));
    assert Elements(done) <= declared;
    SubsetSize(Elements(done), declared);
    assert Elements(done) == declared <==> forall id :: id in declared ==> id in done;
  }

  /** Popping the head of the ready list is a greedy step. */
  lemma TakeHead(plan: Plan, rank: map<string, nat>, done: seq<string>, ready: seq<string>, indegree: map<string, int>)
    requires UniqueIds(plan) && IsGreedy(plan, done)
    requires LoopState(plan, rank, done, ready, indegree) && ready != []
    ensures ready[0] in rank
    ensures IsGreedy(plan, done + [ready[0]]) && |done + [ready[0]]| <= |plan|
    ensures LoopState(plan, rank, done, [ready[0]] + ready[1..], indegree)
  {
    HeadIsLeast(plan, rank, done, ready, indegree);
    GreedyStep(plan, done, ready[0]);
    GreedyIsShort(plan, done + [ready[0]]);
    assert ready == [ready[0]] + ready[1..];
  }

  lemma ReleasedCounts(plan: Plan, rank: map<string, nat>, current: string)
    requires UniqueIds(plan) && forall id :: id in rank <==> Declares(plan, id)
    ensures forall x :: x in Dependents(plan, |plan|, current) ==> x in rank
    ensures forall id :: id in rank ==>
      Count(Dependents(plan, |plan|, current), id) == Count(Dependencies(plan, id), current)
  {
    forall id | id in rank
      ensures Count(Dependents(plan, |plan|, current), id) == Count(Dependencies(plan, id), current)
    {
      DependentsCount(plan, |plan|, current, id);
    }
    if |plan| > 0 {
      DependentsCount(plan, |plan|, current, plan[0].id);
    }
  }

  lemma SortKeepsCounts(s: seq<string>, rank: map<string, nat>)
    requires forall x :: x in s ==> x in rank
    ensures forall id :: Count(SortByRank(s, rank), id) == Count(s, id)
  {
    forall id ensures Count(SortByRank(s, rank), id) == Count(s, id) {
      CountIsMultiplicity(SortByRank(s, rank), id);
      CountIsMultiplicity(s, id);
    }
  }

  // ----- A stuck loop shows a cycle -----

  /** A dependency that a task still waits for when nothing is available any more. */
  ghost function Unmet(plan: Plan, done: seq<string>, id: string): (d: string)
    requires Declares(plan, id) && id !in done && !Available(plan, done, id)
    ensures d in Dependencies(plan, id) && d !in done
  {
    var d :| d in Dependencies(plan, id) && d !in done;
    d
  }

  /** A path of unmet dependencies. */
  ghost predicate IsWalk(plan: Plan, done: seq<string>, w: seq<string>) {
    && (forall k :: 0 <= k < |w| ==> Declares(plan, w[k]) && w[k] !in done)
    && (forall k :: 0 <= k < |w| - 1 ==> w[k + 1] in Dependencies(plan, w[k]))
  }

  lemma ExtendWalk(plan: Plan, done: seq<string>, w: seq<string>, next: string)
    requires IsWalk(plan, done, w) && w != []
    requires next !in done && Declares(plan, next) && next in Dependencies(plan, w[|w| - 1])
    ensures IsWalk(plan, done, w + [next])
  {
    var longer := w + [next];
    assert forall k :: 0 <= k < |w| ==> longer[k] == w[k];
  }

  lemma {:induction false} Wander(plan: Plan, done: seq<string>, from: string, n: nat) returns (w: seq<string>)
    requires KnownDependencies(plan) && forall id :: !Available(plan, done, id)
    requires Declares(plan, from) && from !in done
    ensures |w| == n + 1 && IsWalk(plan, done, w)
  {
    if n == 0 {
      return [from];
    }
    w := Wander(plan, done, from, n - 1);
    var next := Unmet(plan, done, w[|w| - 1]);
    ExtendWalk(plan, done, w, next);
    w := w + [next];
  }

  lemma LoopIsCycle(plan: Plan, done: seq<string>, w: seq<string>, i: nat, j: nat)
    requires IsWalk(plan, done, w) && i < j < |w| && w[i] == w[j]
    ensures IsCycle(plan, w[i..j])
  {
    var c := w[i..j];
    assert forall k :: 0 <= k < |c| ==> c[k] == w[i + k];
    forall k | 0 <= k < |c| - 1 ensures c[k + 1] in Dependencies(plan, c[k]) {
      assert w[(i + k) + 1] in Dependencies(plan, w[i + k]);
    }
    assert w[(j - 1) + 1] in Dependencies(plan, w[j - 1]);
  }

  lemma WalkRepeats(plan: Plan, done: seq<string>, w: seq<string>)
    requires UniqueIds(plan) && IsWalk(plan, done, w) && |w| > |plan|
    ensures exists c :: IsCycle(plan, c)
  {
    IdsSize(plan);
    assert Elements(w) <= Elements(Ids(plan));
    SubsetSize(Elements(w), Elements(Ids(plan)));
    assert !Distinct(w) by {
      if Distinct(w) { DistinctSize(w); }
    }
    var i, j :| 0 <= i < j < |w| && w[i] == w[j];
    LoopIsCycle(plan, done, w, i, j);
  }

  lemma StuckMeansCycle(plan: Plan, done: seq<string>)
    requires UniqueIds(plan) && KnownDependencies(plan)
    requires IsGreedy(plan, done) && |done| < |plan|
    requires forall id :: !Available(plan, done, id)
    ensures exists c :: IsCycle(plan, c)
  {
    GreedyIsShort(plan, done);
    var from :| Declares(plan, from) && from !in done;
    var w := Wander(plan, done, from, |plan|);
    WalkRepeats(plan, done, w);
  }

  // ----- What the greedy order is -----

  /** No dependency order runs around a cycle: each step of the cycle goes strictly earlier. */
  lemma {:induction false} PositionsFall(plan: Plan, order: seq<string>, c: seq<string>, i: nat, at: nat)
    requires IsTopological(plan, order) && IsCycle(plan, c) && i < |c|
    requires at < |order| && order[at] == c[i]
    ensures exists first: nat :: first + |c| - i <= at && order[first] == c[0]
    decreases |c| - i
  {
    assert Available(plan, order[..at], order[at]);
    var next := if i == |c| - 1 then c[0] else c[i + 1];
    assert next in order[..at];
    var before: nat :| before < at && order[before] == next;
    if i < |c| - 1 {
      PositionsFall(plan, order, c, i + 1, before);
    }
  }

  lemma {:induction false} NeverComes(plan: Plan, order: seq<string>, c: seq<string>, n: nat)
    requires IsTopological(plan, order) && IsCycle(plan, c) && n <= |order|
    ensures forall at :: 0 <= at < n ==> order[at] != c[0]
  {
    if n > 0 {
      NeverComes(plan, order, c, n - 1);
      if order[n - 1] == c[0] {
        PositionsFall(plan, order, c, 0, n - 1);
      }
    }
  }

  lemma {:induction false} TopologicalIsDistinct(plan: Plan, order: seq<string>)
    requires UniqueIds(plan) && IsTopological(plan, order)
    ensures Distinct(order)
    ensures forall id :: id in order <==> Declares(plan, id)
  {
    forall i, j | 0 <= i < j < |order| ensures order[i] != order[j] {
      assert Available(plan, order[..j], order[j]);
      assert order[i] == order[..j][i];
    }
    forall k | 0 <= k < |order| ensures Declares(plan, order[k]) {
      assert Available(plan, order[..k], order[k]);
    }
    DistinctSize(order);
    IdsSize(plan);
    SubsetSize(Elements(order), Elements(Ids(plan)));
    assert forall id :: id in Elements(order) <==> id in order;
  }

  /** The plan has a dependency order or a cycle, never both. */
  lemma CycleExcludesOrder(plan: Plan, order: seq<string>, c: seq<string>)
    requires UniqueIds(plan) && IsTopological(plan, order)
    ensures !IsCycle(plan, c)
  {
    if IsCycle(plan, c) {
      TopologicalIsDistinct(plan, order);
      NeverComes(plan, order, c, |order|);
    }
  }

  // ----- The whole loop -----

  /**
    `topological_order`.  `current = ready.pop(0)` takes the least available task; the loop
    ends when nothing is available, and a short result means a cycle.
   */
  method TopologicalOrder(plan: Plan) returns (outcome: Outcome)
    requires UniqueIds(plan)
    ensures outcome.UnknownDependency? <==> !KnownDependencies(plan)
    ensures outcome.UnknownDependency? ==> !Declares(plan, outcome.id)
    ensures outcome.Ordered? ==> IsGreedy(plan, outcome.ids) && IsTopological(plan, outcome.ids)
    ensures KnownDependencies(plan) ==> (outcome.CyclicPlan? <==> exists c :: IsCycle(plan, c))
  {
    var rank, indegree := IndexTables(plan);
    var dependents, unknown := DependentsTable(plan, rank);
    if unknown.UnknownDependency? {
      return unknown;
    }
    var ready := InitiallyReady(plan, rank, indegree);
    var result: seq<string> := [];
    while ready != []
      invariant LoopState(plan, rank, result, ready, indegree)
      invariant IsGreedy(plan, result) && |result| <= |plan|
      decreases |plan| - |result|
    {
      var current := ready[0];
      TakeHead(plan, rank, result, ready, indegree);
      ReleasedCounts(plan, rank, current);
      SortKeepsCounts(dependents[current], rank);
      ready, indegree := Release(plan, rank, result, current, SortByRank(dependents[current], rank), ready[1..],
        indegree);
      result := result + [current];
    }
    NothingReady(plan, rank, result, indegree);
    GreedyIsShort(plan, result);
    if |result| != |plan| {
      StuckMeansCycle(plan, result);
      return CyclicPlan;
    }
    forall c ensures !IsCycle(plan, c) {
      CycleExcludesOrder(plan, result, c);
    }
    return Ordered(result);
  }

  /** `order` comes before `other` at their first difference, by declaration rank. */
  ghost predicate RankedBefore(plan: Plan, order: seq<string>, other: seq<string>) {
    exists k :: 0 <= k < |order| && k < |other| && order[..k] == other[..k]
      && Declares(plan, order[k]) && Declares(plan, other[k]) && Rank(plan, order[k]) < Rank(plan, other[k])
  }

  lemma {:induction false} FirstDifference(a: seq<string>, b: seq<string>) returns (k: nat)
    requires |a| == |b| && a != b
    ensures k < |a| && a[..k] == b[..k] && a[k] != b[k]
  {
    k := 0;
    while a[k] == b[k]
      invariant k < |a| && a[..k] == b[..k]
      invariant exists j :: k <= j < |a| && a[j] != b[j]
      decreases |a| - k
    {
      k := k + 1;
    }
  }

  /** The returned order is the lexicographically least of all dependency orders. */
  lemma GreedyIsLeast(plan: Plan, order: seq<string>, other: seq<string>)
    requires UniqueIds(plan)
    requires IsGreedy(plan, order) && IsTopological(plan, order) && IsTopological(plan, other)
    ensures order == other || RankedBefore(plan, order, other)
  {
    if order != other {
      var k := FirstDifference(order, other);
      assert LeastAvailable(plan, order[..k], order[k]);
      assert Available(plan, other[..k], other[k]);
      assert Rank(plan, order[k]) != Rank(plan, other[k]);
    }
  }

  lemma NextInDeclarationOrder(plan: Plan, before: seq<string>, id: string)
    requires UniqueIds(plan) && |before| < |plan|
    requires forall r :: 0 <= r < |before| ==> before[r] == plan[r].id
    requires LeastAvailable(plan, before, id) && Available(plan, before, plan[|before|].id)
    ensures id == plan[|before|].id
  {
    RankIsIndex(plan, |before|);
    assert forall r :: 0 <= r < |before| ==> plan[r].id == before[r] != id;
  }

  lemma {:induction false} SamePrefix(plan: Plan, order: seq<string>, k: nat)
    requires UniqueIds(plan) && k <= |plan|
    requires IsGreedy(plan, order) && |order| == |plan| && IsTopological(plan, Ids(plan))
    ensures order[..k] == Ids(plan)[..k]
  {
    if k > 0 {
      SamePrefix(plan, order, k - 1);
      assert LeastAvailable(plan, order[..k - 1], order[k - 1]);
      assert Available(plan, Ids(plan)[..k - 1], Ids(plan)[k - 1]);
      NextInDeclarationOrder(plan, Ids(plan)[..k - 1], order[k - 1]);
    }
  }

  /** A declaration order that already respects the dependencies is returned unchanged. */
  lemma DeclarationOrderKept(plan: Plan, order: seq<string>)
    requires UniqueIds(plan)
    requires IsGreedy(plan, order) && IsTopological(plan, order)
    requires IsTopological(plan, Ids(plan))
    ensures order == Ids(plan)
  {
    SamePrefix(plan, order, |plan|);
    assert order[..|plan|] == order && Ids(plan)[..|plan|] == Ids(plan);
  }
}
