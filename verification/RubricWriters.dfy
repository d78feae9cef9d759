/**
  Who may write a department's rubric history, said of the records themselves: when a call
  of each writer changes the memory, and who added or retired each record in any run.
 */
module RubricWriters {
  import opened Wrappers
  import opened Rubrics
  import opened RubricHistory

  /** The record is a verified record of the department and says version `v`. */
  predicate Says(records: Records, d: Department, id: nat, v: int) {
    && id < |records| && records[id].verified && records[id].scope == Some(d)
    && records[id].content.ARubric? && records[id].content.rubric.department == d
    && records[id].content.rubric.version == v
  }

  ghost predicate Holds(records: Records, d: Department, v: int) {
    exists id: nat :: Says(records, d, id, v)
  }

  /** The verified records of the department are one for each version 1..n, and no others. */
  ghost predicate IsHistory(records: Records, d: Department, n: nat) {
    && (forall id: nat :: id < |records| && records[id].verified && records[id].scope == Some(d) ==>
      exists v :: 1 <= v <= n && Says(records, d, id, v))
    && (forall v :: 1 <= v <= n ==> Holds(records, d, v))
    && (forall i: nat, j: nat, v :: Says(records, d, i, v) && Says(records, d, j, v) ==> i == j)
  }

  /** The first record of its version, with a record for every version before it. */
  ghost predicate Stands(records: Records, d: Department, id: nat) {
    exists v :: v >= 1 && Says(records, d, id, v)
      && (forall j: nat :: j < id ==> !Says(records, d, j, v))
      && forall w :: 1 <= w < v ==> Holds(records, d, w)
  }

  lemma VersionsMean(records: Records, d: Department, v: nat)
    ensures v in Versions(records, d) <==> v >= 1 && Holds(records, d, v)
  {
    if v in Versions(records, d) {
      var id: nat :| id < |records| && IsRubric(records, d, id) && VersionOf(records, id) == v;
      assert Says(records, d, id, v);
    }
    if v >= 1 && Holds(records, d, v) {
      var id: nat :| Says(records, d, id, v);
      VersionKnown(records, d, id);
    }
  }

  lemma ReadableIsHistory(records: Records, d: Department)
    requires Readable(records, d)
    ensures IsHistory(records, d, Gap(records, d) - 1)
  {
    EmptyHistory(records, d);
    var n := Gap(records, d) - 1;
    forall id: nat | id < |records| && records[id].verified && records[id].scope == Some(d)
      ensures exists v :: 1 <= v <= n && Says(records, d, id, v)
    {
      assert Counts(records, d, id);
      VersionKnown(records, d, id);
      assert Says(records, d, id, VersionOf(records, id));
    }
    forall v | 1 <= v <= n ensures Holds(records, d, v) {
      VersionsMean(records, d, v);
    }
    forall i: nat, j: nat, v | Says(records, d, i, v) && Says(records, d, j, v) ensures i == j {
      assert Counts(records, d, i) && Counts(records, d, j);
    }
  }

  lemma HistoryIsReadable(records: Records, d: Department, n: nat)
    requires IsHistory(records, d, n)
    ensures Readable(records, d) && Gap(records, d) == n + 1
  {
    forall id: nat | Counts(records, d, id) ensures IsRubric(records, d, id) && VersionOf(records, id) <= n {
      var v :| 1 <= v <= n && Says(records, d, id, v);
    }
    forall i: nat, j: nat | i < j && IsRubric(records, d, i) && IsRubric(records, d, j)
      ensures VersionOf(records, i) != VersionOf(records, j)
    {
      assert Says(records, d, i, VersionOf(records, i)) && Says(records, d, j, VersionOf(records, j));
    }
    forall v: nat ensures v in Versions(records, d) <==> 1 <= v <= n {
      VersionsMean(records, d, v);
      if v in Versions(records, d) {
        var id: nat :| id < |records| && IsRubric(records, d, id) && VersionOf(records, id) == v;
        assert Counts(records, d, id);
      }
    }
    GapIs(records, d, n);
  }

  /** A history reads exactly when the verified records are the versions 1..n, once each. */
  lemma ReadableExactly(records: Records, d: Department)
    ensures Readable(records, d) <==> exists n: nat :: IsHistory(records, d, n)
    ensures forall n: nat :: IsHistory(records, d, n) ==> Gap(records, d) == n + 1
  {
    if Readable(records, d) {
      ReadableIsHistory(records, d);
    }
    forall n: nat | IsHistory(records, d, n) ensures Readable(records, d) && Gap(records, d) == n + 1 {
      HistoryIsReadable(records, d, n);
    }
  }

  // ----- The three writers -----

  /** A proposal is stored exactly when it is the next version of a history that has one, with outcome evidence. */
  lemma StoresExactly(records: Records, rubric: Rubric, outcome: bool)
    ensures var (after, reply) := StoreRubric(records, rubric, outcome);
      && (after != records <==>
          rubric.version >= 2 && IsHistory(records, rubric.department, rubric.version - 1) && outcome)
      && (after != records ==>
          && after == records + [Stored(Some(rubric.department), true, ARubric(rubric))]
          && reply == Ok(Reference(|records|, rubric)))
  {
    var d := rubric.department;
    ReadableExactly(records, d);
    if Readable(records, d) {
      EmptyHistory(records, d);
      ReadableIsHistory(records, d);
    }
  }

  lemma ReferenceMeans(records: Records, d: Department, v: nat)
    requires v in Versions(records, d)
    ensures exists id: nat ::
      Says(records, d, id, v) && ReferenceOf(records, d, v) == Reference(id, records[id].content.rubric)
  {
    assert Says(records, d, RecordOf(records, d, v), v);
  }

  /** Why a proposal is refused. */
  lemma StoreRefusesExactly(records: Records, rubric: Rubric, outcome: bool, e: RubricError)
    ensures StoreRubric(records, rubric, outcome).1 == Err(e) <==>
      var d, v := rubric.department, rubric.version;
      match e
      case InvalidVersion => v < 1
      case Unreadable => v >= 1 && forall n: nat :: !IsHistory(records, d, n)
      case Immutable =>
        v >= 1 && (exists n: nat :: n >= v && IsHistory(records, d, n))
          && exists id: nat :: Says(records, d, id, v) && records[id].content.rubric != rubric
      case RuntimeWritesFirst => v >= 1 && IsHistory(records, d, 0)
      case MustAdvanceByOne => exists n: nat :: 1 <= n < v - 1 && IsHistory(records, d, n)
      case NoOutcomeEvidence => v >= 2 && IsHistory(records, d, v - 1) && !outcome
      case _ => false
  {
    var d, v := rubric.department, rubric.version;
    ReadableExactly(records, d);
    if Readable(records, d) {
      EmptyHistory(records, d);
      ReadableIsHistory(records, d);
      if v in Versions(records, d) {
        ReferenceMeans(records, d, v);
      }
    }
  }

  /** The runtime writes version 1 of an empty history and nothing else. */
  lemma RuntimeWritesExactly(records: Records, rubric: Rubric)
    ensures var (after, reply) := WriteRuntime(records, rubric);
      && (after != records <==> rubric.version == 1 && IsHistory(records, rubric.department, 0))
      && (after != records ==>
          && after == records + [Stored(Some(rubric.department), true, ARubric(rubric))]
          && reply == Ok(Reference(|records|, rubric)))
      && (reply == Err(NotVersionOne) <==> rubric.version != 1)
      && (reply.Err? && rubric.version == 1 ==> reply == Err(Unreadable))
      && (reply == Err(Unreadable) <==>
          rubric.version == 1 && forall n: nat :: !IsHistory(records, rubric.department, n))
  {
    var d := rubric.department;
    ReadableExactly(records, d);
    if Readable(records, d) {
      EmptyHistory(records, d);
      ReadableIsHistory(records, d);
    }
  }

  lemma CanonicalMeans(records: Records, d: Department, id: nat)
    ensures IsCanonical(records, d, id) <==> Stands(records, d, id)
  {
    if IsCanonical(records, d, id) {
      var v := VersionOf(records, id);
      assert Says(records, d, id, v);
      forall j: nat | j < id ensures !Says(records, d, j, v) {
        assert !HasVersion(records, d, j, v);
      }
      forall w | 1 <= w < v ensures Holds(records, d, w) {
        VersionsMean(records, d, w);
      }
    }
    if Stands(records, d, id) {
      var v :| v >= 1 && Says(records, d, id, v)
        && (forall j: nat :: j < id ==> !Says(records, d, j, v)) && forall w :: 1 <= w < v ==> Holds(records, d, w);
      forall j: nat | j < id ensures !HasVersion(records, d, j, v) {
        assert !Says(records, d, j, v);
      }
      VersionKnown(records, d, id);
      if Gap(records, d) <= v {
        VersionsMean(records, d, Gap(records, d));
      }
    }
  }

  /** A repair retires exactly the verified records of a rubric scope that do not stand, for the on-call alone. */
  lemma RetiresExactly(records: Records, id: nat, authorised: bool)
    ensures var (after, reply) := Supersede(records, id, authorised);
      && (after != records <==>
          && authorised && id < |records| && records[id].verified && records[id].scope.Some?
          && !Stands(records, records[id].scope.value, id))
      && (reply.Ok? <==> after != records) && (reply.Ok? ==> reply.value == id)
      && |after| == |records|
      && (forall j :: 0 <= j < |records| && (j != id || reply.Err?) ==> after[j] == records[j])
      && (reply.Ok? ==> after[id] == records[id].(verified := false))
  {
    if id < |records| && records[id].scope.Some? {
      CanonicalMeans(records, records[id].scope.value, id);
      if Supersede(records, id, authorised).1.Ok? {
        assert Superseded(records, id)[id] != records[id];
      }
    }
  }

  // ----- Runs -----

  /** The step wrote the rubric into the memory as it was, and was entitled to. */
  ghost predicate WroteRubric(records: Records, step: Step, rubric: Rubric) {
    if rubric.version == 1 then step == RuntimeWrite(rubric) && IsHistory(records, rubric.department, 0)
    else
      && step == Propose(rubric, true)
      && rubric.version >= 2 && IsHistory(records, rubric.department, rubric.version - 1)
  }

  /** What a step adds at the end, and that it changes no content. */
  lemma StepAdds(records: Records, step: Step, id: nat)
    requires id < |Next(records, step)|
    ensures |records| <= |Next(records, step)| <= |records| + 1
    ensures id < |records| ==>
      Next(records, step)[id].content == records[id].content && Next(records, step)[id].scope == records[id].scope
    ensures id == |records| && Next(records, step)[id].content.ARubric? ==>
      WroteRubric(records, step, Next(records, step)[id].content.rubric)
  {
    match step
    case Propose(rubric, outcome) => StoresExactly(records, rubric, outcome);
    case RuntimeWrite(rubric) => RuntimeWritesExactly(records, rubric);
    case Repair(i, authorised) => RetiresExactly(records, i, authorised);
    case OtherRecord(statement) =>
  }

  lemma RunNext(records: Records, steps: seq<Step>, n: nat)
    requires n < |steps|
    ensures Run(records, steps[..n + 1]) == Next(Run(records, steps[..n]), steps[n])
  {
    assert steps[..n + 1][..n] == steps[..n];
  }

  /**
    Every rubric that a run adds was written by the runtime as version 1 of an empty
    history, or proposed with outcome evidence as the next version of a history.
   */
  lemma {:induction false} EveryVersionHasItsWriter(records: Records, steps: seq<Step>, m: nat, id: nat)
    requires m <= |steps| && |records| <= id < |Run(records, steps[..m])|
    requires Run(records, steps[..m])[id].content.ARubric?
    ensures exists n ::
      0 <= n < m && id == |Run(records, steps[..n])| &&
      WroteRubric(Run(records, steps[..n]), steps[n], Run(records, steps[..m])[id].content.rubric)
  {
    if m > 0 {
      RunNext(records, steps, m - 1);
      StepAdds(Run(records, steps[..m - 1]), steps[m - 1], id);
      if id < |Run(records, steps[..m - 1])| {
        EveryVersionHasItsWriter(records, steps, m - 1, id);
      }
    }
  }

  /** The step was the on-call's repair of a record that did not stand. */
  ghost predicate Retired(records: Records, step: Step, id: nat) {
    && step == Repair(id, true) && id < |records| && records[id].scope.Some?
    && !Stands(records, records[id].scope.value, id)
  }

  lemma StepRetires(records: Records, step: Step, id: nat)
    requires id < |records| && records[id].verified
    ensures id < |Next(records, step)| && (!Next(records, step)[id].verified ==> Retired(records, step, id))
  {
    match step
    case Propose(rubric, outcome) => StoresExactly(records, rubric, outcome);
    case RuntimeWrite(rubric) => RuntimeWritesExactly(records, rubric);
    case Repair(i, authorised) => RetiresExactly(records, i, authorised);
    case OtherRecord(statement) =>
  }

  lemma StepKeepsSize(records: Records, step: Step)
    ensures |records| <= |Next(records, step)|
  {
    match step
    case Propose(rubric, outcome) => StoresExactly(records, rubric, outcome);
    case RuntimeWrite(rubric) => RuntimeWritesExactly(records, rubric);
    case Repair(i, authorised) => RetiresExactly(records, i, authorised);
    case OtherRecord(statement) =>
  }

  /** Every record that a run retires was retired by the on-call when it did not stand. */
  lemma {:induction false} EveryRetirementIsARepair(records: Records, steps: seq<Step>, n: nat, m: nat, id: nat)
    requires n <= m <= |steps|
    requires id < |Run(records, steps[..n])| && Run(records, steps[..n])[id].verified
    ensures id < |Run(records, steps[..m])|
    ensures !Run(records, steps[..m])[id].verified ==>
      exists k :: n <= k < m && Retired(Run(records, steps[..k]), steps[k], id)
  {
    if n < m {
      EveryRetirementIsARepair(records, steps, n, m - 1, id);
      RunNext(records, steps, m - 1);
      if Run(records, steps[..m - 1])[id].verified {
        StepRetires(Run(records, steps[..m - 1]), steps[m - 1], id);
      } else {
        StepKeepsSize(Run(records, steps[..m - 1]), steps[m - 1]);
      }
    }
  }
}
