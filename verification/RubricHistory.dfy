/** The writers of the rubric history, one locked call at a time, and every run of them. */
module RubricHistory {
  import opened Wrappers
  import opened Rubrics

  datatype RubricError =
    | NotVersionOne | InvalidVersion | Unreadable
    | Immutable | RuntimeWritesFirst | MustAdvanceByOne | NoOutcomeEvidence
    | NotAuthorised | NoSuchRecord | NotAStray

  /** The record that carries version `v` of a department. */
  ghost function RecordOf(records: Records, d: Department, v: nat): (id: nat)
    requires v in Versions(records, d)
    ensures IsFirst(records, d, id) && VersionOf(records, id) == v
  {
    FirstOfVersion(records, d, v);
    var id: nat :| IsFirst(records, d, id) && VersionOf(records, id) == v;
    id
  }

  ghost function ReferenceOf(records: Records, d: Department, v: nat): Reference
    requires v in Versions(records, d)
  {
    Reference(RecordOf(records, d, v), records[RecordOf(records, d, v)].content.rubric)
  }

  function Appended(records: Records, rubric: Rubric): Records {
    records + [Stored(Some(rubric.department), true, ARubric(rubric))]
  }

  /** `store_department_rubric`; `outcome` says whether the evidence is of an outcome. */
  ghost function StoreRubric(records: Records, rubric: Rubric,
    outcome: bool): (Records, Result<Reference, RubricError>) {
    var d, v := rubric.department, rubric.version;
    if v < 1 then (records, Err(InvalidVersion))
    else if !Readable(records, d) then (records, Err(Unreadable))
    else if v in Versions(records, d) then
      (records, if ReferenceOf(records, d, v).rubric != rubric then Err(Immutable) else Ok(ReferenceOf(records, d, v)))
    else if Versions(records, d) == {} then (records, Err(RuntimeWritesFirst))
    else if v != Gap(records, d) then (records, Err(MustAdvanceByOne))
    else if !outcome then (records, Err(NoOutcomeEvidence))
    else (Appended(records, rubric), Ok(Reference(|records|, rubric)))
  }

  /** `write_runtime_rubric` */
  ghost function WriteRuntime(records: Records, rubric: Rubric): (Records, Result<Reference, RubricError>) {
    var d := rubric.department;
    if rubric.version != 1 then (records, Err(NotVersionOne))
    else if !Readable(records, d) then (records, Err(Unreadable))
    else if Gap(records, d) > 1 then (records, Ok(ReferenceOf(records, d, Gap(records, d) - 1)))
    else (Appended(records, rubric), Ok(Reference(|records|, rubric)))
  }

  /** `supersede_rubric_record`; `authorised` is the ticket and thread of the on-call. */
  ghost function Supersede(records: Records, id: nat, authorised: bool): (Records, Result<nat, RubricError>) {
    if !authorised then (records, Err(NotAuthorised))
    else if id >= |records| || records[id].scope.None? then (records, Err(NoSuchRecord))
    else if !IsStray(records, records[id].scope.value, id) then (records, Err(NotAStray))
    else (Superseded(records, id), Ok(id))
  }

  datatype Step =
    | Propose(rubric: Rubric, outcome: bool)
    | RuntimeWrite(rubric: Rubric)
    | Repair(id: nat, authorised: bool)
    | OtherRecord(statement: string)  // any record outside the reserved scopes

  ghost function Next(records: Records, step: Step): Records {
    match step
    case Propose(rubric, outcome) => StoreRubric(records, rubric, outcome).0
    case RuntimeWrite(rubric) => WriteRuntime(records, rubric).0
    case Repair(id, authorised) => Supersede(records, id, authorised).0
    case OtherRecord(statement) => records + [Stored(None, true, SomethingElse(statement))]
  }

  ghost function Run(records: Records, steps: seq<Step>): Records {
    if steps == [] then records else Next(Run(records, steps[..|steps| - 1]), steps[|steps| - 1])
  }

  ghost predicate AllReadable(records: Records) {
    forall d :: Readable(records, d)
  }

  // ----- One write -----

  /** Nothing but the appended record counts anew. */
  lemma AppendCounts(records: Records, r: Stored, d: Department)
    ensures forall id: nat :: id < |records| ==> (IsRubric(records + [r], d, id) <==> IsRubric(records, d, id))
    ensures forall id: nat :: id < |records| ==> (Counts(records + [r], d, id) <==> Counts(records, d, id))
    ensures r.scope != Some(d) ==> !Counts(records + [r], d, |records|)
  {
  }

  lemma SameVersions(records: Records, after: Records, d: Department)
    requires |records| <= |after|
    requires forall id: nat :: IsRubric(after, d, id) <==> IsRubric(records, d, id)
    requires forall id: nat :: id < |records| ==> after[id].content == records[id].content
    ensures Versions(after, d) == Versions(records, d)
  {
    forall v | v in Versions(after, d) ensures v in Versions(records, d) {
      var id: nat :| id < |after| && IsRubric(after, d, id) && VersionOf(after, id) == v;
      VersionKnown(records, d, id);
    }
    forall v | v in Versions(records, d) ensures v in Versions(after, d) {
      var id: nat :| id < |records| && IsRubric(records, d, id) && VersionOf(records, id) == v;
      VersionKnown(after, d, id);
    }
  }

  lemma AppendElsewhere(records: Records, r: Stored, d: Department)
    requires Readable(records, d) && r.scope != Some(d)
    ensures Readable(records + [r], d) && Versions(records + [r], d) == Versions(records, d)
  {
    AppendCounts(records, r, d);
    SameVersions(records, records + [r], d);
  }

  /** A rubric of the next version extends the history by one. */
  lemma AppendNext(records: Records, rubric: Rubric)
    requires Readable(records, rubric.department) && rubric.version == Gap(records, rubric.department)
    ensures Versions(Appended(records, rubric), rubric.department) ==
      Versions(records, rubric.department) + {rubric.version}
    ensures Readable(Appended(records, rubric), rubric.department)
  {
    var d, after := rubric.department, Appended(records, rubric);
    AppendCounts(records, Stored(Some(d), true, ARubric(rubric)), d);
    forall v ensures v in Versions(after, d) <==> v in Versions(records, d) || v == rubric.version {
      if v in Versions(after, d) {
        var id: nat :| id < |after| && IsRubric(after, d, id) && VersionOf(after, id) == v;
        if id < |records| { VersionKnown(records, d, id); }
      }
      if v in Versions(records, d) {
        var id: nat :| id < |records| && IsRubric(records, d, id) && VersionOf(records, id) == v;
        VersionKnown(after, d, id);
      }
      VersionKnown(after, d, |records|);
    }
    forall i: nat, j: nat | i < j && IsRubric(after, d, i) && IsRubric(after, d, j)
      ensures VersionOf(after, i) != VersionOf(after, j)
    {
      VersionKnown(records, d, i);
    }
    forall v: nat, w: nat | v in Versions(after, d) && 1 <= w < v ensures w in Versions(after, d) {
    }
  }

  /** Every version that was there is still there, in the same record, saying the same. */
  ghost predicate KeepsHistory(before: Records, after: Records, d: Department) {
    forall v :: v in Versions(before, d) ==>
      v in Versions(after, d) && ReferenceOf(after, d, v) == ReferenceOf(before, d, v)
  }

  lemma KeptByReadable(before: Records, after: Records, d: Department)
    requires Readable(after, d) && |before| <= |after|
    requires forall id: nat :: IsRubric(before, d, id) ==>
      IsRubric(after, d, id) && after[id].content == before[id].content
    ensures KeepsHistory(before, after, d)
  {
    forall v | v in Versions(before, d)
      ensures v in Versions(after, d) && ReferenceOf(after, d, v) == ReferenceOf(before, d, v)
    {
      var id := RecordOf(before, d, v);
      VersionKnown(after, d, id);
      var id' := RecordOf(after, d, v);
      assert id' == id;
    }
  }

  lemma AppendKeeps(records: Records, rubric: Rubric)
    requires AllReadable(records) && rubric.version == Gap(records, rubric.department)
    ensures AllReadable(Appended(records, rubric)) && forall d :: KeepsHistory(records, Appended(records, rubric), d)
  {
    var r := Stored(Some(rubric.department), true, ARubric(rubric));
    forall d ensures Readable(records + [r], d) && KeepsHistory(records, records + [r], d) {
      assert Readable(records, d);
      AppendNext(records, rubric);
      if d != rubric.department {
        AppendElsewhere(records, r, d);
      }
      AppendCounts(records, r, d);
      KeptByReadable(records, records + [r], d);
    }
  }

  lemma OtherKeeps(records: Records, r: Stored)
    requires AllReadable(records) && r.scope == None
    ensures AllReadable(records + [r]) && forall d :: KeepsHistory(records, records + [r], d)
  {
    forall d ensures Readable(records + [r], d) && KeepsHistory(records, records + [r], d) {
      assert Readable(records, d);
      AppendElsewhere(records, r, d);
      AppendCounts(records, r, d);
      KeptByReadable(records, records + [r], d);
    }
  }

  lemma NothingToRepair(records: Records, id: nat, authorised: bool)
    requires AllReadable(records)
    ensures Supersede(records, id, authorised).0 == records
  {
    if id < |records| && records[id].scope.Some? {
      ReadableExactlyWithoutStrays(records, records[id].scope.value);
      assert Readable(records, records[id].scope.value);
      assert id !in Strays(records, records[id].scope.value);
    }
  }

  /** An empty history is missing version 1 first. */
  lemma EmptyHistory(records: Records, d: Department)
    requires Readable(records, d)
    ensures Versions(records, d) == {} <==> Gap(records, d) == 1
    ensures forall v :: v in Versions(records, d) <==> 1 <= v < Gap(records, d)
  {
    if v :| v in Versions(records, d) {
      assert v >= 1;
      assert 1 in Versions(records, d);
    }
  }

  lemma StepKeeps(records: Records, step: Step)
    requires AllReadable(records)
    ensures AllReadable(Next(records, step)) && forall d :: KeepsHistory(records, Next(records, step), d)
  {
    match step
    case Propose(rubric, outcome) =>
      if StoreRubric(records, rubric, outcome).0 != records {
        AppendKeeps(records, rubric);
      }
    case RuntimeWrite(rubric) =>
      if WriteRuntime(records, rubric).0 != records {
        AppendKeeps(records, rubric);
      }
    case Repair(id, authorised) => NothingToRepair(records, id, authorised);
    case OtherRecord(statement) => OtherKeeps(records, Stored(None, true, SomethingElse(statement)));
  }

  /**
    Under any interleaving of the writers, every department's versions stay exactly 1..n,
    no stored version changes, and n never shrinks.
   */
  lemma {:induction false} HistoryOnlyGrows(records: Records, steps: seq<Step>, d: Department)
    requires AllReadable(records)
    ensures AllReadable(Run(records, steps)) && KeepsHistory(records, Run(records, steps), d)
    ensures Gap(records, d) <= Gap(Run(records, steps), d)
    ensures forall v :: v in Versions(Run(records, steps), d) <==> 1 <= v < Gap(Run(records, steps), d)
  {
    if steps != [] {
      var n := |steps| - 1;
      HistoryOnlyGrows(records, steps[..n], d);
      StepKeeps(Run(records, steps[..n]), steps[n]);
      assert KeepsHistory(Run(records, steps[..n]), Run(records, steps), d);
    }
    assert Readable(records, d) && Readable(Run(records, steps), d);
    EmptyHistory(records, d);
    EmptyHistory(Run(records, steps), d);
    assert Gap(Run(records, steps), d) !in Versions(records, d);
  }

  // ----- From any history, broken or not -----

  /** Every record of the standing history stands on as it was, and its end does not move back. */
  ghost predicate StandsOn(before: Records, after: Records, d: Department) {
    && |before| <= |after| && Gap(before, d) <= Gap(after, d)
    && forall c: nat :: IsCanonical(before, d, c) ==> IsCanonical(after, d, c) && after[c] == before[c]
  }

  lemma StandsOnTwice(a: Records, b: Records, c: Records, d: Department)
    requires StandsOn(a, b, d) && StandsOn(b, c, d)
    ensures StandsOn(a, c, d)
  {
  }

  lemma MoreVersions(before: set<nat>, after: set<nat>)
    requires before <= after
    ensures FirstGap(before, 1) <= FirstGap(after, 1)
  {
    assert FirstGap(after, 1) !in before;
  }

  lemma AppendStandsOn(records: Records, r: Stored, d: Department)
    ensures StandsOn(records, records + [r], d)
  {
    var after := records + [r];
    AppendCounts(records, r, d);
    forall v | v in Versions(records, d) ensures v in Versions(after, d) {
      var id: nat :| id < |records| && IsRubric(records, d, id) && VersionOf(records, id) == v;
      VersionKnown(after, d, id);
    }
    MoreVersions(Versions(records, d), Versions(after, d));
    forall c: nat | IsCanonical(records, d, c) ensures IsCanonical(after, d, c) {
      forall j: nat | j < c ensures !HasVersion(after, d, j, VersionOf(after, c)) {
        assert !HasVersion(records, d, j, VersionOf(records, c));
      }
    }
  }

  lemma OtherDepartmentStands(records: Records, id: nat, d: Department)
    requires id < |records| && records[id].scope != Some(d)
    ensures StandsOn(records, Superseded(records, id), d)
  {
    var after := Superseded(records, id);
    OthersStay(records, d, id);
    SameVersions(records, after, d);
    forall c: nat | IsCanonical(records, d, c) ensures IsCanonical(after, d, c) {
      forall j: nat | j < c ensures !HasVersion(after, d, j, VersionOf(after, c)) {
        assert !HasVersion(records, d, j, VersionOf(records, c));
      }
    }
  }

  lemma RepairStandsOn(records: Records, id: nat, authorised: bool, d: Department)
    ensures StandsOn(records, Supersede(records, id, authorised).0, d)
  {
    if Supersede(records, id, authorised).1.Ok? {
      if records[id].scope == Some(d) {
        GapStays(records, d, id);
        SupersedeRemovesOne(records, d, id);
      } else {
        OtherDepartmentStands(records, id, d);
      }
    }
  }

  lemma StepStandsOn(records: Records, step: Step, d: Department)
    ensures StandsOn(records, Next(records, step), d)
  {
    match step
    case Propose(rubric, outcome) => AppendStandsOn(records, Stored(Some(rubric.department), true, ARubric(rubric)), d);
    case RuntimeWrite(rubric) => AppendStandsOn(records, Stored(Some(rubric.department), true, ARubric(rubric)), d);
    case Repair(id, authorised) => RepairStandsOn(records, id, authorised, d);
    case OtherRecord(statement) => AppendStandsOn(records, Stored(None, true, SomethingElse(statement)), d);
  }

  /**
    From any history, broken or not, and under any interleaving of the writers and the
    repair: no record of the standing history is changed or displaced, and the history
    never gets shorter.
   */
  lemma {:induction false} StandingHistoryStays(records: Records, steps: seq<Step>, d: Department)
    ensures StandsOn(records, Run(records, steps), d)
  {
    if steps != [] {
      var n := |steps| - 1;
      StandingHistoryStays(records, steps[..n], d);
      StepStandsOn(Run(records, steps[..n]), steps[n], d);
      StandsOnTwice(records, Run(records, steps[..n]), Run(records, steps), d);
    }
  }

  // ----- Repeated writes -----

  lemma StoredReference(records: Records, rubric: Rubric, outcome: bool)
    requires StoreRubric(records, rubric, outcome).1.Ok?
    ensures var (after, reply) := StoreRubric(records, rubric, outcome);
      rubric.version in Versions(after, rubric.department)
      && ReferenceOf(after, rubric.department, rubric.version) == reply.value && reply.value.rubric == rubric
  {
    if rubric.version !in Versions(records, rubric.department) {
      AppendNext(records, rubric);
      AppendCounts(records, Stored(Some(rubric.department), true, ARubric(rubric)), rubric.department);
      var id := RecordOf(Appended(records, rubric), rubric.department, rubric.version);
      if id < |records| { VersionKnown(records, rubric.department, id); }
    }
  }

  /** Repeating a write, however much later, gives the same reference and writes nothing. */
  lemma RepeatedStore(records: Records, rubric: Rubric, outcome: bool, steps: seq<Step>, again: bool)
    requires AllReadable(records) && StoreRubric(records, rubric, outcome).1.Ok?
    ensures var later := Run(StoreRubric(records, rubric, outcome).0, steps);
      StoreRubric(later, rubric, again) == (later, StoreRubric(records, rubric, outcome).1)
  {
    var after := StoreRubric(records, rubric, outcome).0;
    StoredReference(records, rubric, outcome);
    StepKeeps(records, Propose(rubric, outcome));
    HistoryOnlyGrows(after, steps, rubric.department);
    assert Readable(Run(after, steps), rubric.department);
  }

  /** The reference that a first call gives is the current version's, too. */
  lemma CurrentReference(records: Records, rubric: Rubric)
    requires AllReadable(records) && WriteRuntime(records, rubric).1.Ok?
    ensures var (after, first) := WriteRuntime(records, rubric); var d := rubric.department;
      Gap(after, d) > 1 && Gap(after, d) - 1 in Versions(after, d)
        && first == Ok(ReferenceOf(after, d, Gap(after, d) - 1))
  {
    var after, d := WriteRuntime(records, rubric).0, rubric.department;
    StepKeeps(records, RuntimeWrite(rubric));
    assert Readable(records, d) && Readable(after, d);
    EmptyHistory(records, d);
    if after != records {
      AppendNext(records, rubric);
      AppendCounts(records, Stored(Some(d), true, ARubric(rubric)), d);
    }
    EmptyHistory(after, d);
  }

  /**
    The runtime's write is repeated without effect.  The reference is always the current
    version's, so a later call gives the first one's exactly if no version came in between.
   */
  lemma RepeatedRuntimeWrite(records: Records, rubric: Rubric, steps: seq<Step>)
    requires AllReadable(records) && WriteRuntime(records, rubric).1.Ok?
    ensures var (after, first) := WriteRuntime(records, rubric); var later := Run(after, steps);
      var d := rubric.department;
      && WriteRuntime(after, rubric) == (after, first)
      && Gap(later, d) > 1 && Gap(later, d) - 1 in Versions(later, d)
      && WriteRuntime(later, rubric) == (later, Ok(ReferenceOf(later, d, Gap(later, d) - 1)))
      && (WriteRuntime(later, rubric).1 == first <==> Gap(later, d) == Gap(after, d))
  {
    var after, d := WriteRuntime(records, rubric).0, rubric.department;
    CurrentReference(records, rubric);
    StepKeeps(records, RuntimeWrite(rubric));
    HistoryOnlyGrows(after, steps, d);
    assert Readable(after, d) && Readable(Run(after, steps), d);
    EmptyHistory(after, d);
  }

  lemma GapIs(records: Records, d: Department, n: nat)
    requires Readable(records, d) && forall v: nat :: v in Versions(records, d) <==> 1 <= v <= n
    ensures Gap(records, d) == n + 1
  {
    EmptyHistory(records, d);
    assert n + 1 !in Versions(records, d) && Gap(records, d) !in Versions(records, d);
  }

  /** The smallest case: version 1 is written, version 2 is stored, and the repeated write names version 2. */
  lemma LaterWriteNamesLaterVersion(d: Department, body: string, next: string)
    ensures var first := Rubric(d, 1, body); var second := Rubric(d, 2, next);
      var after := WriteRuntime([], first).0; var later := Run(after, [Propose(second, true)]);
      && AllReadable([]) && WriteRuntime([], first).1 == Ok(Reference(0, first))
      && WriteRuntime(later, first) == (later, Ok(Reference(1, second)))
  {
    var first, second := Rubric(d, 1, body), Rubric(d, 2, next);
    var after := WriteRuntime([], first).0;
    assert AllReadable([]) && Readable([], d) && Versions([], d) == {};
    EmptyHistory([], d);
    assert after == Appended([], first);
    AppendNext([], first);
    GapIs(after, d, 1);
    var later := Appended(after, second);
    var steps := [Propose(second, true)];
    assert steps[..0] == [] && Run(after, steps) == Next(after, steps[0]) == later;
    AppendNext(after, second);
    GapIs(later, d, 2);
    assert later[1].content == ARubric(second) && later[0].content == ARubric(first);
    assert RecordOf(later, d, 2) == 1;
  }
}
