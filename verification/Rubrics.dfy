/**
  The department rubric history in Project Memory (`department_acceptance.py`, and the
  repair step of `department_gate.py`): what reads as a history, which records are stray,
  and what writers and repairs do to it.

  Project Memory is a list of records in the order written; a record id is its position.
 */
module Rubrics {
  import opened Wrappers

  type Department = string

  /** A rubric with its content; its digest is taken to be injective, so it stands for itself. */
  datatype Rubric = Rubric(department: Department, version: nat, body: string)

  datatype Content = ARubric(rubric: Rubric) | SomethingElse(statement: string)

  /** A truth record: its scope (None outside the rubric scopes), whether it is verified, what it says. */
  datatype Stored = Stored(scope: Option<Department>, verified: bool, content: Content)

  type Records = seq<Stored>

  datatype Reference = Reference(id: nat, rubric: Rubric)

  // ----- Reading -----

  /** The record counts for the department: `_verified_rubric_records`. */
  predicate Counts(records: Records, d: Department, id: nat) {
    id < |records| && records[id].verified && records[id].scope == Some(d)
  }

  /** It is a rubric of the department; versions are positive. */
  predicate IsRubric(records: Records, d: Department, id: nat) {
    && Counts(records, d, id) && records[id].content.ARubric?
    && records[id].content.rubric.department == d && records[id].content.rubric.version >= 1
  }

  function VersionOf(records: Records, id: nat): nat
    requires id < |records| && records[id].content.ARubric?
  {
    records[id].content.rubric.version
  }

  predicate HasVersion(records: Records, d: Department, id: nat, v: nat) {
    IsRubric(records, d, id) && VersionOf(records, id) == v
  }

  function Versions(records: Records, d: Department): set<nat> {
    set id: nat | id < |records| && IsRubric(records, d, id) :: VersionOf(records, id)
  }

  /** The first version missing from `v` on: `while version in by_version: version += 1`. */
  function FirstGap(versions: set<nat>, v: nat): (gap: nat)
    ensures gap >= v && gap !in versions
    ensures forall w :: v <= w < gap ==> w in versions
    decreases |set w | w in versions && w >= v|
  {
    if v !in versions then v
    else
      assert (set w | w in versions && w >= v) == (set w | w in versions && w >= v + 1) + {v};
      FirstGap(versions, v + 1)
  }

  function Gap(records: Records, d: Department): nat {
    FirstGap(Versions(records, d), 1)
  }

  /** The first record of a version. */
  ghost predicate IsFirst(records: Records, d: Department, id: nat) {
    && IsRubric(records, d, id)
    && forall j: nat :: j < id ==> !HasVersion(records, d, j, VersionOf(records, id))
  }

  /** The history that stands: the first record of each version up to the first one missing. */
  ghost predicate IsCanonical(records: Records, d: Department, id: nat) {
    IsFirst(records, d, id) && VersionOf(records, id) < Gap(records, d)
  }

  ghost predicate IsStray(records: Records, d: Department, id: nat) {
    Counts(records, d, id) && !IsCanonical(records, d, id)
  }

  ghost function Strays(records: Records, d: Department): set<nat> {
    set id: nat | id < |records| && IsStray(records, d, id)
  }

  /** What `stored_rubric_versions` demands: rubrics of the department only, versions exactly 1..n. */
  ghost predicate Readable(records: Records, d: Department) {
    && (forall id: nat :: Counts(records, d, id) ==> IsRubric(records, d, id))
    && (forall i: nat, j: nat :: i < j && IsRubric(records, d, i) && IsRubric(records, d, j) ==>
      VersionOf(records, i) != VersionOf(records, j))
    && (forall v: nat, w: nat :: v in Versions(records, d) && 1 <= w < v ==> w in Versions(records, d))
  }

  lemma VersionKnown(records: Records, d: Department, id: nat)
    requires IsRubric(records, d, id)
    ensures VersionOf(records, id) in Versions(records, d)
  {
  }

  /** The history reads clean exactly when nothing is stray. */
  lemma ReadableExactlyWithoutStrays(records: Records, d: Department)
    ensures Readable(records, d) <==> Strays(records, d) == {}
  {
    if Readable(records, d) {
      forall id: nat | Counts(records, d, id) ensures IsCanonical(records, d, id) {
        VersionKnown(records, d, id);
      }
    }
    if Strays(records, d) == {} {
      forall id: nat | Counts(records, d, id) ensures IsCanonical(records, d, id) {
        assert id !in Strays(records, d);
      }
      forall i: nat, j: nat | i < j && IsRubric(records, d, i) && IsRubric(records, d, j)
        ensures VersionOf(records, i) != VersionOf(records, j)
      {
        assert IsFirst(records, d, j) && !HasVersion(records, d, i, VersionOf(records, j));
      }
      forall v: nat | v in Versions(records, d) ensures v < Gap(records, d) {
        var id: nat :| id < |records| && IsRubric(records, d, id) && VersionOf(records, id) == v;
      }
    }
  }

  // ----- Repair -----

  function Superseded(records: Records, id: nat): Records
    requires id < |records|
  {
    records[id := records[id].(verified := false)]
  }

  lemma OthersStay(records: Records, d: Department, id: nat)
    requires id < |records|
    ensures forall j: nat :: IsRubric(Superseded(records, id), d, j) <==> IsRubric(records, d, j) && j != id
    ensures forall j: nat :: j < |records| ==> Superseded(records, id)[j].content == records[j].content
    ensures forall j: nat :: Counts(Superseded(records, id), d, j) <==> Counts(records, d, j) && j != id
  {
  }

  lemma {:induction false} FirstBelow(records: Records, d: Department, v: nat, id: nat)
    requires HasVersion(records, d, id, v)
    ensures exists first: nat :: first <= id && IsFirst(records, d, first) && VersionOf(records, first) == v
  {
    if j: nat :| j < id && HasVersion(records, d, j, v) {
      FirstBelow(records, d, v, j);
    } else {
      assert IsFirst(records, d, id);
    }
  }

  lemma FirstOfVersion(records: Records, d: Department, v: nat)
    requires v in Versions(records, d)
    ensures exists first: nat :: IsFirst(records, d, first) && VersionOf(records, first) == v
  {
    var id: nat :| id < |records| && IsRubric(records, d, id) && VersionOf(records, id) == v;
    FirstBelow(records, d, v, id);
  }

  /** Retiring a stray does not move the gap. */
  lemma GapStays(records: Records, d: Department, id: nat)
    requires IsStray(records, d, id)
    ensures Gap(Superseded(records, id), d) == Gap(records, d)
  {
    var after := Superseded(records, id);
    OthersStay(records, d, id);
    forall v | v in Versions(after, d) ensures v in Versions(records, d) {
      var j: nat :| j < |after| && IsRubric(after, d, j) && VersionOf(after, j) == v;
      VersionKnown(records, d, j);
    }
    forall v | 1 <= v < Gap(records, d) ensures v in Versions(after, d) {
      FirstOfVersion(records, d, v);
      var first: nat :| IsFirst(records, d, first) && VersionOf(records, first) == v;
      VersionKnown(after, d, first);
    }
  }

  lemma NotDisplaced(records: Records, d: Department, id: nat, c: nat)
    requires IsStray(records, d, id) && IsCanonical(Superseded(records, id), d, c)
    requires Gap(Superseded(records, id), d) == Gap(records, d)
    ensures IsFirst(records, d, c)
  {
    var after, v := Superseded(records, id), VersionOf(records, c);
    OthersStay(records, d, id);
    assert forall j: nat :: j < c ==> !HasVersion(after, d, j, v);
    assert forall j: nat :: j != id && HasVersion(records, d, j, v) ==> HasVersion(after, d, j, v);
    forall j: nat | j < c ensures !HasVersion(records, d, j, v) {
      if HasVersion(records, d, id, v) {
        FirstBelow(records, d, v, id);
      }
    }
  }

  /** Superseding a stray takes exactly that one off the list, and keeps the standing history. */
  lemma SupersedeRemovesOne(records: Records, d: Department, id: nat)
    requires IsStray(records, d, id)
    ensures Strays(Superseded(records, id), d) == Strays(records, d) - {id}
    ensures forall c: nat :: IsCanonical(records, d, c) <==> IsCanonical(Superseded(records, id), d, c)
    ensures forall c: nat :: IsCanonical(records, d, c) ==> Superseded(records, id)[c] == records[c]
  {
    var after := Superseded(records, id);
    GapStays(records, d, id);
    OthersStay(records, d, id);
    forall c: nat | IsCanonical(records, d, c) ensures IsCanonical(after, d, c) {
      assert forall j: nat :: HasVersion(after, d, j, VersionOf(after, c)) ==>
        HasVersion(records, d, j, VersionOf(records, c));
    }
    forall c: nat | IsCanonical(after, d, c) ensures IsCanonical(records, d, c) {
      NotDisplaced(records, d, id, c);
    }
  }

  /** Any sequence of retirements, each of a record that is stray when its turn comes. */
  ghost predicate Retires(records: Records, d: Department, ids: seq<nat>, after: Records)
    decreases |ids|
  {
    if ids == [] then after == records
    else IsStray(records, d, ids[0]) && Retires(Superseded(records, ids[0]), d, ids[1..], after)
  }

  /** However the strays are retired, it takes as many steps as there are, and ends in a readable history. */
  lemma {:induction false} RepairConverges(records: Records, d: Department, ids: seq<nat>, after: Records)
    requires Retires(records, d, ids, after)
    ensures |ids| <= |Strays(records, d)|
    ensures |ids| == |Strays(records, d)| <==> Readable(after, d)
    ensures forall c: nat :: IsCanonical(records, d, c) <==> IsCanonical(after, d, c)
    decreases |ids|
  {
    if ids == [] {
      ReadableExactlyWithoutStrays(records, d);
    } else {
      SupersedeRemovesOne(records, d, ids[0]);
      RepairConverges(Superseded(records, ids[0]), d, ids[1..], after);
      assert ids[0] in Strays(records, d);
    }
  }
}
