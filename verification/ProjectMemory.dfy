/** Project Memory as the rubric code reads and writes it, loop by loop. */
module ProjectMemory {
  import opened Wrappers
  import opened Collections
  import opened Rubrics
  import opened RubricHistory

  // ----- Sorting what was loaded -----

  ghost predicate ByVersion(s: seq<Reference>) {
    forall i, j :: 0 <= i < j < |s| ==> s[i].rubric.version <= s[j].rubric.version
  }

  /** `loaded.sort(key=version)`: an insertion sort stands for the library's. */
  function InsertByVersion(x: Reference, s: seq<Reference>): seq<Reference> {
    if s == [] || x.rubric.version <= s[0].rubric.version then [x] + s else [s[0]] + InsertByVersion(x, s[1..])
  }

  function SortByVersion(s: seq<Reference>): seq<Reference> {
    if s == [] then [] else InsertByVersion(s[0], SortByVersion(s[1..]))
  }

  lemma {:induction false} InsertSorts(x: Reference, s: seq<Reference>)
    requires ByVersion(s)
    ensures ByVersion(InsertByVersion(x, s)) && |InsertByVersion(x, s)| == |s| + 1
    ensures forall y :: y in InsertByVersion(x, s) <==> y == x || y in s
  {
    if s != [] && s[0].rubric.version < x.rubric.version {
      InsertSorts(x, s[1..]);
      assert s == [s[0]] + s[1..];
      assert forall y :: y in s[1..] ==> s[0].rubric.version <= y.rubric.version;
    }
  }

  lemma {:induction false} SortSorts(s: seq<Reference>)
    ensures ByVersion(SortByVersion(s)) && |SortByVersion(s)| == |s|
    ensures forall y :: y in SortByVersion(s) <==> y in s
  {
    if s != [] {
      SortSorts(s[1..]);
      InsertSorts(s[0], SortByVersion(s[1..]));
      assert s == [s[0]] + s[1..];
    }
  }

  // ----- What a loaded list says about the history -----

  /** The list holds every record that counts, once, with what it says. */
  ghost predicate Lists(records: Records, d: Department, s: seq<Reference>) {
    && (forall r :: r in s ==> IsRubric(records, d, r.id) && records[r.id].content.rubric == r.rubric)
    && (forall id: nat :: Counts(records, d, id) ==> exists r :: r in s && r.id == id)
  }

  ghost predicate OneToN(s: seq<Reference>) {
    forall k :: 0 <= k < |s| ==> s[k].rubric.version == k + 1
  }

  lemma ListedVersions(records: Records, d: Department, s: seq<Reference>)
    requires Lists(records, d, s) && OneToN(s)
    ensures forall id: nat :: IsRubric(records, d, id) ==>
      1 <= VersionOf(records, id) <= |s| && s[VersionOf(records, id) - 1].id == id
    ensures forall v :: v in Versions(records, d) <==> 1 <= v <= |s|
  {
    forall id: nat | IsRubric(records, d, id)
      ensures 1 <= VersionOf(records, id) <= |s| && s[VersionOf(records, id) - 1].id == id
    {
      var r :| r in s && r.id == id;
    }
    forall v: nat | 1 <= v <= |s| ensures v in Versions(records, d) {
      assert s[v - 1] in s;
      VersionKnown(records, d, s[v - 1].id);
    }
  }

  lemma CompleteMeansReadable(records: Records, d: Department, s: seq<Reference>)
    requires Lists(records, d, s) && OneToN(s)
    ensures Readable(records, d) && Gap(records, d) == |s| + 1
    ensures forall v :: v in Versions(records, d) ==> v <= |s| && ReferenceOf(records, d, v) == s[v - 1]
  {
    ListedVersions(records, d, s);
    assert Readable(records, d);
    EmptyHistory(records, d);
    assert Gap(records, d) !in Versions(records, d) && |s| + 1 !in Versions(records, d);
    forall v | v in Versions(records, d) ensures v <= |s| && ReferenceOf(records, d, v) == s[v - 1] {
      assert s[v - 1] in s && IsRubric(records, d, RecordOf(records, d, v));
    }
  }

  lemma CompleteHistory(records: Records, d: Department, s: seq<Reference>)
    requires Lists(records, d, s) && OneToN(s)
    ensures Readable(records, d) && |s| == Gap(records, d) - 1
    ensures forall v :: v in Versions(records, d) <==> 1 <= v <= |s|
    ensures forall v :: v in Versions(records, d) ==> ReferenceOf(records, d, v) == s[v - 1]
  {
    ListedVersions(records, d, s);
    CompleteMeansReadable(records, d, s);
  }

  /** In a readable history no version is skipped between two neighbours of the sorted list. */
  lemma {:induction false} ReadableMeansComplete(records: Records, d: Department, s: seq<Reference>, k: nat)
    requires Lists(records, d, s) && ByVersion(s) && Readable(records, d) && k < |s|
    requires forall i, j :: 0 <= i < j < |s| ==> s[i].id != s[j].id
    ensures s[k].rubric.version == k + 1
  {
    assert s[k] in s;
    VersionKnown(records, d, s[k].id);
    if k > 0 {
      ReadableMeansComplete(records, d, s, k - 1);
      assert s[k - 1] in s && s[k - 1].id != s[k].id;
    }
    assert k + 1 in Versions(records, d);
    var id: nat :| id < |records| && IsRubric(records, d, id) && VersionOf(records, id) == k + 1;
    var r :| r in s && r.id == id;
    var j :| 0 <= j < |s| && s[j] == r;
    assert j >= k;
  }

  ghost predicate DistinctIds(s: seq<Reference>) {
    forall i, j :: 0 <= i < j < |s| ==> s[i].id != s[j].id
  }

  lemma {:induction false} InsertKeepsIdsApart(x: Reference, s: seq<Reference>)
    requires DistinctIds(s) && forall y :: y in s ==> y.id != x.id
    ensures DistinctIds(InsertByVersion(x, s))
    ensures forall y :: y in InsertByVersion(x, s) <==> y == x || y in s
  {
    if s != [] && s[0].rubric.version < x.rubric.version {
      assert s == [s[0]] + s[1..];
      assert forall y :: y in s[1..] ==> y.id != s[0].id;
      InsertKeepsIdsApart(x, s[1..]);
    }
  }

  lemma {:induction false} SortKeepsIdsApart(s: seq<Reference>)
    requires DistinctIds(s)
    ensures DistinctIds(SortByVersion(s))
    ensures forall y :: y in SortByVersion(s) <==> y in s
  {
    if s != [] {
      SortKeepsIdsApart(s[1..]);
      assert s == [s[0]] + s[1..];
      assert forall y :: y in s[1..] ==> y.id != s[0].id;
      InsertKeepsIdsApart(s[0], SortByVersion(s[1..]));
    }
  }

  /** After the records before `upto`: the first of each version by version, and everything else. */
  ghost predicate Sorted(records: Records, d: Department, upto: nat, strays: seq<nat>, byVersion: map<nat, nat>) {
    && Distinct(strays)
    && (forall s: nat :: s in strays <==> s < upto && Counts(records, d, s) && !IsFirst(records, d, s))
    && (forall v :: v in byVersion ==>
      byVersion[v] < upto && IsFirst(records, d, byVersion[v]) && VersionOf(records, byVersion[v]) == v)
    && (forall s: nat :: s < upto && IsFirst(records, d, s) ==>
      VersionOf(records, s) in byVersion && byVersion[VersionOf(records, s)] == s)
  }

  lemma SecondIsStray(records: Records, d: Department, id: nat, strays: seq<nat>, byVersion: map<nat, nat>)
    requires Sorted(records, d, id, strays, byVersion) && Counts(records, d, id)
    requires IsRubric(records, d, id) ==> VersionOf(records, id) in byVersion
    ensures Sorted(records, d, id + 1, strays + [id], byVersion)
  {
    if IsRubric(records, d, id) {
      assert HasVersion(records, d, byVersion[VersionOf(records, id)], VersionOf(records, id));
    }
  }

  lemma UnseenIsFirst(records: Records, d: Department, id: nat, strays: seq<nat>, byVersion: map<nat, nat>)
    requires Sorted(records, d, id, strays, byVersion) && IsRubric(records, d, id)
    requires VersionOf(records, id) !in byVersion
    ensures Sorted(records, d, id + 1, strays, byVersion[VersionOf(records, id) := id])
  {
    forall j: nat | j < id ensures !HasVersion(records, d, j, VersionOf(records, id)) {
      if HasVersion(records, d, j, VersionOf(records, id)) {
        FirstBelow(records, d, VersionOf(records, id), j);
      }
    }
  }

  lemma VersionsAreKeys(records: Records, d: Department, strays: seq<nat>, byVersion: map<nat, nat>)
    requires Sorted(records, d, |records|, strays, byVersion)
    ensures Versions(records, d) == byVersion.Keys
  {
    forall v | v in Versions(records, d) ensures v in byVersion {
      FirstOfVersion(records, d, v);
    }
    forall v | v in byVersion ensures v in Versions(records, d) {
      VersionKnown(records, d, byVersion[v]);
    }
  }

  ghost predicate PastGapAlready(byVersion: map<nat, nat>, rest: set<nat>, version: nat, s: nat) {
    exists v :: v in byVersion && v !in rest && v > version && byVersion[v] == s
  }

  lemma StrayFirst(records: Records, d: Department, byVersion: map<nat, nat>, s: nat)
    requires Versions(records, d) == byVersion.Keys && IsFirst(records, d, s)
    requires forall v :: v in byVersion ==> IsRubric(records, d, byVersion[v]) && VersionOf(records, byVersion[v]) == v
    requires VersionOf(records, s) in byVersion && byVersion[VersionOf(records, s)] == s
    ensures s in Strays(records, d) <==> PastGapAlready(byVersion, {}, Gap(records, d), s)
  {
    var v := VersionOf(records, s);
    assert v in byVersion && v != Gap(records, d);
    assert forall w :: w in byVersion && byVersion[w] == s ==> w == v;
  }

  lemma GapIsNoKey(records: Records, d: Department, strays: seq<nat>, byVersion: map<nat, nat>)
    requires Sorted(records, d, |records|, strays, byVersion)
    ensures forall s: nat :: s in Strays(records, d) <==>
      s in strays || PastGapAlready(byVersion, {}, Gap(records, d), s)
  {
    VersionsAreKeys(records, d, strays, byVersion);
    forall s: nat
      ensures s in Strays(records, d) <==> s in strays || PastGapAlready(byVersion, {}, Gap(records, d), s)
    {
      if IsFirst(records, d, s) {
        VersionKnown(records, d, s);
        StrayFirst(records, d, byVersion, s);
      }
    }
  }

  class ProjectMemory {
    var records: Records

    /** The loop of `stored_rubric_versions` over the verified records of the scope. */
    method LoadRubrics(d: Department) returns (ok: bool, loaded: seq<Reference>)
      ensures ok ==> Lists(records, d, loaded) && DistinctIds(loaded)
      ensures !ok ==> !Readable(records, d)
    {
      loaded := [];
      for id := 0 to |records|
        invariant forall r :: r in loaded ==>
          r.id < id && IsRubric(records, d, r.id) && records[r.id].content.rubric == r.rubric
        invariant forall j: nat :: j < id && Counts(records, d, j) ==> exists r :: r in loaded && r.id == j
        invariant DistinctIds(loaded)
      {
        if Counts(records, d, id) {
          if !IsRubric(records, d, id) {
            return false, [];
          }
          ghost var before := loaded;
          var r := Reference(id, records[id].content.rubric);
          loaded := loaded + [r];
          forall j: nat | j < id + 1 && Counts(records, d, j) ensures exists r :: r in loaded && r.id == j {
            if j < id {
              var q :| q in before && q.id == j;
              assert q in loaded;
            } else {
              assert r in loaded;
            }
          }
        }
      }
      ok := true;
    }

    /** `stored_rubric_versions` */
    method StoredRubricVersions(d: Department) returns (reply: Result<seq<Reference>, RubricError>)
      ensures reply == Err(Unreadable) || reply.Ok?
      ensures reply.Ok? <==> Readable(records, d)
      ensures reply.Ok? ==> |reply.value| == Gap(records, d) - 1
      ensures reply.Ok? ==>
        forall v :: v in Versions(records, d) <==> 1 <= v <= |reply.value|
      ensures reply.Ok? ==> forall v :: v in Versions(records, d) ==> ReferenceOf(records, d, v) == reply.value[v - 1]
    {
      var ok, loaded := LoadRubrics(d);
      if !ok {
        return Err(Unreadable);
      }
      var history := SortByVersion(loaded);
      SortSorts(loaded);
      SortKeepsIdsApart(loaded);
      assert Lists(records, d, history);
      for k := 0 to |history|
        invariant forall j :: 0 <= j < k ==> history[j].rubric.version == j + 1
      {
        if history[k].rubric.version != k + 1 {
          if Readable(records, d) {
            ReadableMeansComplete(records, d, history, k);
          }
          return Err(Unreadable);
        }
      }
      CompleteHistory(records, d, history);
      return Ok(history);
    }

    /** The first loop of `stray_rubric_records`: firsts by version, and everything else. */
    method SortOut(d: Department) returns (strays: seq<nat>, byVersion: map<nat, nat>)
      ensures Sorted(records, d, |records|, strays, byVersion)
    {
      strays, byVersion := [], map[];
      for id := 0 to |records|
        invariant Sorted(records, d, id, strays, byVersion)
      {
        if Counts(records, d, id) {
          if !IsRubric(records, d, id) || VersionOf(records, id) in byVersion {
            SecondIsStray(records, d, id, strays, byVersion);
            strays := strays + [id];
          } else {
            UnseenIsFirst(records, d, id, strays, byVersion);
            byVersion := byVersion[VersionOf(records, id) := id];
          }
        }
      }
    }

    /** `stray_rubric_records` */
    method StrayRubricRecords(d: Department) returns (strays: seq<nat>)
      ensures forall id: nat :: id in strays <==> id in Strays(records, d)
      ensures Distinct(strays)
    {
      var misfits, byVersion := SortOut(d);
      var version := 1;
      while version in byVersion
        invariant version >= 1 && forall v :: 1 <= v < version ==> v in byVersion
        decreases |set v | v in byVersion && v >= version|
      {
        assert (set v | v in byVersion && v >= version) == (set v | v in byVersion && v >= version + 1) + {version};
        version := version + 1;
      }
      VersionsAreKeys(records, d, misfits, byVersion);
      strays := PastGap(d, misfits, byVersion, version);
    }

    /** The last statement: the firsts of versions past the gap. */
    method PastGap(d: Department, misfits: seq<nat>, byVersion: map<nat, nat>, version: nat) returns (strays: seq<nat>)
      requires Sorted(records, d, |records|, misfits, byVersion) && version == Gap(records, d)
      ensures Distinct(strays)
      ensures forall id: nat :: id in strays <==> id in Strays(records, d)
    {
      strays := misfits;
      var rest := byVersion.Keys;
      while rest != {}
        invariant rest <= byVersion.Keys && Distinct(strays)
        invariant forall s: nat :: s in strays <==> s in misfits || PastGapAlready(byVersion, rest, version, s)
        decreases rest
      {
        var number :| number in rest;
        ghost var before, todo := strays, rest;
        rest := rest - {number};
        if number > version {
          strays := strays + [byVersion[number]];
        }
        forall s: nat ensures s in strays <==> s in misfits || PastGapAlready(byVersion, rest, version, s) {
          assert s in before <==> s in misfits || PastGapAlready(byVersion, todo, version, s);
          if number > version && s == byVersion[number] {
            assert number in byVersion && number !in rest;
          }
        }
      }
      GapIsNoKey(records, d, misfits, byVersion);
    }

    /** `store_department_rubric`, under the rubric write lock. */
    method StoreDepartmentRubric(rubric: Rubric, outcome: bool) returns (reply: Result<Reference, RubricError>)
      modifies this
      ensures (records, reply) == StoreRubric(old(records), rubric, outcome)
    {
      if rubric.version < 1 {
        return Err(InvalidVersion);
      }
      var existing := StoredRubricVersions(rubric.department);
      if existing.Err? {
        return Err(existing.error);
      }
      assert Readable(records, rubric.department);
      if rubric.version <= |existing.value| {
        var same := existing.value[rubric.version - 1];
        return if same.rubric != rubric then Err(Immutable) else Ok(same);
      }
      if |existing.value| == 0 {
        return Err(RuntimeWritesFirst);
      }
      if rubric.version != |existing.value| + 1 {
        return Err(MustAdvanceByOne);
      }
      if !outcome {
        return Err(NoOutcomeEvidence);
      }
      records := Appended(records, rubric);
      return Ok(Reference(|records| - 1, rubric));
    }

    /** `write_runtime_rubric`, under the same lock. */
    method WriteRuntimeRubric(rubric: Rubric) returns (reply: Result<Reference, RubricError>)
      modifies this
      ensures (records, reply) == WriteRuntime(old(records), rubric)
    {
      if rubric.version != 1 {
        return Err(NotVersionOne);
      }
      var existing := StoredRubricVersions(rubric.department);
      if existing.Err? {
        return Err(existing.error);
      }
      if |existing.value| > 0 {
        assert |existing.value| in Versions(records, rubric.department);
        return Ok(existing.value[|existing.value| - 1]);
      }
      records := Appended(records, rubric);
      return Ok(Reference(|records| - 1, rubric));
    }

    /** `supersede_rubric_record` */
    method SupersedeRubricRecord(id: nat, authorised: bool) returns (reply: Result<nat, RubricError>)
      modifies this
      ensures (records, reply) == Supersede(old(records), id, authorised)
    {
      if !authorised {
        return Err(NotAuthorised);
      }
      if id >= |records| || records[id].scope.None? {
        return Err(NoSuchRecord);
      }
      var strays := StrayRubricRecords(records[id].scope.value);
      if id !in strays {
        return Err(NotAStray);
      }
      records := records[id := records[id].(verified := false)];
      return Ok(id);
    }
  }
}
