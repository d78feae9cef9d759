/**
  How entries and change lists are written to a record and read back
  (`artifact_staging.py`: `to_dict`, `from_dict`, `_changes_from_raw`, `_relative_path`).
 */
module Storage {
  import opened Wrappers
  import opened Collections
  import opened Ordering
  import opened Strings
  import opened Manifests

  datatype Json =
    | Null
    | Bool(b: bool)
    | Number(n: int)
    | Text(s: string)
    | Array(items: seq<Json>)
    | Object(fields: map<string, Json>)

  /** One of the source's `ArtifactStagingError`s; their wording is not modelled. */
  datatype Malformed = Malformed

  // ----- Python's reading of a JSON value -----

  predicate Falsy(j: Json) {
    j == Null || j == Bool(false) || j == Number(0) || j == Text("") || j == Array([]) || j == Object(map[])
  }

  function Digit(d: nat): char
    requires d < 10
  {
    ['0', '1', '2', '3', '4', '5', '6', '7', '8', '9'][d]
  }

  function Decimal(n: int): string
    decreases if n < 0 then 1 - n else n
  {
    if n < 0 then "-" + Decimal(-n)
    else if n < 10 then [Digit(n)]
    else Decimal(n / 10) + [Digit(n % 10)]
  }

  /** `str(value)`; the text of a list or an object is not spelled out. */
  function Str(j: Json): string {
    match j
    case Null => "None"
    case Bool(b) => if b then "True" else "False"
    case Number(n) => Decimal(n)
    case Text(s) => s
    case Array(_) => "[]"
    case Object(_) => "{}"
  }

  /** `str(raw.get(key) or "")` */
  function StrOrEmpty(fields: map<string, Json>, key: string): string {
    if key !in fields || Falsy(fields[key]) then "" else Str(fields[key])
  }

  // ----- Entries -----

  predicate IsSha256(s: string) {
    |s| == 64 && forall i :: 0 <= i < |s| ==> '0' <= s[i] <= '9' || 'a' <= s[i] <= 'f'
  }

  function EntryToJson(e: Entry): map<string, Json> {
    match e
    case File(sha, mode) => map["kind" := Text("file"), "sha256" := Text(sha), "mode" := Number(mode)]
    case Symlink(sha, mode, target) =>
      map["kind" := Text("symlink"), "sha256" := Text(sha), "mode" := Number(mode), "link_target" := Text(target)]
  }

  function EntryFromJson(raw: map<string, Json>): Result<Entry, Malformed> {
    var kind := StrOrEmpty(raw, "kind");
    var digest := StrOrEmpty(raw, "sha256");
    var mode := if "mode" in raw then raw["mode"] else Null;
    var target := if "link_target" in raw then raw["link_target"] else Null;
    if raw.Keys - {"kind", "sha256", "mode", "link_target"} != {} then Err(Malformed)
    else if kind != "file" && kind != "symlink" then Err(Malformed)
    else if !IsSha256(digest) then Err(Malformed)
    else if !mode.Number? || mode.n < 0 then Err(Malformed)
    else if target != Null && !target.Text? then Err(Malformed)
    else if kind == "symlink" && target == Null then Err(Malformed)
    else if kind == "file" && target != Null then Err(Malformed)
    else Ok(if kind == "file" then File(digest, mode.n) else Symlink(digest, mode.n, target.s))
  }

  predicate ValidEntry(e: Entry) {
    IsSha256(e.sha256) && e.mode >= 0
  }

  /** An entry survives storage exactly when it could have been read from a disk. */
  lemma EntryRoundTrip(e: Entry)
    ensures EntryFromJson(EntryToJson(e)) == Ok(e) <==> ValidEntry(e)
  {
    var raw := EntryToJson(e);
    assert raw.Keys - {"kind", "sha256", "mode", "link_target"} == {};
    assert |e.sha256| == 64 ==> e.sha256 != "";
  }

  // ----- Paths -----

  /** What `pathlib` keeps of the components. */
  function Kept(parts: seq<string>): seq<string> {
    if parts == [] then []
    else (if parts[0] == "" || parts[0] == "." then [] else [parts[0]]) + Kept(parts[1..])
  }

  /** `_relative_path` */
  function RelativePath(value: string): Result<Path, Malformed> {
    var parts := Kept(Split(value));
    if value == "" || value[0] == '/' || value == "." || value == ".." || ".." in parts || '\0' in value
      then Err(Malformed)
    else Ok(if parts == [] then "." else Join(parts))
  }

  predicate PlainComponent(c: string) {
    c != "" && c != "." && c != ".."
  }

  /** A path as a manifest walk spells it. */
  predicate IsManifestPath(p: Path) {
    '\0' !in p && forall c :: c in Split(p) ==> PlainComponent(c)
  }

  lemma {:induction false} KeptAll(parts: seq<string>)
    requires forall c :: c in parts ==> PlainComponent(c)
    ensures Kept(parts) == parts
  {
    if parts != [] {
      assert parts[0] in parts && forall c :: c in parts[1..] ==> c in parts;
      KeptAll(parts[1..]);
      assert parts == [parts[0]] + parts[1..];
    }
  }

  lemma DotsAreComponents()
    ensures Split(".") == ["."] && Split("..") == [".."]
  {
    assert "."[1..] == "" && ".."[1..] == ".";
    assert ['.'] + "" == "." && ['.'] + "." == "..";
    assert Split("") == [""];
    assert Split(".") == [['.'] + ""] + [""][1..];
    assert Split("..") == [['.'] + "."] + ["."][1..];
  }

  lemma ManifestPathKept(p: Path)
    requires IsManifestPath(p)
    ensures RelativePath(p) == Ok(p)
  {
    JoinSplit(p);
    KeptAll(Split(p));
    assert Split(p)[0] in Split(p);
    DotsAreComponents();
  }

  // ----- Changes -----

  function OperationText(o: Operation): string {
    match o
    case Add => "add"
    case Modify => "modify"
    case Delete => "delete"
  }

  function ClassText(c: ArtifactClass): string {
    match c
    case Code => "code"
    case PlainFile => "file"
    case GeneratedAsset => "generated_asset"
  }

  function OptionalEntry(e: Option<Entry>): Json {
    if e.None? then Null else Object(EntryToJson(e.value))
  }

  function ChangeToJson(c: Change): map<string, Json> {
    map["path" := Text(c.path), "operation" := Text(OperationText(c.operation)),
      "artifact_class" := Text(ClassText(c.artifactClass)),
      "baseline" := OptionalEntry(c.baseline), "staged" := OptionalEntry(c.staged), "version" := Text(c.version)]
  }

  function OperationFrom(s: string): Option<Operation> {
    if s == "add" then Some(Add) else if s == "modify" then Some(Modify) else if s == "delete" then Some(Delete)
      else None
  }

  function ClassFrom(s: string): Option<ArtifactClass> {
    if s == "code" then Some(Code) else if s == "file" then Some(PlainFile)
    else if s == "generated_asset" then Some(GeneratedAsset) else None
  }

  /** An absent side is null; the source also reads an empty object as absent. */
  function EntryFromOptional(j: Json): Result<Option<Entry>, Malformed> {
    if j == Null || j == Object(map[]) then Ok(None)
    else if !j.Object? then Err(Malformed)
    else
      match EntryFromJson(j.fields)
      case Err(e) => Err(e)
      case Ok(entry) => Ok(Some(entry))
  }

  const CHANGE_FIELDS := {"path", "operation", "artifact_class", "baseline", "staged", "version"}

  function ChangeFromJson(raw: map<string, Json>): (r: Result<Change, Malformed>)
    ensures r.Ok? ==> Consistent(r.value) && r.value.version != ""
  {
    if raw.Keys != CHANGE_FIELDS then Err(Malformed)
    else
      var path := RelativePath(Str(raw["path"]));
      var operation := OperationFrom(Str(raw["operation"]));
      var class_ := ClassFrom(Str(raw["artifact_class"]));
      var baseline := EntryFromOptional(raw["baseline"]);
      var staged := EntryFromOptional(raw["staged"]);
      if path.Err? || operation.None? || class_.None? || baseline.Err? || staged.Err? then Err(Malformed)
      else
        var c := Change(path.value, operation.value, class_.value, baseline.value, staged.value, Str(raw["version"]));
        if !Consistent(c) || c.version == "" then Err(Malformed) else Ok(c)
  }

  function ChangesToJson(changes: seq<Change>): Json {
    Array(seq(|changes|, k requires 0 <= k < |changes| => Object(ChangeToJson(changes[k]))))
  }

  function ReadChanges(items: seq<Json>): Result<seq<Change>, Malformed> {
    if items == [] then Ok([])
    else
      var front := ReadChanges(items[..|items| - 1]);
      var last := items[|items| - 1];
      if front.Err? || !last.Object? then Err(Malformed)
      else
        match ChangeFromJson(last.fields)
        case Err(e) => Err(e)
        case Ok(c) => Ok(front.value + [c])
  }

  /** `_changes_from_raw` */
  function ChangesFromRaw(raw: Json): Result<seq<Change>, Malformed> {
    if !raw.Array? then Err(Malformed)
    else
      var changes := ReadChanges(raw.items);
      if changes.Ok? && !InOrder(changes.value) then Err(Malformed) else changes
  }

  predicate Storable(c: Change) {
    && RelativePath(c.path) == Ok(c.path) && Consistent(c) && c.version != ""
    && (c.baseline.Some? ==> ValidEntry(c.baseline.value))
    && (c.staged.Some? ==> ValidEntry(c.staged.value))
  }

  lemma OptionalRoundTrip(e: Option<Entry>)
    ensures EntryFromOptional(OptionalEntry(e)) == Ok(e) <==> (e.Some? ==> ValidEntry(e.value))
  {
    if e.Some? {
      EntryRoundTrip(e.value);
      assert "kind" in EntryToJson(e.value);
    }
  }

  /** A change survives storage exactly when it is one that could have been proposed. */
  lemma ChangeRoundTrip(c: Change)
    ensures ChangeFromJson(ChangeToJson(c)) == Ok(c) <==> Storable(c)
  {
    OptionalRoundTrip(c.baseline);
    OptionalRoundTrip(c.staged);
    var raw := ChangeToJson(c);
    assert raw.Keys == CHANGE_FIELDS;
    assert OperationFrom(OperationText(c.operation)) == Some(c.operation);
    assert ClassFrom(ClassText(c.artifactClass)) == Some(c.artifactClass);
  }

  lemma ReadLast(items: seq<Json>, front: seq<Change>, last: Change)
    requires items != [] && items[|items| - 1].Object?
    ensures ReadChanges(items) == Ok(front + [last]) <==>
      ReadChanges(items[..|items| - 1]) == Ok(front) && ChangeFromJson(items[|items| - 1].fields) == Ok(last)
  {
    var read := ReadChanges(items[..|items| - 1]);
    var c := ChangeFromJson(items[|items| - 1].fields);
    if read.Ok? && c.Ok? {
      SnocInjective(read.value, c.value, front, last);
    }
  }

  lemma {:induction false} ReadBack(changes: seq<Change>, items: seq<Json>)
    requires |items| == |changes| && forall k :: 0 <= k < |items| ==> items[k] == Object(ChangeToJson(changes[k]))
    ensures ReadChanges(items) == Ok(changes) <==> forall c :: c in changes ==> Storable(c)
  {
    if changes != [] {
      var n := |changes| - 1;
      ReadBack(changes[..n], items[..n]);
      ChangeRoundTrip(changes[n]);
      ReadLast(items, changes[..n], changes[n]);
      FrontAndLast(changes);
    }
  }

  /** A change list survives storage exactly when it is in order and each change does. */
  lemma ChangesRoundTrip(changes: seq<Change>)
    ensures ChangesFromRaw(ChangesToJson(changes)) == Ok(changes) <==>
      InOrder(changes) && forall c :: c in changes ==> Storable(c)
  {
    ReadBack(changes, ChangesToJson(changes).items);
  }

  lemma VersionIsNotEmpty(baseline: Manifest, staged: Manifest, c: Change)
    requires c in Diff(baseline, staged) && (c.staged.Some? ==> ValidEntry(c.staged.value))
    ensures c.version != ""
  {
    var paths := Sorted(Differing(baseline, staged));
    var k :| 0 <= k < |paths| && Diff(baseline, staged)[k] == c;
    assert paths[k] in paths;
    assert c == ChangeAt(baseline, staged, paths[k]);
  }

  /** In particular the difference of two manifests of real trees. */
  lemma DiffSurvivesStorage(baseline: Manifest, staged: Manifest)
    requires forall p :: p in baseline ==> IsManifestPath(p) && ValidEntry(baseline[p])
    requires forall p :: p in staged ==> IsManifestPath(p) && ValidEntry(staged[p])
    ensures ChangesFromRaw(ChangesToJson(Diff(baseline, staged))) == Ok(Diff(baseline, staged))
  {
    DiffIsInOrder(baseline, staged);
    DiffDescribes(baseline, staged);
    forall c | c in Diff(baseline, staged) ensures Storable(c) {
      assert Describes(c, baseline, staged);
      assert c.path in Differing(baseline, staged);
      ManifestPathKept(c.path);
      VersionIsNotEmpty(baseline, staged, c);
    }
    ChangesRoundTrip(Diff(baseline, staged));
  }

  lemma {:induction false} ReadItemsSound(items: seq<Json>)
    requires ReadChanges(items).Ok?
    ensures forall c :: c in ReadChanges(items).value ==> Consistent(c) && c.version != ""
  {
    if items != [] {
      ReadItemsSound(items[..|items| - 1]);
    }
  }

  /** Whatever was on disk, what is read back is in order, consistent and versioned. */
  lemma ReadIsSound(raw: Json)
    requires ChangesFromRaw(raw).Ok?
    ensures InOrder(ChangesFromRaw(raw).value)
    ensures forall c :: c in ChangesFromRaw(raw).value ==> Consistent(c) && c.version != ""
  {
    ReadItemsSound(raw.items);
  }
}
