/**
  Manifests of a project tree and the changes between two of them
  (`artifact_staging.py`: `_diff_manifests` and what `_apply_changes` amounts to).

  A manifest maps the path of every tracked file or symlink to its entry.  Paths are the
  source's relative posix strings, ordered as Python orders strings.
 */
module Manifests {
  import opened Wrappers
  import opened Ordering
  import opened Strings

  type Path = string

  datatype Entry =
    | File(sha256: string, mode: int)
    | Symlink(sha256: string, mode: int, target: string)

  type Manifest = map<Path, Entry>

  datatype Operation = Add | Modify | Delete

  datatype ArtifactClass = Code | PlainFile | GeneratedAsset

  datatype Change = Change(
    path: Path,
    operation: Operation,
    artifactClass: ArtifactClass,
    baseline: Option<Entry>,
    staged: Option<Entry>,
    version: string)

  const CODE_SUFFIXES := {
    ".c", ".cc", ".cpp", ".css", ".go", ".h", ".hpp", ".html", ".java", ".js", ".jsx", ".kt", ".kts", ".lua", ".m",
    ".mm", ".php", ".py", ".rb", ".rs", ".sh", ".sql", ".swift", ".ts", ".tsx", ".vue"}

  const GENERATED_ASSET_SUFFIXES := {
    ".avif", ".bmp", ".gif", ".ico", ".jpeg", ".jpg", ".m4a", ".mov", ".mp3", ".mp4", ".ogg", ".otf", ".pdf", ".png",
    ".svg", ".ttf", ".wav", ".webm", ".webp", ".woff", ".woff2"}

  /**
    `Path(path).suffix.casefold()`, read from the end: the last dot of the last component,
    unless it leads or ends it.
   */
  function Suffix(path: Path, n: nat): string
    requires n <= |path|
  {
    if n == 0 || path[n - 1] == '/' then ""
    else if path[n - 1] == '.' then
      if n < |path| && n > 1 && path[n - 2] != '/' then Lower(path[n - 1..]) else ""
    else Suffix(path, n - 1)
  }

  /** `_artifact_class` */
  function ArtifactClassOf(path: Path): ArtifactClass {
    var suffix := Suffix(path, |path|);
    if suffix in CODE_SUFFIXES then Code
    else if suffix in GENERATED_ASSET_SUFFIXES then GeneratedAsset
    else PlainFile
  }

  function Lookup(m: Manifest, path: Path): Option<Entry> {
    if path in m then Some(m[path]) else None
  }

  /** The paths on which two manifests disagree. */
  function Differing(a: Manifest, b: Manifest): set<Path> {
    set path | path in a.Keys + b.Keys && Lookup(a, path) != Lookup(b, path)
  }

  function ChangeAt(baseline: Manifest, staged: Manifest, path: Path): Change
    requires path in Differing(baseline, staged)
  {
    var before, after := Lookup(baseline, path), Lookup(staged, path);
    Change(path,
      if before.None? then Add else if after.None? then Delete else Modify,
      ArtifactClassOf(path),
      before, after,
      if after.Some? then after.value.sha256 else "deleted:" + before.value.sha256)
  }

  ghost function ChangesAt(baseline: Manifest, staged: Manifest, paths: seq<Path>): (r: seq<Change>)
    requires forall p :: p in paths ==> p in Differing(baseline, staged)
    ensures |r| == |paths| && forall k :: 0 <= k < |r| ==> r[k] == ChangeAt(baseline, staged, paths[k])
  {
    if paths == [] then []
    else ChangesAt(baseline, staged, paths[..|paths| - 1]) + [ChangeAt(baseline, staged, paths[|paths| - 1])]
  }

  /** The change list of two manifests: one change for every path they disagree on, in order. */
  ghost function Diff(baseline: Manifest, staged: Manifest): seq<Change> {
    ChangesAt(baseline, staged, Sorted(Differing(baseline, staged)))
  }

  /** The paths of a list that the two manifests disagree on. */
  ghost function Unequal(baseline: Manifest, staged: Manifest, paths: seq<Path>): (r: seq<Path>)
    ensures forall p :: p in r ==> p in Differing(baseline, staged)
  {
    if paths == [] then []
    else
      var p := paths[|paths| - 1];
      Unequal(baseline, staged, paths[..|paths| - 1])
        + if p in Differing(baseline, staged) then [p] else []
  }

  lemma {:induction false} UnequalIsSorted(baseline: Manifest, staged: Manifest, paths: seq<Path>)
    requires StrictlySorted(paths)
    ensures forall p :: p in Unequal(baseline, staged, paths) <==> p in paths && p in Differing(baseline, staged)
    ensures StrictlySorted(Unequal(baseline, staged, paths))
  {
    if paths != [] {
      var n := |paths| - 1;
      var front := Unequal(baseline, staged, paths[..n]);
      UnequalIsSorted(baseline, staged, paths[..n]);
      assert paths == paths[..n] + [paths[n]];
      forall i | 0 <= i < |front| ensures Less(front[i], paths[n]) {
        assert front[i] in paths[..n];
      }
    }
  }

  lemma ChangesSnoc(baseline: Manifest, staged: Manifest, paths: seq<Path>, p: Path)
    requires p in Differing(baseline, staged) && forall q :: q in paths ==> q in Differing(baseline, staged)
    ensures ChangesAt(baseline, staged, paths + [p]) ==
      ChangesAt(baseline, staged, paths) + [ChangeAt(baseline, staged, p)]
  {
    assert (paths + [p])[..|paths|] == paths;
  }

  lemma UnequalStep(baseline: Manifest, staged: Manifest, paths: seq<Path>, i: nat)
    requires i < |paths| && paths[i] in baseline.Keys + staged.Keys
    ensures ChangesAt(baseline, staged, Unequal(baseline, staged, paths[..i + 1])) ==
      ChangesAt(baseline, staged, Unequal(baseline, staged, paths[..i])) +
        if Lookup(baseline, paths[i]) == Lookup(staged, paths[i]) then [] else [ChangeAt(baseline, staged, paths[i])]
  {
    assert paths[..i + 1][..i] == paths[..i];
    var before := Unequal(baseline, staged, paths[..i]);
    if Lookup(baseline, paths[i]) == Lookup(staged, paths[i]) {
      assert before + [] == before;
    } else {
      ChangesSnoc(baseline, staged, before, paths[i]);
    }
  }

  /** `_diff_manifests`: the loop walks all paths of both sides and skips the equal ones. */
  method DiffManifests(baseline: Manifest, staged: Manifest) returns (changes: seq<Change>)
    ensures changes == Diff(baseline, staged)
  {
    changes := [];
    var paths := SortSet(baseline.Keys + staged.Keys);
    for i := 0 to |paths|
      invariant changes == ChangesAt(baseline, staged, Unequal(baseline, staged, paths[..i]))
    {
      UnequalStep(baseline, staged, paths, i);
      if Lookup(baseline, paths[i]) == Lookup(staged, paths[i]) {
        continue;
      }
      changes := changes + [ChangeAt(baseline, staged, paths[i])];
    }
    assert paths[..|paths|] == paths;
    UnequalIsSorted(baseline, staged, paths);
    SortedIsUnique(Unequal(baseline, staged, paths), Sorted(Differing(baseline, staged)));
  }

  // ----- Change lists -----

  function Paths(changes: seq<Change>): (r: set<Path>) {
    set c | c in changes :: c.path
  }

  /** The rule `_changes_from_raw` enforces: unique paths in order. */
  predicate InOrder(changes: seq<Change>) {
    forall i, j :: 0 <= i < j < |changes| ==> Less(changes[i].path, changes[j].path)
  }

  /** The rule `ArtifactChange.from_dict` enforces. */
  predicate Consistent(c: Change) {
    match c.operation
    case Add => c.baseline.None? && c.staged.Some?
    case Modify => c.baseline.Some? && c.staged.Some?
    case Delete => c.baseline.Some? && c.staged.None?
  }

  /** What a change list says about the two manifests it was made from. */
  ghost predicate Describes(c: Change, baseline: Manifest, staged: Manifest) {
    && c.path in Differing(baseline, staged)
    && Consistent(c)
    && c.baseline == Lookup(baseline, c.path)
    && c.staged == Lookup(staged, c.path)
  }

  /** Each change carries the class of its path, and the content it brings or the one it takes away. */
  lemma DiffLabels(baseline: Manifest, staged: Manifest, c: Change)
    requires c in Diff(baseline, staged)
    ensures c.artifactClass == ArtifactClassOf(c.path)
    ensures match (c.baseline, c.staged)
      case (_, Some(entry)) => c.version == entry.sha256
      case (Some(entry), None) => c.version == "deleted:" + entry.sha256
      case (None, None) => false
  {
    var paths := Sorted(Differing(baseline, staged));
    var k :| 0 <= k < |paths| && Diff(baseline, staged)[k] == c;
    assert paths[k] in paths;
    assert c == ChangeAt(baseline, staged, paths[k]);
  }

  lemma DiffDescribes(baseline: Manifest, staged: Manifest)
    ensures forall c :: c in Diff(baseline, staged) ==> Describes(c, baseline, staged)
  {
    var paths := Sorted(Differing(baseline, staged));
    forall c | c in Diff(baseline, staged) ensures Describes(c, baseline, staged) {
      var k :| 0 <= k < |paths| && Diff(baseline, staged)[k] == c;
      assert paths[k] in paths;
      var p := paths[k];
      assert c == ChangeAt(baseline, staged, p);
    }
  }

  /** The change list names exactly the paths that differ, each once, in order. */
  lemma DiffIsInOrder(baseline: Manifest, staged: Manifest)
    ensures InOrder(Diff(baseline, staged))
    ensures Paths(Diff(baseline, staged)) == Differing(baseline, staged)
  {
    var paths := Sorted(Differing(baseline, staged));
    var changes := Diff(baseline, staged);
    DiffDescribes(baseline, staged);
    forall p | p in Differing(baseline, staged) ensures p in Paths(changes) {
      assert p in paths;
      var k :| 0 <= k < |paths| && paths[k] == p;
      assert changes[k].path == p;
    }
  }

  lemma SameLookups(a: Manifest, b: Manifest)
    requires Differing(a, b) == {}
    ensures a == b
  {
    forall p ensures Lookup(a, p) == Lookup(b, p) {
      assert p !in Differing(a, b);
    }
    forall p | p in a ensures p in b && a[p] == b[p] {
      assert Lookup(a, p) == Lookup(b, p);
    }
    forall p | p in b ensures p in a {
      assert Lookup(a, p) == Lookup(b, p);
    }
  }

  /** Two manifests are equal exactly when there is nothing to change. */
  lemma DiffIsEmpty(baseline: Manifest, staged: Manifest)
    ensures Diff(baseline, staged) == [] <==> baseline == staged
  {
    DiffIsInOrder(baseline, staged);
    if Diff(baseline, staged) == [] {
      assert Differing(baseline, staged) == {};
      SameLookups(baseline, staged);
    }
  }

  // ----- Applying changes to a manifest -----

  function Put(m: Manifest, path: Path, entry: Option<Entry>): (r: Manifest)
    ensures forall p :: Lookup(r, p) == if p == path then entry else Lookup(m, p)
  {
    match entry
    case None => m - {path}
    case Some(e) => m[path := e]
  }

  /** The manifest with every change carried out. */
  function Overlay(m: Manifest, changes: seq<Change>): Manifest {
    if changes == [] then m
    else
      var last := changes[|changes| - 1];
      Put(Overlay(m, changes[..|changes| - 1]), last.path, last.staged)
  }

  lemma {:induction false} OverlayAt(m: Manifest, changes: seq<Change>)
    requires InOrder(changes)
    ensures forall c :: c in changes ==> Lookup(Overlay(m, changes), c.path) == c.staged
    ensures forall p :: p !in Paths(changes) ==> Lookup(Overlay(m, changes), p) == Lookup(m, p)
  {
    if changes != [] {
      var n := |changes| - 1;
      OverlayAt(m, changes[..n]);
      assert changes == changes[..n] + [changes[n]];
      forall c | c in changes[..n] ensures c.path != changes[n].path {
        LessIsTotal(c.path, changes[n].path);
      }
    }
  }

  /** Applying the difference of two manifests to the first gives the second. */
  lemma ApplyDiff(baseline: Manifest, staged: Manifest)
    ensures Overlay(baseline, Diff(baseline, staged)) == staged
  {
    var changes := Diff(baseline, staged);
    DiffIsInOrder(baseline, staged);
    DiffDescribes(baseline, staged);
    OverlayAt(baseline, changes);
    var result := Overlay(baseline, changes);
    forall p ensures Lookup(result, p) == Lookup(staged, p) {
      if p in Paths(changes) {
        var c :| c in changes && c.path == p;
      } else {
        assert p !in Differing(baseline, staged);
      }
    }
    assert Differing(result, staged) == {};
    SameLookups(result, staged);
  }
}
