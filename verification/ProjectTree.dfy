/**
  The project tree on disk, changed in place by the loops of `artifact_staging.py`.  Each
  method is proved to do what the function of the same step in `Entries`, `Trees` or
  `Rollback` says.
 */
module ProjectTrees {
  import opened Wrappers
  import opened Strings
  import opened Manifests
  import opened Places
  import opened PathLookup
  import opened Links
  import opened Entries
  import opened Trees
  import opened Rollback

  method DeepestOf(paths: set<Path>) returns (d: Path)
    requires paths != {}
    ensures d == Deepest(paths)
  {
    d :| d in paths;
    var rest := paths - {d};
    while rest != {}
      invariant d in paths && d !in rest && rest <= paths
      invariant forall q :: q in paths && q !in rest && q != d ==> GoesBefore(d, q)
      decreases rest
    {
      var q :| q in rest;
      rest := rest - {q};
      GoesBeforeIsOrder(q, d, d);
      if GoesBefore(q, d) {
        forall p | p in paths && p !in rest && p != q ensures GoesBefore(q, p) {
          GoesBeforeIsOrder(q, d, p);
        }
        d := q;
      }
    }
    GoesBeforeIsOrder(d, Deepest(paths), d);
  }

  /** `sorted(parents, key=lambda item: len(Path(item).parts), reverse=True)` */
  method SortDeepestFirst(parents: set<Path>) returns (order: seq<Path>)
    ensures order == DeepestFirst(parents)
  {
    order := [];
    var rest := parents;
    while rest != {}
      invariant rest <= parents
      invariant DeepestFirst(parents) == order + DeepestFirst(rest)
      decreases rest
    {
      var d := DeepestOf(rest);
      order, rest := order + [d], rest - {d};
    }
  }

  lemma {:induction false} StoppedStays(t: Tree, parts: seq<string>, k: nat, depth: nat, cut: Option<nat>)
    requires k <= depth < |parts| && MakeParents(t, parts, k, cut).Stopped?
    ensures MakeParents(t, parts, depth, cut) == MakeParents(t, parts, k, cut)
  {
    if k < depth {
      StoppedStays(t, parts, k, depth - 1, cut);
    }
  }

  lemma SnapshotOfNone(t: Tree)
    ensures TakeSnapshot(t, []) == Snapshot(map[], {})
  {
  }

  lemma EntriesOneMore(t: Tree, before: set<Path>, path: Path)
    ensures (map p | p in before + {path} :: ObservedEntry(t, p)) ==
      (map p | p in before :: ObservedEntry(t, p))[path := ObservedEntry(t, path)]
  {
  }

  lemma DirectoriesOneMore(t: Tree, before: set<Path>, more: set<Path>)
    ensures (set a | a in before + more && DirectoryAt(t, a).Some?) ==
      (set a | a in before && DirectoryAt(t, a).Some?) + set a | a in more && DirectoryAt(t, a).Some?
  {
  }

  lemma SnapshotOneMore(t: Tree, changes: seq<Change>, k: nat)
    requires k < |changes|
    ensures var before := TakeSnapshot(t, changes[..k]); var path := changes[k].path;
      TakeSnapshot(t, changes[..k + 1]) == Snapshot(before.entries[path := ObservedEntry(t, path)],
        before.existing + set a | a in Ancestors(path) && DirectoryAt(t, a).Some?)
  {
    assert changes[..k + 1] == changes[..k] + [changes[k]];
    assert Paths(changes[..k + 1]) == Paths(changes[..k]) + {changes[k].path};
    assert AncestorsOf(changes[..k + 1]) == AncestorsOf(changes[..k]) + Ancestors(changes[k].path);
    EntriesOneMore(t, Paths(changes[..k]), changes[k].path);
    DirectoriesOneMore(t, AncestorsOf(changes[..k]), Ancestors(changes[k].path));
  }

  class ProjectTree {
    var files: Manifest
    var dirs: set<Path>
    var around: Around

    constructor (files: Manifest, dirs: set<Path>, around: Around)
      ensures Value() == Tree(files, dirs, around)
    {
      this.files, this.dirs, this.around := files, dirs, around;
    }

    function Value(): Tree
      reads this
    {
      Tree(files, dirs, around)
    }

    ghost predicate Valid()
      reads this
    {
      WellFormed(Value())
    }

    method Unlink(place: Place)
      modifies this
      ensures Value() == WithoutLeaf(old(Value()), place)
    {
      match SpotAt(around.root, place)
      case Inside(p) => files := files - {p};
      case Outside(q) => around := around.(files := around.files - {q});
    }

    method Write(place: Place, entry: Entry)
      modifies this
      ensures Value() == WithLeaf(old(Value()), place, entry)
    {
      match SpotAt(around.root, place)
      case Inside(p) => files := files[p := entry];
      case Outside(q) => around := around.(files := around.files[q := entry]);
    }

    method MakeDirectory(place: Place)
      modifies this
      ensures Value() == WithDirectory(old(Value()), place)
    {
      match SpotAt(around.root, place)
      case Inside(p) => dirs := dirs + {p};
      case Outside(q) => around := around.(dirs := around.dirs + {q});
    }

    method RemoveDirectory(place: Place)
      modifies this
      ensures Value() == WithoutDirectory(old(Value()), place)
    {
      match SpotAt(around.root, place)
      case Inside(p) => dirs := dirs - {p};
      case Outside(q) => around := around.(dirs := around.dirs - {q});
    }

    /** `_remove_entry` */
    method RemoveEntry(path: Path) returns (ok: bool)
      modifies this
      ensures Remove(old(Value()), path) == if ok then Done(Value()) else Failed(Value())
    {
      match Observed(Value(), path)
      case Nothing => return true;
      case Directory => return false;
      case Leaf(_) =>
        Unlink(Locate(Value(), path).value);
        return true;
    }

    /** `os.mkdir` of one parent, unless it is a directory or leads to one. */
    method EnterOrMakeDirectory(at: Place, name: string, length: nat, cut: Option<nat>) returns (place: Option<Place>)
      modifies this
      ensures EnterOrMake(old(Value()), at, name, length, cut) ==
        if place.Some? then Made(Value(), place.value) else Stopped(Value())
    {
      place := Enter(Value(), at, name, {}).0;
      if place.None? && NodeAt(Value(), at + [name]) == Nothing && (cut.None? || length <= cut.value) {
        MakeDirectory(at + [name]);
        place := Some(at + [name]);
      }
    }

    /** `destination.parent.mkdir(parents=True, exist_ok=True)` */
    method MakeParentDirectories(parts: seq<string>, cut: Option<nat>) returns (at: Option<Place>)
      requires parts != []
      modifies this
      ensures MakeParents(old(Value()), parts, |parts| - 1, cut) ==
        if at.Some? then Made(Value(), at.value) else Stopped(Value())
    {
      var here := around.root;
      for k := 0 to |parts| - 1
        invariant MakeParents(old(Value()), parts, k, cut) == Made(Value(), here)
      {
        MakeParentsTurn(old(Value()), parts, k, cut);
        at := EnterOrMakeDirectory(here, parts[k], |Join(parts[..k + 1])|, cut);
        if at.None? {
          StoppedStays(old(Value()), parts, k + 1, |parts| - 1, cut);
          return;
        }
        here := at.value;
      }
      return Some(here);
    }

    /** `_atomic_install_entry` */
    method InstallEntry(path: Path, entry: Entry, cut: Option<nat>) returns (ok: bool)
      modifies this
      ensures Install(old(Value()), path, entry, cut) == if ok then Done(Value()) else Failed(Value())
    {
      var parts := Split(path);
      var at := MakeParentDirectories(parts, cut);
      if at.None? || cut.Some? {
        return false;
      }
      var place := at.value + [parts[|parts| - 1]];
      if NodeAt(Value(), place) == Directory {
        return false;
      }
      Write(place, entry);
      return true;
    }

    /** One turn of the loop of `_apply_changes`. */
    method ApplyChange(workspace: Manifest, c: Change, fault: Option<nat>) returns (ok: bool)
      requires Valid()
      modifies this
      ensures Valid()
      ensures ApplyOne(old(Value()), workspace, c, fault) == if ok then Done(Value()) else Failed(Value())
    {
      ApplyOneTouches(Value(), workspace, c, fault);
      if exists a :: a in Ancestors(c.path) && IsLink(Value(), a) {
        return false;
      }
      RemoveIsPlain(Value(), c.path);
      if c.operation == Delete {
        if fault.Some? {
          return false;
        }
        ok := RemoveEntry(c.path);
        return;
      }
      if c.staged.None? || !LinkAllowed(around, files, c.path, c.staged.value) {
        return false;
      }
      var content := Written(workspace, c);
      var entry := if fault.Some? || content.None? then c.staged.value else content.value;
      var cut := if fault.Some? then fault else if content.None? then Some(|c.path|) else None;
      InstallIsPlain(Value(), c.path, entry, cut);
      ok := InstallEntry(c.path, entry, cut);
    }

    /** `_apply_changes`: in order, stopping at the first change that raises. */
    method ApplyChanges(workspace: Manifest, changes: seq<Change>, fault: Option<Fault>) returns (ok: bool)
      requires Valid()
      modifies this
      ensures Valid()
      ensures ApplyAll(old(Value()), workspace, changes, fault) == if ok then Done(Value()) else Failed(Value())
    {
      for k := 0 to |changes|
        invariant Valid() && ApplyAll(old(Value()), workspace, changes[..k], fault) == Done(Value())
      {
        label before:
        assert changes[..k + 1][..k] == changes[..k];
        ok := ApplyChange(workspace, changes[k], FaultOf(fault, k));
        if !ok {
          FailedApplyStays(old(Value()), workspace, changes, k + 1, fault);
          return;
        }
      }
      assert changes[..|changes|] == changes;
      ok := true;
    }

    /** `_require_no_canonical_drift` */
    method CheckDrift(changes: seq<Change>) returns (drifted: bool)
      ensures drifted <==> !NoDrift(Value(), changes)
    {
      for k := 0 to |changes|
        invariant forall j :: 0 <= j < k ==> NoDriftAt(Value(), changes[j])
      {
        var node := Observed(Value(), changes[k].path);
        if node == Directory || ObservedEntry(Value(), changes[k].path) != changes[k].baseline {
          assert !NoDriftAt(Value(), changes[k]);
          return true;
        }
      }
      return false;
    }

    /** `_write_promotion_snapshot` */
    method WriteSnapshot(changes: seq<Change>) returns (snapshot: Snapshot)
      ensures snapshot == TakeSnapshot(Value(), changes)
    {
      var entries: map<Path, Option<Entry>> := map[];
      var existing: set<Path> := {};
      SnapshotOfNone(Value());
      for k := 0 to |changes|
        invariant Snapshot(entries, existing) == TakeSnapshot(Value(), changes[..k])
      {
        SnapshotOneMore(Value(), changes, k);
        entries := entries[changes[k].path := ObservedEntry(Value(), changes[k].path)];
        existing := existing + set a | a in Ancestors(changes[k].path) && DirectoryAt(Value(), a).Some?;
      }
      assert changes[..|changes|] == changes;
      return Snapshot(entries, existing);
    }

    /** One turn of the first loop of `_restore_snapshot`. */
    method RestoreEntry(snapshot: Snapshot, c: Change) returns (ok: bool)
      modifies this
      ensures RestoreOne(old(Value()), snapshot, c) == if ok then Done(Value()) else Failed(Value())
    {
      var saved := Saved(snapshot, c.path);
      if saved.None? {
        ok := RemoveEntry(c.path);
      } else {
        ok := InstallEntry(c.path, saved.value, None);
      }
    }

    method RestoreEntries(snapshot: Snapshot, changes: seq<Change>, fault: Option<nat>) returns (ok: bool)
      modifies this
      ensures RestoreAll(old(Value()), snapshot, changes, fault) == if ok then Done(Value()) else Failed(Value())
    {
      var k := |changes|;
      assert changes[..k] == changes;
      while k > 0
        invariant 0 <= k <= |changes|
        invariant RestoreAll(old(Value()), snapshot, changes, fault) ==
          RestoreAll(Value(), snapshot, changes[..k], fault)
      {
        k := k - 1;
        assert changes[..k + 1][..k] == changes[..k];
        if fault == Some(k) {
          return false;
        }
        RestoreAllTurn(Value(), snapshot, changes[..k + 1], fault, RestoreOne(Value(), snapshot, changes[k]));
        ok := RestoreEntry(snapshot, changes[k]);
        if !ok {
          return;
        }
      }
      ok := true;
    }

    /** The second loop of `_restore_snapshot`: empty directories that were not there, deepest first. */
    method RemoveEmptyParents(parents: set<Path>, existing: set<Path>) returns (ok: bool)
      modifies this
      ensures CleanAll(old(Value()), DeepestFirst(parents), existing) ==
        if ok then Done(Value()) else Failed(Value())
    {
      var order := SortDeepestFirst(parents);
      assert order[0..] == order;
      for k := 0 to |order|
        invariant CleanAll(old(Value()), order, existing) == CleanAll(Value(), order[k..], existing)
      {
        var d := order[k];
        assert order[k..][1..] == order[k + 1..];
        if d !in existing {
          var directory := DirectoryAt(Value(), d);
          if directory.Some? && IsBare(Value(), directory.value) {
            if Observed(Value(), d) != Directory {
              return false;
            }
            RemoveDirectory(directory.value);
          }
        }
      }
      ok := true;
    }

    /** `_restore_snapshot` */
    method RestoreSnapshot(snapshot: Snapshot, changes: seq<Change>, fault: Option<nat>) returns (ok: bool)
      requires Valid()
      modifies this
      ensures Valid()
      ensures Restore(old(Value()), snapshot, changes, fault) == if ok then Done(Value()) else Failed(Value())
    {
      RestoreKeepsForm(Value(), snapshot, changes, fault);
      ok := RestoreEntries(snapshot, changes, fault);
      if !ok || (fault.Some? && fault.value >= |changes|) {
        return false;
      }
      ok := RemoveEmptyParents(AncestorsOf(changes), snapshot.existing);
    }
  }
}
