/**
  The snapshot of a promotion and the rollback to it (`artifact_staging.py`:
  `_write_promotion_snapshot`, `_restore_snapshot`).  The rollback does not check for links
  above the paths it restores, so it is given through links and in its plain form.
 */
module Rollback {
  import opened Wrappers
  import opened Ordering
  import opened Strings
  import opened Manifests
  import opened Places
  import opened PathLookup
  import opened Links
  import opened Entries
  import opened Trees

  datatype Snapshot = Snapshot(entries: map<Path, Option<Entry>>, existing: set<Path>)

  /** `_write_promotion_snapshot` */
  function TakeSnapshot(t: Tree, changes: seq<Change>): Snapshot {
    Snapshot(map p | p in Paths(changes) :: ObservedEntry(t, p),
      set a | a in AncestorsOf(changes) && DirectoryAt(t, a).Some?)
  }

  function Saved(snapshot: Snapshot, path: Path): Option<Entry> {
    if path in snapshot.entries then snapshot.entries[path] else None
  }

  function RestoreOne(t: Tree, snapshot: Snapshot, c: Change): Outcome {
    match Saved(snapshot, c.path)
    case None => Remove(t, c.path)
    case Some(e) => Install(t, c.path, e, None)
  }

  /** The first loop of `_restore_snapshot`, last change first. */
  function RestoreAll(t: Tree, snapshot: Snapshot, changes: seq<Change>, fault: Option<nat>): Outcome
    decreases |changes|
  {
    if changes == [] then Done(t)
    else
      var k := |changes| - 1;
      if fault == Some(k) then Failed(t)
      else
        match RestoreOne(t, snapshot, changes[k])
        case Failed(m) => Failed(m)
        case Done(m) => RestoreAll(m, snapshot, changes[..k], fault)
  }

  /** One turn of the loop. */
  lemma RestoreAllTurn(x: Tree, snapshot: Snapshot, changes: seq<Change>, fault: Option<nat>, r: Outcome)
    requires changes != [] && fault != Some(|changes| - 1) && r == RestoreOne(x, snapshot, changes[|changes| - 1])
    ensures RestoreAll(x, snapshot, changes, fault) ==
      match r
      case Failed(m) => Failed(m)
      case Done(m) => RestoreAll(m, snapshot, changes[..|changes| - 1], fault)
  {
  }

  // ----- Empty directories, deepest first -----

  /** `len(Path(p).parts)`, counted as separators. */
  function Depth(p: Path): nat {
    if p == "" then 0 else Depth(p[..|p| - 1]) + if p[|p| - 1] == '/' then 1 else 0
  }

  /** `sorted(parents, key=lambda item: len(Path(item).parts), reverse=True)`, with ties in order of the strings. */
  predicate GoesBefore(a: Path, b: Path) {
    Depth(a) > Depth(b) || (Depth(a) == Depth(b) && Less(a, b))
  }

  lemma GoesBeforeIsOrder(a: Path, b: Path, c: Path)
    ensures a == b || GoesBefore(a, b) || GoesBefore(b, a)
    ensures !(GoesBefore(a, b) && GoesBefore(b, a)) && !GoesBefore(a, a)
    ensures GoesBefore(a, b) && GoesBefore(b, c) ==> GoesBefore(a, c)
  {
    LessIsTotal(a, b);
    LessIsTotal(a, a);
    if Less(a, b) && Less(b, c) {
      LessIsTransitive(a, b, c);
    }
  }

  predicate IsDeepest(paths: set<Path>, d: Path) {
    d in paths && forall q :: q in paths && q != d ==> GoesBefore(d, q)
  }

  lemma {:induction false} DeepestExists(paths: set<Path>)
    requires paths != {}
    ensures exists d :: IsDeepest(paths, d)
  {
    var x :| x in paths;
    if paths == {x} {
      assert IsDeepest(paths, x);
    } else {
      DeepestExists(paths - {x});
      var d :| IsDeepest(paths - {x}, d);
      GoesBeforeIsOrder(x, d, d);
      if GoesBefore(d, x) {
        assert IsDeepest(paths, d);
      } else {
        forall q | q in paths && q != x ensures GoesBefore(x, q) {
          GoesBeforeIsOrder(x, d, q);
        }
        assert IsDeepest(paths, x);
      }
    }
  }

  ghost function Deepest(paths: set<Path>): (d: Path)
    requires paths != {}
    ensures IsDeepest(paths, d)
  {
    DeepestExists(paths);
    var d :| IsDeepest(paths, d);
    d
  }

  ghost function DeepestFirst(paths: set<Path>): seq<Path>
    decreases |paths|
  {
    if paths == {} then [] else [Deepest(paths)] + DeepestFirst(paths - {Deepest(paths)})
  }

  /**
    One turn of the second loop of `_restore_snapshot`: `is_dir` and `iterdir` follow a link
    in the last place, `rmdir` fails on one.
   */
  function CleanOne(t: Tree, d: Path): Outcome {
    match DirectoryAt(t, d)
    case None => Done(t)
    case Some(place) =>
      if !IsBare(t, place) then Done(t)
      else if Observed(t, d) == Directory then Done(WithoutDirectory(t, place))
      else Failed(t)
  }

  function CleanAll(t: Tree, order: seq<Path>, existing: set<Path>): Outcome
    decreases |order|
  {
    if order == [] then Done(t)
    else if order[0] in existing then CleanAll(t, order[1..], existing)
    else
      match CleanOne(t, order[0])
      case Failed(m) => Failed(m)
      case Done(m) => CleanAll(m, order[1..], existing)
  }

  /** `_restore_snapshot`; a fault past the last change is one of the directory loop. */
  ghost function Restore(t: Tree, snapshot: Snapshot, changes: seq<Change>, fault: Option<nat>): Outcome {
    match RestoreAll(t, snapshot, changes, fault)
    case Failed(m) => Failed(m)
    case Done(m) =>
      if fault.Some? && fault.value >= |changes| then Failed(m)
      else CleanAll(m, DeepestFirst(AncestorsOf(changes)), snapshot.existing)
  }

  // ----- A rollback leaves a tree, even when it raises -----

  lemma {:induction false} RestoreAllKeepsForm(x: Tree, snapshot: Snapshot, changes: seq<Change>, fault: Option<nat>)
    requires WellFormed(x)
    ensures WellFormed(RestoreAll(x, snapshot, changes, fault).tree)
    decreases |changes|
  {
    if changes != [] {
      var k := |changes| - 1;
      RemoveKeepsForm(x, changes[k].path);
      if Saved(snapshot, changes[k].path).Some? {
        InstallKeepsForm(x, changes[k].path, Saved(snapshot, changes[k].path).value, None);
      }
      RestoreAllKeepsForm(RestoreOne(x, snapshot, changes[k]).tree, snapshot, changes[..k], fault);
    }
  }

  lemma CleanOneKeepsForm(t: Tree, d: Path)
    requires WellFormed(t)
    ensures WellFormed(CleanOne(t, d).tree)
  {
    var place := DirectoryAt(t, d);
    if place.Some? && IsBare(t, place.value) {
      WithoutDirectoryKeepsForm(t, place.value);
    }
  }

  lemma {:induction false} CleanAllKeepsForm(t: Tree, order: seq<Path>, existing: set<Path>)
    requires WellFormed(t)
    ensures WellFormed(CleanAll(t, order, existing).tree)
    decreases |order|
  {
    if order != [] {
      CleanOneKeepsForm(t, order[0]);
      CleanAllKeepsForm(if order[0] in existing then t else CleanOne(t, order[0]).tree, order[1..], existing);
    }
  }

  lemma RestoreKeepsForm(x: Tree, snapshot: Snapshot, changes: seq<Change>, fault: Option<nat>)
    requires WellFormed(x)
    ensures WellFormed(Restore(x, snapshot, changes, fault).tree)
  {
    RestoreAllKeepsForm(x, snapshot, changes, fault);
    var m := RestoreAll(x, snapshot, changes, fault).tree;
    CleanAllKeepsForm(m, DeepestFirst(AncestorsOf(changes)), snapshot.existing);
  }

  // ----- The plain form -----

  function PlainRestoreOne(t: Tree, snapshot: Snapshot, c: Change): Outcome {
    match Saved(snapshot, c.path)
    case None => PlainRemove(t, c.path)
    case Some(e) => PlainInstall(t, c.path, e, None)
  }

  function PlainRestoreAll(t: Tree, snapshot: Snapshot, changes: seq<Change>, fault: Option<nat>): Outcome
    decreases |changes|
  {
    if changes == [] then Done(t)
    else
      var k := |changes| - 1;
      if fault == Some(k) then Failed(t)
      else
        match PlainRestoreOne(t, snapshot, changes[k])
        case Failed(m) => Failed(m)
        case Done(m) => PlainRestoreAll(m, snapshot, changes[..k], fault)
  }

  /** A directory that the second loop of `_restore_snapshot` takes away, among `candidates`. */
  predicate Removable(t: Tree, candidates: set<Path>, d: Path) {
    && d in candidates && d in t.dirs
    && (forall p :: p in t.files ==> !IsAncestor(d, p))
    && (forall e :: e in t.dirs && IsAncestor(d, e) ==> e in candidates)
  }

  function Cleaned(t: Tree, candidates: set<Path>): Tree {
    t.(dirs := set d | d in t.dirs && !Removable(t, candidates, d))
  }

  function PlainRestore(t: Tree, snapshot: Snapshot, changes: seq<Change>, fault: Option<nat>): Outcome {
    match PlainRestoreAll(t, snapshot, changes, fault)
    case Failed(m) => Failed(m)
    case Done(m) =>
      if fault.Some? && fault.value >= |changes| then Failed(m)
      else Done(Cleaned(m, AncestorsOf(changes) - snapshot.existing))
  }

  /** No link lies above a changed path. */
  ghost predicate Unlinked(t: Tree, changes: seq<Change>) {
    forall c :: c in changes ==> !CrossesSymlink(t, c.path)
  }

  /** No link that the snapshot brings back lies above a changed path. */
  ghost predicate SavesNoLinkAbove(snapshot: Snapshot, changes: seq<Change>) {
    forall c, d :: c in changes && d in changes && IsAncestor(c.path, d.path) ==>
      Saved(snapshot, c.path).None? || Saved(snapshot, c.path).value.File?
  }

  lemma PlainRestoreOneKeepsForm(x: Tree, snapshot: Snapshot, c: Change)
    requires WellFormed(x)
    ensures WellFormed(PlainRestoreOne(x, snapshot, c).tree)
  {
    var saved := Saved(snapshot, c.path);
    if saved.Some? {
      PlainInstallKeeps(x, c.path, saved.value, None);
    }
  }

  lemma PlainRestoreOneUnlinked(x: Tree, snapshot: Snapshot, changes: seq<Change>, c: Change)
    requires Unlinked(x, changes) && SavesNoLinkAbove(snapshot, changes) && c in changes
    ensures Unlinked(PlainRestoreOne(x, snapshot, c).tree, changes)
  {
    var m := PlainRestoreOne(x, snapshot, c).tree;
    forall d, a | d in changes && a in Ancestors(d.path) ensures !IsLink(m, a) {
      assert !IsLink(x, a);
    }
  }

  lemma {:induction false} RestoreAllIsPlain(x: Tree, snapshot: Snapshot, all: seq<Change>, n: nat, fault: Option<nat>)
    requires WellFormed(x) && n <= |all| && Unlinked(x, all) && SavesNoLinkAbove(snapshot, all)
    ensures var r := RestoreAll(x, snapshot, all[..n], fault);
      r == PlainRestoreAll(x, snapshot, all[..n], fault) && WellFormed(r.tree) && Unlinked(r.tree, all)
    decreases n
  {
    if n > 0 {
      var c := all[n - 1];
      assert all[..n][..n - 1] == all[..n - 1];
      assert c in all;
      RemoveIsPlain(x, c.path);
      if Saved(snapshot, c.path).Some? {
        InstallIsPlain(x, c.path, Saved(snapshot, c.path).value, None);
      }
      PlainRestoreOneKeepsForm(x, snapshot, c);
      PlainRestoreOneUnlinked(x, snapshot, all, c);
      RestoreAllIsPlain(PlainRestoreOne(x, snapshot, c).tree, snapshot, all, n - 1, fault);
    }
  }

  lemma {:induction false} PrefixIsShallower(p: Path, n: nat)
    requires n <= |p|
    ensures Depth(p[..n]) <= Depth(p)
    ensures n < |p| && p[n] == '/' ==> Depth(p[..n]) < Depth(p)
    decreases |p|
  {
    if n == |p| {
      assert p[..n] == p;
    } else {
      assert p[..|p| - 1][..n] == p[..n];
      PrefixIsShallower(p[..|p| - 1], n);
    }
  }

  lemma RemovableBelow(t: Tree, candidates: set<Path>, d: Path, e: Path)
    requires Removable(t, candidates, d) && e in t.dirs && IsAncestor(d, e)
    ensures Removable(t, candidates, e)
  {
    forall p | IsAncestor(e, p) ensures IsAncestor(d, p) {
      AncestorsOfAncestor(d, e, p);
    }
  }

  ghost function PartlyCleaned(t: Tree, candidates: set<Path>, done: set<Path>): Tree {
    t.(dirs := set d | d in t.dirs && !(d in done && Removable(t, candidates, d)))
  }

  /** When its turn comes, a directory is empty exactly if everything below it could go too. */
  lemma EmptyMeansRemovable(t: Tree, parents: set<Path>, existing: set<Path>, left: set<Path>, d: Path, place: Place)
    requires left <= parents && IsDeepest(left, d) && d !in existing && d in t.dirs
    requires SpotAt(t.around.root, place) == Inside(d)
    ensures IsBare(PartlyCleaned(t, parents - existing, parents - left), place) <==>
      Removable(t, parents - existing, d)
  {
    var candidates := parents - existing;
    var now := PartlyCleaned(t, candidates, parents - left);
    if Removable(t, candidates, d) {
      forall e | e in t.dirs && IsAncestor(d, e) ensures e !in now.dirs {
        RemovableBelow(t, candidates, d, e);
        assert e[..|d|] == d;
        PrefixIsShallower(e, |d|);
      }
    }
  }

  lemma CleanOneIsPlain(t: Tree, parents: set<Path>, existing: set<Path>, left: set<Path>, d: Path)
    requires left <= parents && IsDeepest(left, d) && d !in existing
    requires WellFormed(PartlyCleaned(t, parents - existing, parents - left))
    requires !CrossesSymlink(t, d) && !IsLink(t, d)
    ensures CleanOne(PartlyCleaned(t, parents - existing, parents - left), d) ==
      Done(PartlyCleaned(t, parents - existing, parents - (left - {d})))
  {
    var candidates := parents - existing;
    var now := PartlyCleaned(t, candidates, parents - left);
    assert parents - (left - {d}) == parents - left + {d};
    var next := PartlyCleaned(t, candidates, parents - left + {d});
    DirectoryPlain(now, d);
    LocatePlain(now, d);
    if d in now.dirs {
      EmptyMeansRemovable(t, parents, existing, left, d, Locate(now, d).value);
      if Removable(t, candidates, d) {
        assert next.dirs == now.dirs - {d};
      } else {
        assert next.dirs == now.dirs;
      }
    } else {
      assert next.dirs == now.dirs;
    }
  }

  lemma {:induction false} CleanAllIsPlain(t: Tree, parents: set<Path>, existing: set<Path>, left: set<Path>)
    requires left <= parents && forall d :: d in parents ==> !CrossesSymlink(t, d) && !IsLink(t, d)
    requires WellFormed(PartlyCleaned(t, parents - existing, parents - left))
    ensures CleanAll(PartlyCleaned(t, parents - existing, parents - left), DeepestFirst(left), existing) ==
      Done(Cleaned(t, parents - existing))
    decreases |left|
  {
    var candidates := parents - existing;
    var now := PartlyCleaned(t, candidates, parents - left);
    if left == {} {
      assert now.dirs == Cleaned(t, candidates).dirs;
    } else {
      var d := Deepest(left);
      assert DeepestFirst(left)[1..] == DeepestFirst(left - {d});
      if d in existing {
        assert PartlyCleaned(t, candidates, parents - (left - {d})).dirs == now.dirs;
      } else {
        CleanOneIsPlain(t, parents, existing, left, d);
        CleanOneKeepsForm(now, d);
      }
      CleanAllIsPlain(t, parents, existing, left - {d});
    }
  }

  lemma ParentIsUnlinked(t: Tree, changes: seq<Change>, d: Path)
    requires Unlinked(t, changes) && d in AncestorsOf(changes)
    ensures !CrossesSymlink(t, d) && !IsLink(t, d)
  {
    var c :| c in changes && d in Ancestors(c.path);
    forall a | IsAncestor(a, d) ensures !IsLink(t, a) {
      AncestorsOfAncestor(a, d, c.path);
      assert a in Ancestors(c.path);
    }
  }

  /** With no link above a changed path, the rollback is a matter of the changed paths alone. */
  lemma RestoreIsPlain(x: Tree, snapshot: Snapshot, changes: seq<Change>, fault: Option<nat>)
    requires WellFormed(x) && Unlinked(x, changes) && SavesNoLinkAbove(snapshot, changes)
    ensures Restore(x, snapshot, changes, fault) == PlainRestore(x, snapshot, changes, fault)
  {
    assert changes[..|changes|] == changes;
    RestoreAllIsPlain(x, snapshot, changes, |changes|, fault);
    var m := RestoreAll(x, snapshot, changes, fault).tree;
    var parents := AncestorsOf(changes);
    forall d | d in parents ensures !CrossesSymlink(m, d) && !IsLink(m, d) {
      ParentIsUnlinked(m, changes, d);
    }
    assert PartlyCleaned(m, parents - snapshot.existing, parents - parents).dirs == m.dirs;
    CleanAllIsPlain(m, parents, snapshot.existing, parents);
  }

  // ----- Exact rollback -----

  lemma SnapshotIsPlain(t: Tree, changes: seq<Change>)
    requires WellFormed(t) && NoDrift(t, changes) && Unlinked(t, changes)
    ensures forall c :: c in changes ==> Saved(TakeSnapshot(t, changes), c.path) == Lookup(t.files, c.path)
    ensures TakeSnapshot(t, changes).existing == AncestorsOf(changes) * t.dirs
    ensures SavesNoLinkAbove(TakeSnapshot(t, changes), changes)
  {
    forall c | c in changes ensures Saved(TakeSnapshot(t, changes), c.path) == Lookup(t.files, c.path) {
      assert c.path in Paths(changes) && NoDriftAt(t, c);
      ObservedPlain(t, c.path);
    }
    forall d | d in AncestorsOf(changes) ensures DirectoryAt(t, d).Some? <==> d in t.dirs {
      ParentIsUnlinked(t, changes, d);
      DirectoryPlain(t, d);
    }
    forall c, d | c in changes && d in changes && IsAncestor(c.path, d.path) ensures !IsLink(t, c.path) {
      assert c.path in Ancestors(d.path);
    }
  }

  /** No staged link lies above a changed path. */
  ghost predicate StagesNoLinkAbove(changes: seq<Change>) {
    forall c, d :: c in changes && d in changes && IsAncestor(c.path, d.path) ==>
      c.staged.None? || c.staged.value.File?
  }

  lemma ApplyOneUnlinked(m: Tree, workspace: Manifest, changes: seq<Change>, c: Change, fault: Option<nat>)
    requires Unlinked(m, changes) && StagesNoLinkAbove(changes) && c in changes
    ensures Unlinked(ApplyOne(m, workspace, c, fault).tree, changes)
  {
    var after := ApplyOne(m, workspace, c, fault).tree;
    forall d, a | d in changes && a in Ancestors(d.path) ensures !IsLink(after, a) {
      assert !IsLink(m, a);
    }
  }

  lemma {:induction false} ApplyStaysUnlinked(t: Tree, workspace: Manifest, all: seq<Change>, n: nat,
    fault: Option<Fault>)
    requires n <= |all| && Unlinked(t, all) && StagesNoLinkAbove(all)
    ensures Unlinked(ApplyAll(t, workspace, all[..n], fault).tree, all)
  {
    if n > 0 {
      assert all[..n][..n - 1] == all[..n - 1] && all[..n][n - 1] == all[n - 1];
      ApplyStaysUnlinked(t, workspace, all, n - 1, fault);
      var front := ApplyAll(t, workspace, all[..n - 1], fault);
      ApplyOneUnlinked(front.tree, workspace, all, all[n - 1], FaultOf(fault, n - 1));
    }
  }

  /** No changed path lies below a link, of the tree or of the change list itself. */
  ghost predicate ClearOfLinks(t: Tree, changes: seq<Change>) {
    Unlinked(t, changes) && StagesNoLinkAbove(changes)
  }

  lemma RollbackIsPlain(t: Tree, workspace: Manifest, changes: seq<Change>, fault: Option<Fault>, again: Option<nat>)
    requires WellFormed(t) && NoDrift(t, changes) && ClearOfLinks(t, changes)
    ensures var m := ApplyAll(t, workspace, changes, fault).tree; var snapshot := TakeSnapshot(t, changes);
      Restore(m, snapshot, changes, again) == PlainRestore(m, snapshot, changes, again)
  {
    ApplyTouches(t, workspace, changes, fault);
    ApplyStaysUnlinked(t, workspace, changes, |changes|, fault);
    assert changes[..|changes|] == changes;
    SnapshotIsPlain(t, changes);
    RestoreIsPlain(ApplyAll(t, workspace, changes, fault).tree, TakeSnapshot(t, changes), changes, again);
  }

  /** Part way through the rollback: only the changes in `rest` are still to be undone. */
  ghost predicate HalfRestored(t: Tree, dirs: set<Path>, rest: seq<Change>, x: Tree) {
    && x.dirs == dirs && x.around == t.around
    && forall p :: p !in Paths(rest) ==> Lookup(x.files, p) == Lookup(t.files, p)
  }

  lemma RestoreOneStep(t: Tree, dirs: set<Path>, snapshot: Snapshot, rest: seq<Change>, c: Change, x: Tree)
    requires WellFormed(t) && t.dirs <= dirs && Paths(rest + [c]) !! dirs
    requires HalfRestored(t, dirs, rest + [c], x)
    requires Saved(snapshot, c.path) == Lookup(t.files, c.path)
    ensures PlainRestoreOne(x, snapshot, c).Done? && HalfRestored(t, dirs, rest, PlainRestoreOne(x, snapshot, c).tree)
  {
    assert c in rest + [c];
    assert Paths(rest + [c]) == Paths(rest) + {c.path};
    forall a | a in Ancestors(c.path) && c.path in t.files ensures a in dirs && a !in x.files {
      assert a in t.dirs;
      assert Lookup(x.files, a) == Lookup(t.files, a);
    }
    var r := PlainRestoreOne(x, snapshot, c);
    if Saved(snapshot, c.path).Some? {
      assert c.path in t.files;
      assert x.dirs + Ancestors(c.path) == x.dirs;
    }
    forall p | p !in Paths(rest) ensures Lookup(r.tree.files, p) == Lookup(t.files, p) {
      if p != c.path { assert p !in Paths(rest + [c]); }
    }
  }

  lemma {:induction false} RestoreAllWorks(t: Tree, dirs: set<Path>, snapshot: Snapshot, changes: seq<Change>, x: Tree)
    requires WellFormed(t) && t.dirs <= dirs && Paths(changes) !! dirs
    requires HalfRestored(t, dirs, changes, x)
    requires forall c :: c in changes ==> Saved(snapshot, c.path) == Lookup(t.files, c.path)
    ensures PlainRestoreAll(x, snapshot, changes, None) == Done(t.(dirs := dirs))
    decreases |changes|
  {
    if changes == [] {
      assert Differing(x.files, t.files) == {};
      SameLookups(x.files, t.files);
    } else {
      var k := |changes| - 1;
      assert changes == changes[..k] + [changes[k]];
      RestoreOneStep(t, dirs, snapshot, changes[..k], changes[k], x);
      assert Paths(changes[..k]) <= Paths(changes);
      RestoreAllWorks(t, dirs, snapshot, changes[..k], PlainRestoreOne(x, snapshot, changes[k]).tree);
    }
  }

  lemma {:induction false} MakeParentsKeepsDirs(t: Tree, parts: seq<string>, depth: nat, cut: Option<nat>)
    requires depth < |parts|
    ensures t.dirs <= MakeParents(t, parts, depth, cut).tree.dirs
  {
    if depth > 0 {
      MakeParentsKeepsDirs(t, parts, depth - 1, cut);
    }
  }

  lemma RestoreOneKeeps(x: Tree, snapshot: Snapshot, c: Change)
    requires WellFormed(x)
    ensures WellFormed(RestoreOne(x, snapshot, c).tree) && x.dirs <= RestoreOne(x, snapshot, c).tree.dirs
  {
    RemoveKeepsForm(x, c.path);
    if Saved(snapshot, c.path).Some? {
      InstallKeepsForm(x, c.path, Saved(snapshot, c.path).value, None);
      MakeParentsKeepsDirs(x, Split(c.path), |Split(c.path)| - 1, None);
    }
  }

  lemma RestoreOneStops(x: Tree, snapshot: Snapshot, c: Change)
    requires WellFormed(x) && c.path in x.dirs
    ensures RestoreOne(x, snapshot, c).Failed?
  {
    HeldIsNotBelowLink(x, c.path);
    RemoveIsPlain(x, c.path);
    if Saved(snapshot, c.path).Some? {
      InstallIsPlain(x, c.path, Saved(snapshot, c.path).value, None);
    }
  }

  /** Neither `unlink` nor `os.replace` gets past a directory, and the first loop removes none. */
  lemma {:induction false} RestoreAllStops(snapshot: Snapshot, changes: seq<Change>, c: Change, x: Tree,
    fault: Option<nat>)
    requires WellFormed(x) && c in changes && c.path in x.dirs
    ensures RestoreAll(x, snapshot, changes, fault).Failed?
    decreases |changes|
  {
    var k := |changes| - 1;
    if fault != Some(k) {
      var r := RestoreOne(x, snapshot, changes[k]);
      RestoreAllTurn(x, snapshot, changes, fault, r);
      if changes[k] == c {
        RestoreOneStops(x, snapshot, c);
      } else {
        RestoreOneKeeps(x, snapshot, changes[k]);
        RestoreAllStops(snapshot, changes[..k], c, r.tree, fault);
      }
    }
  }

  lemma CleanupRemovesOnlyNew(t: Tree, dirs: set<Path>, changes: seq<Change>)
    requires WellFormed(t) && t.dirs <= dirs <= t.dirs + AncestorsOf(changes)
    ensures Cleaned(t.(dirs := dirs), AncestorsOf(changes) - AncestorsOf(changes) * t.dirs) == t
  {
    var candidates := AncestorsOf(changes) - AncestorsOf(changes) * t.dirs;
    var before := t.(dirs := dirs);
    forall d | d in dirs ensures Removable(before, candidates, d) <==> d !in t.dirs {
    }
    assert Cleaned(before, candidates).dirs == t.dirs;
  }

  /** Where a changed path has become a directory, the rollback raises. */
  lemma BlockedRollback(t: Tree, workspace: Manifest, changes: seq<Change>, fault: Option<Fault>, c: Change)
    requires WellFormed(t) && c in changes && c.path in ApplyAll(t, workspace, changes, fault).tree.dirs
    ensures Restore(ApplyAll(t, workspace, changes, fault).tree, TakeSnapshot(t, changes), changes, None).Failed?
  {
    ApplyTouches(t, workspace, changes, fault);
    RestoreAllStops(TakeSnapshot(t, changes), changes, c, ApplyAll(t, workspace, changes, fault).tree, None);
  }

  /**
    However far an interrupted apply got, the rollback is exact or it raises, as long as no
    changed path lies below a link.
   */
  lemma ExactRollback(t: Tree, workspace: Manifest, changes: seq<Change>, fault: Option<Fault>)
    requires WellFormed(t) && NoDrift(t, changes) && ClearOfLinks(t, changes)
    ensures var m := ApplyAll(t, workspace, changes, fault).tree;
      var r := Restore(m, TakeSnapshot(t, changes), changes, None);
      && (r == Done(t) <==> Paths(changes) !! m.dirs)
      && (r.Done? <==> Paths(changes) !! m.dirs)
  {
    var m := ApplyAll(t, workspace, changes, fault).tree;
    var snapshot := TakeSnapshot(t, changes);
    ApplyTouches(t, workspace, changes, fault);
    SnapshotIsPlain(t, changes);
    RollbackIsPlain(t, workspace, changes, fault, None);
    if Paths(changes) !! m.dirs {
      RestoreAllWorks(t, m.dirs, snapshot, changes, m);
      CleanupRemovesOnlyNew(t, m.dirs, changes);
    } else {
      var c :| c in changes && c.path in m.dirs;
      BlockedRollback(t, workspace, changes, fault, c);
    }
  }

  ghost predicate NoNesting(changes: seq<Change>) {
    forall c, d :: c in changes && d in changes ==> !IsAncestor(c.path, d.path)
  }

  lemma WithoutNesting(changes: seq<Change>)
    requires NoNesting(changes)
    ensures StagesNoLinkAbove(changes)
    ensures Paths(changes) !! AncestorsOf(changes)
  {
  }

  /** Without a changed path above another or below a link, every interrupted apply is rolled back exactly. */
  lemma RollbackWithoutNesting(t: Tree, workspace: Manifest, changes: seq<Change>, fault: Option<Fault>)
    requires WellFormed(t) && NoDrift(t, changes) && NoNesting(changes) && Unlinked(t, changes)
    ensures Restore(ApplyAll(t, workspace, changes, fault).tree, TakeSnapshot(t, changes), changes, None) == Done(t)
  {
    WithoutNesting(changes);
    UndriftedIsClearOf(t, changes);
    ApplyTouches(t, workspace, changes, fault);
    ExactRollback(t, workspace, changes, fault);
  }

  lemma {:induction false} RestoreAllFaultRaises(x: Tree, snapshot: Snapshot, changes: seq<Change>, fault: nat)
    requires fault < |changes|
    ensures RestoreAll(x, snapshot, changes, Some(fault)).Failed?
    decreases |changes|
  {
    var k := |changes| - 1;
    if fault != k {
      var r := RestoreOne(x, snapshot, changes[k]);
      RestoreAllTurn(x, snapshot, changes, Some(fault), r);
      RestoreAllFaultRaises(r.tree, snapshot, changes[..k], fault);
    }
  }

  /** A rollback that the disk disturbs raises. */
  lemma RestoreFaultRaises(x: Tree, snapshot: Snapshot, changes: seq<Change>, fault: nat)
    ensures Restore(x, snapshot, changes, Some(fault)).Failed?
  {
    if fault < |changes| {
      RestoreAllFaultRaises(x, snapshot, changes, fault);
    }
  }

  /** Such a rollback never reports success with anything but the earlier tree. */
  lemma RollbackIsExactOrRaises(t: Tree, workspace: Manifest, changes: seq<Change>, fault: Option<Fault>,
    again: Option<nat>)
    requires WellFormed(t) && NoDrift(t, changes) && ClearOfLinks(t, changes)
    ensures var r := Restore(ApplyAll(t, workspace, changes, fault).tree, TakeSnapshot(t, changes), changes, again);
      r.Done? ==> r.tree == t
  {
    if again.Some? {
      RestoreFaultRaises(ApplyAll(t, workspace, changes, fault).tree, TakeSnapshot(t, changes), changes, again.value);
    } else {
      ExactRollback(t, workspace, changes, fault);
    }
  }
}
