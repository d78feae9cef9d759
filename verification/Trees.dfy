/**
  Merging a change list into the project (`artifact_staging.py`: `_apply_changes` and the
  drift check before it), as functions from trees to trees; `ProjectTree.dfy` holds the
  source's loops.
 */
module Trees {
  import opened Wrappers
  import opened Ordering
  import opened Manifests
  import opened Places
  import opened PathLookup
  import opened Links
  import opened Entries

  function AncestorsOf(changes: seq<Change>): (r: set<Path>) {
    set c, a | c in changes && a in Ancestors(c.path) :: a
  }

  // ----- Drift -----

  /** What `_require_no_canonical_drift` establishes, change by change; a directory makes it raise as well. */
  predicate NoDriftAt(t: Tree, c: Change) {
    Observed(t, c.path) == if c.baseline.Some? then Leaf(c.baseline.value) else Nothing
  }

  predicate NoDrift(t: Tree, changes: seq<Change>) {
    forall c :: c in changes ==> NoDriftAt(t, c)
  }

  /** Where no link is above a path, drift is a matter of the path alone. */
  lemma DriftIsPlain(t: Tree, c: Change)
    requires WellFormed(t) && !CrossesSymlink(t, c.path)
    ensures NoDriftAt(t, c) <==> c.path !in t.dirs && Lookup(t.files, c.path) == c.baseline
  {
    ObservedPlain(t, c.path);
  }

  lemma UndriftedIsClear(t: Tree, c: Change)
    requires WellFormed(t) && NoDriftAt(t, c)
    ensures c.path !in t.dirs
  {
    if c.path in t.dirs {
      HeldIsNotBelowLink(t, c.path);
      DriftIsPlain(t, c);
    }
  }

  lemma UndriftedIsClearOf(t: Tree, changes: seq<Change>)
    requires WellFormed(t) && NoDrift(t, changes)
    ensures Paths(changes) !! t.dirs
  {
    forall c | c in changes ensures c.path !in t.dirs {
      UndriftedIsClear(t, c);
    }
  }

  // ----- Applying a change list -----

  predicate Installs(c: Change) {
    c.operation != Delete
  }

  /** What installing a change writes: the link it names, or the content the workspace has now. */
  function Written(workspace: Manifest, c: Change): Option<Entry> {
    match c.staged
    case None => None
    case Some(Symlink(sha, mode, target)) => Some(Symlink(sha, mode, target))
    case Some(File(sha, mode)) =>
      if c.path in workspace && workspace[c.path].File? then Some(File(workspace[c.path].sha256, mode)) else None
  }

  /**
    One turn of the loop of `_apply_changes`; `fault` is a failure of the disk during it.
    Once the parents are checked no link is on the way, and the operations are the plain ones.
   */
  function ApplyOne(t: Tree, workspace: Manifest, c: Change, fault: Option<nat>): Outcome {
    if CrossesSymlink(t, c.path) then Failed(t)
    else if c.operation == Delete then
      if fault.Some? then Failed(t) else PlainRemove(t, c.path)
    else if c.staged.None? || !LinkAllowed(t.around, t.files, c.path, c.staged.value) then Failed(t)
    else if fault.Some? then PlainInstall(t, c.path, c.staged.value, fault)
    else if Written(workspace, c).None? then PlainInstall(t, c.path, c.staged.value, Some(|c.path|))
    else PlainInstall(t, c.path, Written(workspace, c).value, None)
  }

  /** A disk failure: at which change, and how far its parents had been made. */
  datatype Fault = Fault(at: nat, cut: nat)

  function FaultOf(fault: Option<Fault>, k: nat): Option<nat> {
    if fault.Some? && fault.value.at == k then Some(fault.value.cut) else None
  }

  /** `_apply_changes` */
  function ApplyAll(t: Tree, workspace: Manifest, changes: seq<Change>, fault: Option<Fault>): Outcome {
    if changes == [] then Done(t)
    else
      var k := |changes| - 1;
      match ApplyAll(t, workspace, changes[..k], fault)
      case Failed(m) => Failed(m)
      case Done(m) => ApplyOne(m, workspace, changes[k], FaultOf(fault, k))
  }

  lemma {:induction false} FailedApplyStays(t: Tree, workspace: Manifest, changes: seq<Change>, k: nat,
    fault: Option<Fault>)
    requires k <= |changes| && ApplyAll(t, workspace, changes[..k], fault).Failed?
    ensures ApplyAll(t, workspace, changes, fault) == ApplyAll(t, workspace, changes[..k], fault)
    decreases |changes|
  {
    if k == |changes| {
      assert changes[..k] == changes;
    } else {
      var n := |changes| - 1;
      assert changes[..n][..k] == changes[..k];
      FailedApplyStays(t, workspace, changes[..n], k, fault);
    }
  }

  // ----- What applying can touch -----

  /** `m` is `t` but for the changed paths and directories made above them. */
  ghost predicate Touched(t: Tree, changes: seq<Change>, m: Tree) {
    && WellFormed(m) && m.around == t.around
    && (forall p :: p !in Paths(changes) ==> Lookup(m.files, p) == Lookup(t.files, p))
    && t.dirs <= m.dirs
    && m.dirs <= t.dirs + AncestorsOf(changes)
  }

  lemma PlainInstallKeeps(t: Tree, path: Path, entry: Entry, cut: Option<nat>)
    requires WellFormed(t)
    ensures var m := PlainInstall(t, path, entry, cut).tree;
      && WellFormed(m) && m.around == t.around && t.dirs <= m.dirs <= t.dirs + Ancestors(path)
      && forall p :: p != path ==> Lookup(m.files, p) == Lookup(t.files, p)
  {
    var m := PlainInstall(t, path, entry, cut).tree;
    forall p, a | (p in m.files || p in m.dirs) && IsAncestor(a, p) ensures a in m.dirs {
      if p in Ancestors(path) {
        AncestorsOfAncestor(a, p, path);
      }
    }
    if path in m.files && path !in t.files {
      forall p | p in Ancestors(path) ensures p != path { AncestorIsLess(p, path); }
    }
  }

  lemma InstallTouches(t: Tree, c: Change, entry: Entry, cut: Option<nat>)
    requires WellFormed(t)
    ensures Touched(t, [c], PlainInstall(t, c.path, entry, cut).tree)
  {
    PlainInstallKeeps(t, c.path, entry, cut);
    assert c in [c];
    assert Ancestors(c.path) <= AncestorsOf([c]);
    assert c.path in Paths([c]);
  }

  lemma ApplyOneTouches(t: Tree, workspace: Manifest, c: Change, fault: Option<nat>)
    requires WellFormed(t)
    ensures Touched(t, [c], ApplyOne(t, workspace, c, fault).tree)
  {
    if Installs(c) && c.staged.Some? {
      InstallTouches(t, c, c.staged.value, fault);
      InstallTouches(t, c, c.staged.value, Some(|c.path|));
      if Written(workspace, c).Some? {
        InstallTouches(t, c, Written(workspace, c).value, None);
      }
    } else {
      assert c in [c] && c.path in Paths([c]);
    }
  }

  lemma TouchedTransitive(t: Tree, front: seq<Change>, m: Tree, c: Change, n: Tree)
    requires Touched(t, front, m) && Touched(m, [c], n)
    ensures Touched(t, front + [c], n)
  {
    assert forall x :: x in front + [c] <==> x in front || x == c;
    assert Paths(front + [c]) == Paths(front) + Paths([c]);
    assert AncestorsOf(front + [c]) == AncestorsOf(front) + AncestorsOf([c]);
  }

  lemma {:induction false} ApplyTouches(t: Tree, workspace: Manifest, changes: seq<Change>, fault: Option<Fault>)
    requires WellFormed(t)
    ensures Touched(t, changes, ApplyAll(t, workspace, changes, fault).tree)
  {
    if changes != [] {
      var k := |changes| - 1;
      var front := ApplyAll(t, workspace, changes[..k], fault);
      ApplyTouches(t, workspace, changes[..k], fault);
      assert changes == changes[..k] + [changes[k]];
      ApplyOneTouches(front.tree, workspace, changes[k], FaultOf(fault, k));
      TouchedTransitive(t, changes[..k], front.tree, changes[k],
        if front.Done? then ApplyOne(front.tree, workspace, changes[k], FaultOf(fault, k)).tree else front.tree);
    }
  }

  /** At a changed path there is nothing, the staged link, or the content that the workspace has now. */
  predicate IsWritten(workspace: Manifest, c: Change, m: Manifest) {
    if c.operation == Delete then c.path !in m
    else
      && c.staged.Some? && c.path in m
      && match c.staged.value
         case Symlink(_, _, _) => m[c.path] == c.staged.value
         case File(_, mode) =>
           && c.path in workspace && workspace[c.path].File?
           && m[c.path] == File(workspace[c.path].sha256, mode)
  }

  lemma ApplyOneWrites(t: Tree, workspace: Manifest, c: Change, fault: Option<nat>)
    requires ApplyOne(t, workspace, c, fault).Done?
    ensures IsWritten(workspace, c, ApplyOne(t, workspace, c, fault).tree.files)
  {
  }

  /** What a completed apply leaves at each changed path, whatever the workspace holds by then. */
  lemma {:induction false} ApplyWrites(t: Tree, workspace: Manifest, changes: seq<Change>, fault: Option<Fault>,
    c: Change)
    requires WellFormed(t) && InOrder(changes) && c in changes && ApplyAll(t, workspace, changes, fault).Done?
    ensures IsWritten(workspace, c, ApplyAll(t, workspace, changes, fault).tree.files)
  {
    var k := |changes| - 1;
    var front := ApplyAll(t, workspace, changes[..k], fault);
    var last := changes[k];
    ApplyTouches(t, workspace, changes[..k], fault);
    ApplyOneWrites(front.tree, workspace, last, FaultOf(fault, k));
    if c in changes[..k] {
      ApplyWrites(t, workspace, changes[..k], fault, c);
      ApplyOneTouches(front.tree, workspace, last, FaultOf(fault, k));
      LessIsTotal(c.path, last.path);
      assert c.path !in Paths([last]);
      var after := ApplyOne(front.tree, workspace, last, FaultOf(fault, k)).tree.files;
      assert Lookup(after, c.path) == Lookup(front.tree.files, c.path);
    }
  }

  // ----- When applying succeeds, and what it leaves -----

  /** The workspace still holds, at every installed path, what was sealed. */
  predicate StillSealed(workspace: Manifest, changes: seq<Change>) {
    forall c :: c in changes && Installs(c) ==> Written(workspace, c) == c.staged
  }

  /** No file will stand above an installed path, and no link above a deleted one. */
  ghost predicate Placeable(result: Manifest, c: Change) {
    forall a :: a in Ancestors(c.path) && a in result ==> !Installs(c) && result[a].File?
  }

  ghost predicate AllPlaceable(result: Manifest, changes: seq<Change>) {
    forall c :: c in changes ==> Placeable(result, c)
  }

  /** If the change installs a link, it stays inside the project as the files are then. */
  predicate LinkStays(around: Around, files: Manifest, c: Change) {
    Installs(c) && c.staged.Some? ==> LinkAllowed(around, files, c.path, c.staged.value)
  }

  /** Each staged link stays inside when its turn comes. */
  ghost predicate LinksStay(around: Around, files: Manifest, changes: seq<Change>) {
    changes == [] ||
      var k := |changes| - 1;
      LinksStay(around, files, changes[..k]) && LinkStays(around, Overlay(files, changes[..k]), changes[k])
  }

  ghost function InstalledParents(changes: seq<Change>): set<Path> {
    set c, a | c in changes && Installs(c) && a in Ancestors(c.path) :: a
  }

  ghost predicate Applicable(t: Tree, workspace: Manifest, changes: seq<Change>) {
    && WellFormed(t) && InOrder(changes) && Paths(changes) !! t.dirs && StillSealed(workspace, changes)
    && forall c :: c in changes ==> Consistent(c)
  }

  lemma ApplicablePrefix(t: Tree, workspace: Manifest, changes: seq<Change>, k: nat)
    requires Applicable(t, workspace, changes) && k <= |changes|
    ensures Applicable(t, workspace, changes[..k])
  {
    assert forall c :: c in changes[..k] ==> c in changes;
    assert Paths(changes[..k]) <= Paths(changes);
  }

  /** A parent is decided before the path below it is reached: parents come first in order. */
  lemma ParentsAreDecided(m: Manifest, changes: seq<Change>, k: nat, a: Path)
    requires InOrder(changes) && k < |changes| && IsAncestor(a, changes[k].path)
    ensures Lookup(Overlay(m, changes), a) == Lookup(Overlay(m, changes[..k]), a)
    decreases |changes|
  {
    var n := |changes| - 1;
    AncestorIsLess(a, changes[k].path);
    if k < n {
      assert Less(a, changes[n].path) by { LessIsTransitive(a, changes[k].path, changes[n].path); }
      assert changes[..n][..k] == changes[..k];
      ParentsAreDecided(m, changes[..n], k, a);
    }
    LessIsTotal(a, changes[n].path);
  }

  lemma InstallOne(m: Tree, workspace: Manifest, c: Change, result: Manifest)
    requires Installs(c) && c.staged.Some? && Written(workspace, c) == c.staged && c.path !in m.dirs
    requires forall a :: a in Ancestors(c.path) ==> Lookup(m.files, a) == Lookup(result, a)
    requires result == Put(m.files, c.path, c.staged)
    ensures ApplyOne(m, workspace, c, None).Done? <==> Placeable(result, c) && LinkStays(m.around, m.files, c)
    ensures ApplyOne(m, workspace, c, None).Done? ==>
      ApplyOne(m, workspace, c, None).tree == m.(files := result, dirs := m.dirs + Ancestors(c.path))
  {
  }

  lemma DeleteOne(m: Tree, workspace: Manifest, c: Change, result: Manifest)
    requires !Installs(c) && c.staged.None? && c.path !in m.dirs
    requires forall a :: a in Ancestors(c.path) ==> Lookup(m.files, a) == Lookup(result, a)
    requires result == Put(m.files, c.path, c.staged)
    ensures ApplyOne(m, workspace, c, None).Done? <==> Placeable(result, c)
    ensures ApplyOne(m, workspace, c, None).Done? ==> ApplyOne(m, workspace, c, None).tree == m.(files := result)
  {
    if c.path !in m.files {
      assert result == m.files;
    }
    forall a | a in Ancestors(c.path) ensures IsLink(m, a) <==> a in result && result[a].Symlink? {
      assert Lookup(m.files, a) == Lookup(result, a);
    }
  }

  lemma NotADirectory(t: Tree, changes: seq<Change>, m: Tree)
    requires changes != [] && InOrder(changes) && Paths(changes) !! t.dirs
    requires m.dirs <= t.dirs + AncestorsOf(changes[..|changes| - 1])
    ensures changes[|changes| - 1].path !in m.dirs
  {
    var c := changes[|changes| - 1];
    assert c.path in Paths(changes);
    if c.path in AncestorsOf(changes[..|changes| - 1]) {
      var d :| d in changes[..|changes| - 1] && c.path in Ancestors(d.path);
      AncestorIsLess(c.path, d.path);
      LessIsTotal(c.path, d.path);
    }
  }

  lemma ApplyOneSucceeds(t: Tree, workspace: Manifest, changes: seq<Change>, m: Tree)
    requires changes != [] && Applicable(t, workspace, changes)
    requires Touched(t, changes[..|changes| - 1], m)
    requires m.files == Overlay(t.files, changes[..|changes| - 1])
    ensures var c := changes[|changes| - 1]; var r := ApplyOne(m, workspace, c, None);
      && (r.Done? <==> Placeable(Overlay(t.files, changes), c) && LinkStays(t.around, m.files, c))
      && (r.Done? ==> r.tree == m.(files := Overlay(t.files, changes), dirs := m.dirs + InstalledParents([c])))
  {
    var k := |changes| - 1;
    var c := changes[k];
    assert c in changes;
    NotADirectory(t, changes, m);
    forall a | a in Ancestors(c.path) ensures Lookup(m.files, a) == Lookup(Overlay(t.files, changes), a) {
      ParentsAreDecided(t.files, changes, k, a);
    }
    if Installs(c) {
      InstallOne(m, workspace, c, Overlay(t.files, changes));
      assert InstalledParents([c]) == Ancestors(c.path);
    } else {
      assert InstalledParents([c]) == {};
      DeleteOne(m, workspace, c, Overlay(t.files, changes));
    }
  }

  lemma PlaceableLater(m: Manifest, changes: seq<Change>, c: Change)
    requires changes != [] && InOrder(changes) && c in changes[..|changes| - 1]
    ensures Placeable(Overlay(m, changes), c) <==> Placeable(Overlay(m, changes[..|changes| - 1]), c)
  {
    var k :| 0 <= k < |changes| - 1 && changes[k] == c;
    forall a | a in Ancestors(c.path)
      ensures Lookup(Overlay(m, changes), a) == Lookup(Overlay(m, changes[..|changes| - 1]), a)
    {
      ParentsAreDecided(m, changes, k, a);
      ParentsAreDecided(m, changes[..|changes| - 1], k, a);
      assert changes[..|changes| - 1][..k] == changes[..k];
    }
  }

  lemma {:induction false} ApplySucceeds(t: Tree, workspace: Manifest, changes: seq<Change>)
    requires Applicable(t, workspace, changes)
    ensures var r := ApplyAll(t, workspace, changes, None);
      && (r.Done? <==> AllPlaceable(Overlay(t.files, changes), changes) && LinksStay(t.around, t.files, changes))
      && (r.Done? ==> r.tree == t.(files := Overlay(t.files, changes), dirs := t.dirs + InstalledParents(changes)))
  {
    if changes != [] {
      var k := |changes| - 1;
      assert changes == changes[..k] + [changes[k]];
      ApplicablePrefix(t, workspace, changes, k);
      ApplySucceeds(t, workspace, changes[..k]);
      ApplyTouches(t, workspace, changes[..k], None);
      var front := ApplyAll(t, workspace, changes[..k], None);
      forall c | c in changes[..k]
        ensures Placeable(Overlay(t.files, changes), c) <==> Placeable(Overlay(t.files, changes[..k]), c)
      {
        PlaceableLater(t.files, changes, c);
      }
      if front.Done? {
        ApplyOneSucceeds(t, workspace, changes, front.tree);
        assert InstalledParents(changes) == InstalledParents(changes[..k]) + InstalledParents([changes[k]]);
      }
    } else {
      assert InstalledParents(changes) == {};
    }
  }
}
