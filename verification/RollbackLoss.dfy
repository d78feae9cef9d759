/** A refused promotion whose rollback, going through a link, removes a file it has nothing to do with. */
module RollbackLoss {
  import opened Wrappers
  import opened Strings
  import opened Ordering
  import opened Manifests
  import opened Places
  import opened PathLookup
  import opened Links
  import opened Entries
  import opened Trees
  import opened Rollback
  import opened Promotions
  import opened LinkCases

  const TO_F := Symlink("3", 511, "f")
  const TO_B := Symlink("4", 511, "b")
  const ABSOLUTE := Symlink("5", 511, "/x")
  const KEPT := File("6", 420)
  const PLANNED := File("7", 420)

  /** "d" leads to "b", "b" to the empty directory "e", and directory "f" holds a file. */
  function Chained(around: Around): Tree {
    Tree(map["b" := TO_E, "d" := TO_B, "f/x" := KEPT], {"e", "f"}, around)
  }

  /** "b" is turned to "f", "d" becomes a directory, and an absolute link "c" is added. */
  const REPLACED: Manifest := map["b" := TO_F, "c" := ABSOLUTE, "d/x" := PLANNED, "f/x" := KEPT]

  /** The differences, in order. */
  ghost predicate IsChangeList(changes: seq<Change>) {
    && |changes| == 4
    && changes[0].path == "b" && changes[0].operation == Modify && changes[0].staged == Some(TO_F)
    && changes[1].path == "c" && changes[1].operation == Add && changes[1].staged == Some(ABSOLUTE)
    && changes[2].path == "d" && changes[2].operation == Delete
    && changes[3].path == "d/x" && changes[3].operation == Add
  }

  lemma SortedNames()
    ensures Sorted({"b", "c", "d", "d/x"}) == ["b", "c", "d", "d/x"]
  {
    assert "d/x"[..1] == "d";
    assert Less("d", "d/x") by {
      PrefixIsLess("d", "d/x");
    }
    assert Less("b", "c") && Less("b", "d") && Less("b", "d/x") && Less("c", "d") && Less("c", "d/x");
    SortedIsUnique(Sorted({"b", "c", "d", "d/x"}), ["b", "c", "d", "d/x"]);
  }

  lemma TheDifferences(around: Around)
    ensures Differing(Chained(around).files, REPLACED) == {"b", "c", "d", "d/x"}
  {
  }

  lemma ListOfFour(files: Manifest, entries: Manifest)
    requires Differing(files, entries) == {"b", "c", "d", "d/x"}
    ensures |Diff(files, entries)| == 4
    ensures Diff(files, entries)[0] == ChangeAt(files, entries, "b")
    ensures Diff(files, entries)[1] == ChangeAt(files, entries, "c")
    ensures Diff(files, entries)[2] == ChangeAt(files, entries, "d")
    ensures Diff(files, entries)[3] == ChangeAt(files, entries, "d/x")
  {
    SortedNames();
  }

  lemma TheChanges(around: Around)
    ensures IsChangeList(Diff(Chained(around).files, REPLACED))
    ensures Differing(Chained(around).files, REPLACED) == {"b", "c", "d", "d/x"}
  {
    TheDifferences(around);
    ListOfFour(Chained(around).files, REPLACED);
  }

  lemma ChainedIsTree(around: Around)
    ensures WellFormed(Chained(around)) && PrefixFree(REPLACED)
  {
    assert "d" + "/" + "x" == "d/x" && "f" + "/" + "x" == "f/x";
    forall a ensures IsAncestor(a, "d/x") ==> a == "d" {
      OneSlash("d", "x", a);
    }
    forall a ensures IsAncestor(a, "f/x") ==> a == "f" {
      OneSlash("f", "x", a);
    }
    forall a ensures !IsAncestor(a, "b") && !IsAncestor(a, "c") && !IsAncestor(a, "d") {
      OneSlash("b", "x", a);
      OneSlash("c", "x", a);
      OneSlash("d", "x", a);
    }
    forall a ensures !IsAncestor(a, "e") && !IsAncestor(a, "f") {
      OneSlash("e", "x", a);
      OneSlash("f", "x", a);
    }
  }

  /** "d" leads to "b" and "b" to a directory. */
  ghost predicate LeadsTo(t: Tree, directory: string) {
    && IsLink(t, "d") && t.files["d"].target == "b" && IsLink(t, "b") && t.files["b"].target == directory
    && IsTopName(directory) && directory in t.dirs && directory !in t.files
  }

  lemma EnterChain(t: Tree, directory: string)
    requires LeadsTo(t, directory)
    ensures Enter(t, t.around.root, "d", {}).0 == Some(t.around.root + [directory])
  {
    EnterLink(t, "d", "b", {});
    EnterLink(t, "b", directory, {} + {Inside("d")});
    EnterTop(t, directory, {} + {Inside("d")} + {Inside("b")});
  }

  lemma SeenThroughChain(t: Tree, directory: string)
    requires LeadsTo(t, directory)
    ensures Locate(t, "d/x").Some? && SpotAt(t.around.root, Locate(t, "d/x").value) == Inside(directory + "/" + "x")
    ensures Observed(t, "d/x") == NodeOf(t, Inside(directory + "/" + "x"))
    ensures DirectoryAt(t, "d").Some?
  {
    EnterChain(t, directory);
    SeenBelow(t, "d", directory, "x");
    TwoSpot(t, directory, "x");
    assert "d" + "/" + "x" == "d/x";
    SplitName("d");
    assert ["d"][..0] == [];
  }

  // ----- The apply stops at the absolute link -----

  lemma TopHasNoParents(t: Tree, name: string)
    requires '/' !in name
    ensures Ancestors(name) == {} && !CrossesSymlink(t, name) && !ParentBlocked(t, name)
  {
    forall a ensures !IsAncestor(a, name) {
      OneSlash(name, name, a);
    }
  }

  lemma LinkBesideStays(t: Tree, name: string, target: string, e: Entry)
    requires IsTopName(target) && '/' !in name && target !in t.files && e.Symlink? && e.target == target
    ensures LinkAllowed(t.around, t.files, name, e)
  {
    SplitName(name);
    SplitName(target);
    TopSpot(t, target);
    assert t.around.root + [name][..0] == t.around.root && [target] + [] == [target];
    assert target[0] in target;
    WalkPastName(t.around, t.files, t.around.root, target, [], {});
  }

  /** The tree at which the apply stops. */
  function Turned(t: Tree): Tree {
    t.(files := t.files["b" := TO_F])
  }

  lemma FirstApplies(t: Tree, changes: seq<Change>)
    requires IsChangeList(changes) && "f" !in t.files && "b" !in t.dirs
    ensures ApplyOne(t, REPLACED, changes[0], None) == Done(Turned(t))
  {
    TopHasNoParents(t, "b");
    LinkBesideStays(t, "b", "f", TO_F);
    assert t.dirs + Ancestors("b") == t.dirs;
  }

  lemma SecondIsRefused(m: Tree, changes: seq<Change>)
    requires IsChangeList(changes)
    ensures ApplyOne(m, REPLACED, changes[1], None) == Failed(m)
  {
  }

  lemma ApplyStops(t: Tree, changes: seq<Change>)
    requires IsChangeList(changes) && "f" !in t.files && "b" !in t.dirs
    ensures ApplyAll(t, REPLACED, changes, None) == Failed(Turned(t))
  {
    FirstApplies(t, changes);
    SecondIsRefused(Turned(t), changes);
    assert changes[..1][..0] == [];
    assert changes[..2][..1] == changes[..1];
    assert ApplyAll(t, REPLACED, changes[..1], None) == Done(Turned(t));
    FailedApplyStays(t, REPLACED, changes, 2, None);
  }

  // ----- The rollback -----

  /** What the snapshot has to hold. */
  ghost predicate IsSnapshot(snapshot: Snapshot) {
    && Saved(snapshot, "b") == Some(TO_E) && Saved(snapshot, "c") == None
    && Saved(snapshot, "d") == Some(TO_B) && Saved(snapshot, "d/x") == None && "d" in snapshot.existing
  }

  lemma RestoreTop(t: Tree, snapshot: Snapshot, c: Change)
    requires WellFormed(t) && '/' !in c.path && c.path !in t.dirs
    ensures RestoreOne(t, snapshot, c) == Done(t.(files := Put(t.files, c.path, Saved(snapshot, c.path))))
  {
    TopHasNoParents(t, c.path);
    RemoveIsPlain(t, c.path);
    var saved := Saved(snapshot, c.path);
    if saved.Some? {
      InstallIsPlain(t, c.path, saved.value, None);
      assert t.dirs + Ancestors(c.path) == t.dirs;
    } else if c.path !in t.files {
      assert t.files - {c.path} == t.files;
    }
  }

  /** Below the turned link another file is found, and removed. */
  lemma RestoreBelow(m: Tree, snapshot: Snapshot, c: Change)
    requires LeadsTo(m, "f") && "f/x" in m.files && c.path == "d/x" && Saved(snapshot, c.path) == None
    ensures RestoreOne(m, snapshot, c) == Done(m.(files := m.files - {"f/x"}))
  {
    SeenThroughChain(m, "f");
    assert "f" + "/" + "x" == "f/x";
  }

  lemma RestoreStep(t: Tree, snapshot: Snapshot, changes: seq<Change>, k: nat, m: Tree)
    requires k < |changes| && RestoreOne(t, snapshot, changes[k]) == Done(m)
    ensures RestoreAll(t, snapshot, changes[..k + 1], None) == RestoreAll(m, snapshot, changes[..k], None)
  {
    assert changes[..k + 1][..k] == changes[..k];
  }

  lemma RestoresTheRest(lost: Tree, snapshot: Snapshot, changes: seq<Change>)
    requires IsChangeList(changes) && IsSnapshot(snapshot) && WellFormed(lost)
    requires Lookup(lost.files, "c") == None && Lookup(lost.files, "d") == Some(TO_B) && {"b", "c", "d"} !! lost.dirs
    ensures RestoreAll(lost, snapshot, changes[..3], None) == Done(lost.(files := lost.files["b" := TO_E]))
  {
    RestoreTop(lost, snapshot, changes[2]);
    assert Put(lost.files, "d", Some(TO_B)) == lost.files;
    RestoreStep(lost, snapshot, changes, 2, lost);
    RestoreTop(lost, snapshot, changes[1]);
    assert Put(lost.files, "c", None) == lost.files;
    RestoreStep(lost, snapshot, changes, 1, lost);
    RestoreTop(lost, snapshot, changes[0]);
    RestoreStep(lost, snapshot, changes, 0, lost.(files := lost.files["b" := TO_E]));
    assert changes[..0] == [];
  }

  lemma BackButOne(files: Manifest)
    requires Lookup(files, "b") == Some(TO_E)
    ensures (files["b" := TO_F] - {"f/x"})["b" := TO_E] == files - {"f/x"}
  {
  }

  lemma RestoresAllButOne(t: Tree, snapshot: Snapshot, changes: seq<Change>)
    requires IsChangeList(changes) && IsSnapshot(snapshot) && WellFormed(Turned(t))
    requires Lookup(t.files, "b") == Some(TO_E)
    requires LeadsTo(Turned(t), "f") && "f/x" in t.files && "c" !in t.files && t.files["d"] == TO_B
    requires {"b", "c", "d"} !! t.dirs
    ensures RestoreAll(Turned(t), snapshot, changes, None) == Done(t.(files := t.files - {"f/x"}))
  {
    var m := Turned(t);
    var lost := m.(files := m.files - {"f/x"});
    RestoreBelow(m, snapshot, changes[3]);
    RestoreStep(m, snapshot, changes, 3, lost);
    RestoresTheRest(lost, snapshot, changes);
    BackButOne(t.files);
    assert changes[..4] == changes;
  }

  lemma ParentsOfChanges(changes: seq<Change>)
    requires IsChangeList(changes)
    ensures AncestorsOf(changes) == {"d"}
  {
    assert "d" + "/" + "x" == "d/x";
    assert changes[3] in changes && IsAncestor("d", "d/x") && "d" in Ancestors(changes[3].path);
    forall c, a | c in changes && IsAncestor(a, c.path) ensures a == "d" {
      OneSlash("b", "x", a);
      OneSlash("c", "x", a);
      OneSlash("d", "x", a);
    }
  }

  lemma NothingToClean(t: Tree, changes: seq<Change>, existing: set<Path>)
    requires IsChangeList(changes) && "d" in existing
    ensures CleanAll(t, DeepestFirst(AncestorsOf(changes)), existing) == Done(t)
  {
    ParentsOfChanges(changes);
    assert {"d"} - {"d"} == {};
    assert DeepestFirst({"d"}) == ["d"] + DeepestFirst({});
  }

  // ----- The whole case -----

  lemma PlainTop(t: Tree, name: string)
    requires WellFormed(t) && '/' !in name
    ensures Observed(t, name) == NodeOf(t, Inside(name))
  {
    TopHasNoParents(t, name);
    ObservedPlain(t, name);
  }

  lemma TheSnapshot(t: Tree, changes: seq<Change>)
    requires WellFormed(t) && LeadsTo(t, "e") && "e/x" !in t.files && "e/x" !in t.dirs && IsChangeList(changes)
    requires t.files["b"] == TO_E && t.files["d"] == TO_B && "c" !in t.files
    ensures IsSnapshot(TakeSnapshot(t, changes))
  {
    PlainTop(t, "b");
    PlainTop(t, "c");
    PlainTop(t, "d");
    SeenThroughChain(t, "e");
    assert "e" + "/" + "x" == "e/x";
    assert changes[0] in changes && changes[1] in changes && changes[2] in changes && changes[3] in changes;
    assert {"b", "c", "d", "d/x"} <= Paths(changes);
    ParentsOfChanges(changes);
  }

  /** What matters of the tree: "d" leads through "b" to the empty "e", and would lead to the file in "f". */
  ghost predicate IsChained(t: Tree) {
    && WellFormed(t) && WellFormed(Turned(t)) && LeadsTo(t, "e") && LeadsTo(Turned(t), "f")
    && {"b", "c", "d", "d/x", "e/x"} !! t.dirs && {"c", "f", "e/x", "d/x"} !! t.files.Keys
    && t.files["b"] == TO_E && t.files["d"] == TO_B && "f/x" in t.files
  }

  lemma ChainedIsChained(around: Around)
    ensures IsChained(Chained(around))
  {
    var t := Chained(around);
    ChainedIsTree(around);
    assert Turned(t).dirs == t.dirs && Turned(t).files.Keys == t.files.Keys;
  }

  lemma OnlyBelowUnseen(t: Tree, p: Path)
    requires Observed(t, "d/x") == Nothing && p in {"b", "c", "d", "d/x"}
    ensures !SeenThroughLink(t, p)
  {
    if p != "d/x" {
      assert '/' !in "b" && '/' !in "c" && '/' !in "d";
      TopHasNoParents(t, p);
    }
  }

  lemma ChainedIsUndrifted(t: Tree, entries: Manifest)
    requires IsChained(t) && Differing(t.files, entries) == {"b", "c", "d", "d/x"}
    ensures NoDrift(t, Diff(t.files, entries))
  {
    SeenThroughChain(t, "e");
    assert "e" + "/" + "x" == "e/x";
    forall p | p in Differing(t.files, entries) ensures !SeenThroughLink(t, p) {
      OnlyBelowUnseen(t, p);
    }
    UndriftedExactly(t, entries);
  }

  /** The absolute link stops every apply before it gets to the new directory. */
  lemma AbsoluteIsRefused(t: Tree, changes: seq<Change>)
    requires IsChangeList(changes)
    ensures !LinksStay(t.around, t.files, changes)
  {
    assert !LinksStay(t.around, t.files, changes[..2]);
    if LinksStay(t.around, t.files, changes) {
      PrefixLinksStay(t.around, t.files, changes, 2);
    }
  }

  lemma NoSwapIsReached(t: Tree, changes: seq<Change>)
    requires IsChangeList(changes)
    ensures !ReachesSwap(t, changes)
  {
    AbsoluteIsRefused(t, changes);
    assert changes[..4] == changes;
    forall c, k | c in changes && 0 <= k < |changes| && IsAncestor(c.path, changes[k].path) ensures k == 3 {
      OneSlash("b", "x", c.path);
      OneSlash("c", "x", c.path);
      OneSlash("d", "x", c.path);
    }
  }

  lemma LosesAFile(t: Tree, changes: seq<Change>)
    requires IsChained(t) && IsChangeList(changes)
    ensures Restore(ApplyAll(t, REPLACED, changes, None).tree, TakeSnapshot(t, changes), changes, None)
         == Done(t.(files := t.files - {"f/x"}))
  {
    ApplyStops(t, changes);
    TheSnapshot(t, changes);
    RestoresAllButOne(t, TakeSnapshot(t, changes), changes);
    NothingToClean(t.(files := t.files - {"f/x"}), changes, TakeSnapshot(t, changes).existing);
  }

  lemma WholeCase(t: Tree, changes: seq<Change>)
    requires IsChained(t) && Differing(t.files, REPLACED) == {"b", "c", "d", "d/x"}
    requires changes == Diff(t.files, REPLACED) && IsChangeList(changes)
    ensures NoDrift(t, changes) && !ReachesSwap(t, changes) && "f/x" !in Differing(t.files, REPLACED)
    ensures Restore(ApplyAll(t, REPLACED, changes, None).tree, TakeSnapshot(t, changes), changes, None)
         == Done(t.(files := t.files - {"f/x"}))
  {
    ChainedIsUndrifted(t, REPLACED);
    NoSwapIsReached(t, changes);
    LosesAFile(t, changes);
  }

  /**
    Nothing fails but the absolute link, which the apply refuses; no replacement of a file
    by a directory is reached; and yet the rollback, which looks for "d/x" through "d" while
    that leads elsewhere, removes the unchanged file "f/x" and reports success.
   */
  lemma RollbackThroughLinkLosesAFile(around: Around)
    ensures var t := Chained(around); var changes := Diff(t.files, REPLACED);
      && WellFormed(t) && PrefixFree(REPLACED) && NoDrift(t, changes) && !ReachesSwap(t, changes)
      && "f/x" !in Differing(t.files, REPLACED)
      && Restore(ApplyAll(t, REPLACED, changes, None).tree, TakeSnapshot(t, changes), changes, None)
           == Done(t.(files := t.files - {"f/x"}))
  {
    ChainedIsTree(around);
    ChainedIsChained(around);
    TheChanges(around);
    WholeCase(Chained(around), Diff(Chained(around).files, REPLACED));
  }
}
