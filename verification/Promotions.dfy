/**
  Whole promotions as functions on trees: when one completes, and when its rollback can be
  trusted.
 */
module Promotions {
  import opened Wrappers
  import opened Ordering
  import opened Manifests
  import opened Places
  import opened PathLookup
  import opened Links
  import opened Entries
  import opened Trees
  import opened Rollback

  lemma SealedIsWritten(baseline: Manifest, entries: Manifest)
    ensures StillSealed(entries, Diff(baseline, entries))
  {
    DiffDescribes(baseline, entries);
    forall c | c in Diff(baseline, entries) && Installs(c) ensures Written(entries, c) == c.staged {
      assert Describes(c, baseline, entries);
    }
  }

  lemma DiffIsApplicable(t: Tree, baseline: Manifest, entries: Manifest)
    requires WellFormed(t) && NoDrift(t, Diff(baseline, entries))
    ensures Applicable(t, entries, Diff(baseline, entries))
  {
    DiffIsInOrder(baseline, entries);
    DiffDescribes(baseline, entries);
    SealedIsWritten(baseline, entries);
    UndriftedIsClearOf(t, Diff(baseline, entries));
    assert forall c :: c in Diff(baseline, entries) ==> Describes(c, baseline, entries);
  }

  lemma AllCanBePlaced(t: Tree, entries: Manifest)
    requires WellFormed(t) && PrefixFree(entries) && Differing(t.files, entries) !! t.dirs
    ensures AllPlaceable(Overlay(t.files, Diff(t.files, entries)), Diff(t.files, entries))
  {
    ApplyDiff(t.files, entries);
    DiffDescribes(t.files, entries);
    forall c | c in Diff(t.files, entries) ensures Placeable(entries, c) {
      assert Describes(c, t.files, entries);
      forall a | a in Ancestors(c.path) ensures a !in entries {
        assert c.path in t.files ==> a in t.dirs;
        assert a in t.dirs && a in entries ==> a in Differing(t.files, entries);
      }
    }
  }

  lemma UndriftedDiffers(t: Tree, baseline: Manifest, entries: Manifest)
    requires WellFormed(t) && NoDrift(t, Diff(baseline, entries))
    ensures Differing(baseline, entries) !! t.dirs
  {
    DiffIsInOrder(baseline, entries);
    UndriftedIsClearOf(t, Diff(baseline, entries));
  }

  /**
    An undisturbed promotion into the tree it was staged from, where the drift check finds
    nothing, completes exactly when every staged link stays inside the project as it is when
    its turn comes; the files are then exactly the sealed manifest.
   */
  lemma UndriftedPromotionCompletes(t: Tree, entries: Manifest)
    requires WellFormed(t) && PrefixFree(entries) && NoDrift(t, Diff(t.files, entries))
    ensures var r := ApplyAll(t, entries, Diff(t.files, entries), None);
      && (r.Done? <==> LinksStay(t.around, t.files, Diff(t.files, entries)))
      && (r.Done? ==> r.tree.files == entries)
  {
    DiffIsApplicable(t, t.files, entries);
    UndriftedDiffers(t, t.files, entries);
    ApplySucceeds(t, entries, Diff(t.files, entries));
    AllCanBePlaced(t, entries);
    ApplyDiff(t.files, entries);
  }

  lemma {:induction false} FilesStay(around: Around, files: Manifest, changes: seq<Change>)
    requires forall c :: c in changes && c.staged.Some? ==> c.staged.value.File?
    ensures LinksStay(around, files, changes)
  {
    if changes != [] {
      var k := |changes| - 1;
      assert changes[k] in changes;
      FilesStay(around, files, changes[..k]);
    }
  }

  /** The path lies below a link of the project, and something is found there. */
  predicate SeenThroughLink(t: Tree, p: Path) {
    CrossesSymlink(t, p) && Observed(t, p) != Nothing
  }

  /** No path on which the project and the manifest differ is seen through a link. */
  ghost predicate NothingSeen(t: Tree, baseline: Manifest, entries: Manifest) {
    forall p :: p in Differing(baseline, entries) ==> !SeenThroughLink(t, p)
  }

  lemma DriftWhereStaged(t: Tree, c: Change)
    requires WellFormed(t) && c.baseline == Lookup(t.files, c.path)
    ensures NoDriftAt(t, c) <==> c.path !in t.dirs && !SeenThroughLink(t, c.path)
  {
    if CrossesSymlink(t, c.path) {
      assert c.path !in t.files && c.path !in t.dirs;
    } else {
      DriftIsPlain(t, c);
    }
  }

  /**
    In the tree it was staged from, the drift check refuses a proposal exactly when a changed
    path is a directory there, or is seen through a link that stands where its parent must be.
   */
  lemma UndriftedExactly(t: Tree, entries: Manifest)
    requires WellFormed(t)
    ensures NoDrift(t, Diff(t.files, entries)) <==>
      Differing(t.files, entries) !! t.dirs && NothingSeen(t, t.files, entries)
  {
    var changes := Diff(t.files, entries);
    DiffIsInOrder(t.files, entries);
    DiffDescribes(t.files, entries);
    forall c | c in changes ensures NoDriftAt(t, c) <==> c.path !in t.dirs && !SeenThroughLink(t, c.path) {
      assert Describes(c, t.files, entries);
      DriftWhereStaged(t, c);
    }
    forall p | p in Differing(t.files, entries) ensures exists c :: c in changes && c.path == p {
      assert p in Paths(changes);
    }
  }

  /** In a project without links only a directory can be in the way. */
  lemma UndriftedWithoutLinks(t: Tree, entries: Manifest)
    requires WellFormed(t) && forall p :: p in t.files ==> t.files[p].File?
    ensures NoDrift(t, Diff(t.files, entries)) <==> Differing(t.files, entries) !! t.dirs
  {
    UndriftedExactly(t, entries);
  }

  /** So a directory that became a file is always refused. */
  lemma DirectoryReplacedIsRefused(around: Around)
    ensures var t := Tree(map["a/b" := File("1", 420)], {"a"}, around); var entries := map["a" := File("2", 420)];
      && WellFormed(t) && PrefixFree(entries) && !NoDrift(t, Diff(t.files, entries))
  {
    var t := Tree(map["a/b" := File("1", 420)], {"a"}, around);
    var entries := map["a" := File("2", 420)];
    assert forall a :: !IsAncestor(a, "a");
    forall a | IsAncestor(a, "a/b") ensures a == "a" {
      assert a == "a/b"[..|a|];
    }
    UndriftedExactly(t, entries);
    assert "a" in Differing(t.files, entries);
  }

  // ----- Rollback of a file replaced by a directory -----

  /** A file to be deleted stands above a file to be added. */
  lemma SwapMeansDeletion(t: Tree, entries: Manifest, c: Change, d: Change)
    requires WellFormed(t) && PrefixFree(entries) && NoDrift(t, Diff(t.files, entries))
    requires c in Diff(t.files, entries) && d in Diff(t.files, entries) && IsAncestor(c.path, d.path)
    ensures c.operation == Delete && d.operation == Add
  {
    DiffDescribes(t.files, entries);
    assert Describes(c, t.files, entries) && Describes(d, t.files, entries);
    UndriftedIsClear(t, c);
  }

  lemma PlaceablePrefix(m: Manifest, changes: seq<Change>, k: nat)
    requires InOrder(changes) && AllPlaceable(Overlay(m, changes), changes) && k <= |changes|
    ensures AllPlaceable(Overlay(m, changes[..k]), changes[..k])
    decreases |changes|
  {
    if k == |changes| {
      assert changes[..k] == changes;
    } else {
      var n := |changes| - 1;
      forall c | c in changes[..n] ensures Placeable(Overlay(m, changes[..n]), c) {
        assert c in changes;
        PlaceableLater(m, changes, c);
      }
      assert changes[..n][..k] == changes[..k];
      PlaceablePrefix(m, changes[..n], k);
    }
  }

  /** The apply gets through the first `k` changes exactly as far as their links stay inside. */
  lemma PrefixApplies(t: Tree, entries: Manifest, k: nat)
    requires WellFormed(t) && PrefixFree(entries) && NoDrift(t, Diff(t.files, entries)) && k <= |Diff(t.files, entries)|
    ensures ApplyAll(t, entries, Diff(t.files, entries)[..k], None).Done? <==>
      LinksStay(t.around, t.files, Diff(t.files, entries)[..k])
  {
    var changes := Diff(t.files, entries);
    DiffIsApplicable(t, t.files, entries);
    UndriftedDiffers(t, t.files, entries);
    AllCanBePlaced(t, entries);
    PlaceablePrefix(t.files, changes, k);
    ApplicablePrefix(t, entries, changes, k);
    ApplySucceeds(t, entries, changes[..k]);
  }

  lemma {:induction false} FaultBeyond(t: Tree, workspace: Manifest, changes: seq<Change>, fault: Fault)
    requires fault.at >= |changes|
    ensures ApplyAll(t, workspace, changes, Some(fault)) == ApplyAll(t, workspace, changes, None)
  {
    if changes != [] {
      FaultBeyond(t, workspace, changes[..|changes| - 1], fault);
    }
  }

  lemma FaultRaises(t: Tree, workspace: Manifest, c: Change, cut: nat)
    ensures ApplyOne(t, workspace, c, Some(cut)).Failed?
  {
  }

  lemma {:induction false} DoneMeansNoFault(t: Tree, workspace: Manifest, changes: seq<Change>, fault: Option<Fault>)
    requires ApplyAll(t, workspace, changes, fault).Done?
    ensures ApplyAll(t, workspace, changes, fault) == ApplyAll(t, workspace, changes, None)
  {
    if changes != [] {
      var k := |changes| - 1;
      DoneMeansNoFault(t, workspace, changes[..k], fault);
      if fault.Some? && fault.value.at == k {
        FaultRaises(ApplyAll(t, workspace, changes[..k], fault).tree, workspace, changes[k], fault.value.cut);
      }
    }
  }

  lemma InstallInterrupted(m: Tree, workspace: Manifest, d: Change, a: Path)
    requires Installs(d) && ApplyOne(m, workspace, d, None).Done? && IsAncestor(a, d.path)
    ensures ApplyOne(m, workspace, d, Some(|a|)).Failed?
    ensures a in ApplyOne(m, workspace, d, Some(|a|)).tree.dirs
  {
  }

  lemma StepOf(t: Tree, workspace: Manifest, changes: seq<Change>, k: nat, fault: Option<Fault>)
    requires k < |changes| && ApplyAll(t, workspace, changes[..k], fault).Done?
    ensures ApplyAll(t, workspace, changes[..k + 1], fault) ==
      ApplyOne(ApplyAll(t, workspace, changes[..k], fault).tree, workspace, changes[k], FaultOf(fault, k))
  {
    assert changes[..k + 1][..k] == changes[..k];
  }

  /** The disk fails while parent `a` of the path to install has just been made. */
  lemma InterruptedApply(t: Tree, workspace: Manifest, changes: seq<Change>, k: nat, a: Path)
    requires k < |changes| && Installs(changes[k]) && IsAncestor(a, changes[k].path)
    requires ApplyAll(t, workspace, changes[..k], None).Done?
    requires ApplyAll(t, workspace, changes[..k + 1], None).Done?
    ensures a in ApplyAll(t, workspace, changes, Some(Fault(k, |a|))).tree.dirs
  {
    var fault := Some(Fault(k, |a|));
    var m := ApplyAll(t, workspace, changes[..k], None).tree;
    StepOf(t, workspace, changes, k, None);
    FaultBeyond(t, workspace, changes[..k], fault.value);
    StepOf(t, workspace, changes, k, fault);
    InstallInterrupted(m, workspace, changes[k], a);
    FailedApplyStays(t, workspace, changes, k + 1, fault);
  }

  /** The apply gets to change `k` and finds nothing wrong with it. */
  ghost predicate IsReached(t: Tree, changes: seq<Change>, k: int) {
    0 <= k < |changes| && LinksStay(t.around, t.files, changes[..k + 1])
  }

  lemma ReachedLinksStay(t: Tree, changes: seq<Change>, k: nat)
    requires IsReached(t, changes, k)
    ensures LinksStay(t.around, t.files, changes[..k])
  {
    assert changes[..k + 1][..k] == changes[..k];
  }

  lemma ReachedApplies(t: Tree, entries: Manifest, k: nat)
    requires WellFormed(t) && PrefixFree(entries) && NoDrift(t, Diff(t.files, entries))
    requires IsReached(t, Diff(t.files, entries), k)
    ensures ApplyAll(t, entries, Diff(t.files, entries)[..k], None).Done?
    ensures ApplyAll(t, entries, Diff(t.files, entries)[..k + 1], None).Done?
  {
    ReachedLinksStay(t, Diff(t.files, entries), k);
    PrefixApplies(t, entries, k);
    PrefixApplies(t, entries, k + 1);
  }

  lemma SwapMakesDirectory(t: Tree, entries: Manifest, k: nat, c: Change)
    requires WellFormed(t) && PrefixFree(entries) && NoDrift(t, Diff(t.files, entries))
    requires IsReached(t, Diff(t.files, entries), k)
    requires c in Diff(t.files, entries) && IsAncestor(c.path, Diff(t.files, entries)[k].path)
    ensures c.path in ApplyAll(t, entries, Diff(t.files, entries), Some(Fault(k, |c.path|))).tree.dirs
  {
    SwapMeansDeletion(t, entries, c, Diff(t.files, entries)[k]);
    ReachedApplies(t, entries, k);
    InterruptedApply(t, entries, Diff(t.files, entries), k, c.path);
  }

  lemma StepMakesDirectory(m: Tree, workspace: Manifest, c: Change, fault: Option<nat>, d: Path)
    requires d in ApplyOne(m, workspace, c, fault).tree.dirs && d !in m.dirs
    ensures LinkStays(m.around, m.files, c) && IsAncestor(d, c.path)
  {
  }

  /** What the apply has done when it has got through the first changes. */
  lemma GotThrough(t: Tree, workspace: Manifest, changes: seq<Change>, fault: Option<Fault>)
    requires Applicable(t, workspace, changes) && ApplyAll(t, workspace, changes, fault).Done?
    ensures var m := ApplyAll(t, workspace, changes, fault).tree;
      m.files == Overlay(t.files, changes) && m.around == t.around && LinksStay(t.around, t.files, changes)
  {
    DoneMeansNoFault(t, workspace, changes, fault);
    ApplySucceeds(t, workspace, changes);
  }

  lemma ReachedFrom(t: Tree, changes: seq<Change>, n: nat, k: nat)
    requires n <= |changes| && IsReached(t, changes[..n], k)
    ensures IsReached(t, changes, k) && changes[..n][k] == changes[k]
  {
    assert changes[..n][..k + 1] == changes[..k + 1];
  }

  lemma LastIsReached(t: Tree, workspace: Manifest, changes: seq<Change>, fault: Option<Fault>, d: Path)
    requires changes != [] && Applicable(t, workspace, changes)
    requires var n := |changes| - 1; var front := ApplyAll(t, workspace, changes[..n], fault);
      front.Done? && d !in front.tree.dirs
        && d in ApplyOne(front.tree, workspace, changes[n], FaultOf(fault, n)).tree.dirs
    ensures IsReached(t, changes, |changes| - 1) && IsAncestor(d, changes[|changes| - 1].path)
  {
    var n := |changes| - 1;
    ApplicablePrefix(t, workspace, changes, n);
    GotThrough(t, workspace, changes[..n], fault);
    StepMakesDirectory(ApplyAll(t, workspace, changes[..n], fault).tree, workspace, changes[n], FaultOf(fault, n), d);
    assert changes[..n + 1] == changes;
  }

  /** A directory that an apply makes lies above a change it got to. */
  lemma {:induction false} NewDirectoryIsReached(t: Tree, workspace: Manifest, changes: seq<Change>,
    fault: Option<Fault>, d: Path) returns (k: nat)
    requires Applicable(t, workspace, changes)
    requires d in ApplyAll(t, workspace, changes, fault).tree.dirs && d !in t.dirs
    ensures IsReached(t, changes, k) && IsAncestor(d, changes[k].path)
  {
    var n := |changes| - 1;
    if d in ApplyAll(t, workspace, changes[..n], fault).tree.dirs {
      ApplicablePrefix(t, workspace, changes, n);
      k := NewDirectoryIsReached(t, workspace, changes[..n], fault, d);
      ReachedFrom(t, changes, n, k);
    } else {
      k := n;
      LastIsReached(t, workspace, changes, fault, d);
    }
  }

  /** The proposal fails at `fault`, and the rollback gives the earlier tree back. */
  ghost predicate RollsBack(t: Tree, entries: Manifest, fault: Option<Fault>) {
    var changes := Diff(t.files, entries);
    Restore(ApplyAll(t, entries, changes, fault).tree, TakeSnapshot(t, changes), changes, None) == Done(t)
  }

  lemma SwapFails(t: Tree, entries: Manifest, c: Change, k: nat)
    requires WellFormed(t) && PrefixFree(entries) && NoDrift(t, Diff(t.files, entries))
    requires IsReached(t, Diff(t.files, entries), k)
    requires c in Diff(t.files, entries) && IsAncestor(c.path, Diff(t.files, entries)[k].path)
    ensures !RollsBack(t, entries, Some(Fault(k, |c.path|)))
  {
    SwapMakesDirectory(t, entries, k, c);
    BlockedRollback(t, entries, Diff(t.files, entries), Some(Fault(k, |c.path|)), c);
  }

  /** Some file or link is replaced by a directory, and no link that leaves the project stops the apply before. */
  ghost predicate ReachesSwap(t: Tree, changes: seq<Change>) {
    exists c, k :: c in changes && IsReached(t, changes, k) && IsAncestor(c.path, changes[k].path)
  }

  lemma DirectoryMeansSwap(t: Tree, entries: Manifest, fault: Option<Fault>, c: Change)
    requires Applicable(t, entries, Diff(t.files, entries)) && c in Diff(t.files, entries)
    requires c.path in ApplyAll(t, entries, Diff(t.files, entries), fault).tree.dirs
    ensures ReachesSwap(t, Diff(t.files, entries))
  {
    var changes := Diff(t.files, entries);
    assert c.path in Paths(changes);
    var k := NewDirectoryIsReached(t, entries, changes, fault, c.path);
    assert IsReached(t, changes, k) && IsAncestor(c.path, changes[k].path);
  }

  /** A path below a staged link was a file in a directory, which the check would have found. */
  lemma DiffStagesNoLinkAbove(t: Tree, baseline: Manifest, entries: Manifest)
    requires WellFormed(t) && PrefixFree(entries)
    requires NoDrift(t, Diff(baseline, entries)) && Unlinked(t, Diff(baseline, entries))
    ensures StagesNoLinkAbove(Diff(baseline, entries))
  {
    var changes := Diff(baseline, entries);
    DiffDescribes(baseline, entries);
    forall c, d | c in changes && d in changes && IsAncestor(c.path, d.path) ensures c.staged.None? {
      assert Describes(c, baseline, entries) && Describes(d, baseline, entries);
      assert NoDriftAt(t, d);
      UndriftedIsClear(t, c);
      DriftIsPlain(t, d);
    }
  }

  lemma UnswappedRollsBack(t: Tree, entries: Manifest, fault: Option<Fault>)
    requires WellFormed(t) && PrefixFree(entries) && NoDrift(t, Diff(t.files, entries))
    requires Unlinked(t, Diff(t.files, entries)) && !ReachesSwap(t, Diff(t.files, entries))
    ensures RollsBack(t, entries, fault)
  {
    var changes := Diff(t.files, entries);
    DiffIsApplicable(t, t.files, entries);
    DiffStagesNoLinkAbove(t, t.files, entries);
    forall c | c in changes ensures c.path !in ApplyAll(t, entries, changes, fault).tree.dirs {
      if c.path in ApplyAll(t, entries, changes, fault).tree.dirs {
        DirectoryMeansSwap(t, entries, fault, c);
      }
    }
    ExactRollback(t, entries, changes, fault);
  }

  lemma {:induction false} PrefixLinksStay(around: Around, files: Manifest, changes: seq<Change>, k: nat)
    requires LinksStay(around, files, changes) && k <= |changes|
    ensures LinksStay(around, files, changes[..k])
    decreases |changes|
  {
    if k == |changes| {
      assert changes[..k] == changes;
    } else {
      var n := |changes| - 1;
      assert changes[..n][..k] == changes[..k];
      PrefixLinksStay(around, files, changes[..n], k);
    }
  }

  lemma BelowLinkMeansSwap(t: Tree, entries: Manifest, a: Path, c: Change)
    requires WellFormed(t) && PrefixFree(entries) && LinksStay(t.around, t.files, Diff(t.files, entries))
    requires c in Diff(t.files, entries) && a in t.files && IsAncestor(a, c.path)
    ensures ReachesSwap(t, Diff(t.files, entries))
  {
    var changes := Diff(t.files, entries);
    DiffIsInOrder(t.files, entries);
    DiffDescribes(t.files, entries);
    assert Describes(c, t.files, entries);
    assert a in Differing(t.files, entries);
    var d :| d in changes && d.path == a;
    var k :| 0 <= k < |changes| && changes[k] == c;
    PrefixLinksStay(t.around, t.files, changes, k + 1);
    assert IsReached(t, changes, k) && IsAncestor(d.path, changes[k].path);
  }

  lemma UnswappedIsUnlinked(t: Tree, entries: Manifest)
    requires WellFormed(t) && PrefixFree(entries) && LinksStay(t.around, t.files, Diff(t.files, entries))
    requires !ReachesSwap(t, Diff(t.files, entries))
    ensures Unlinked(t, Diff(t.files, entries))
  {
    forall c | c in Diff(t.files, entries) ensures !CrossesSymlink(t, c.path) {
      if CrossesSymlink(t, c.path) {
        var a :| a in Ancestors(c.path) && IsLink(t, a);
        BelowLinkMeansSwap(t, entries, a, c);
      }
    }
  }

  /**
    Exactly which proposals can be rolled back whenever the disk fails: those whose apply
    gets to no replacement of a file or link by a directory.  This holds of every proposal
    that changes nothing below a link or whose own links all stay inside.
   */
  lemma RollbackExactlyWithoutSwap(t: Tree, entries: Manifest)
    requires WellFormed(t) && PrefixFree(entries) && NoDrift(t, Diff(t.files, entries))
    requires Unlinked(t, Diff(t.files, entries)) || LinksStay(t.around, t.files, Diff(t.files, entries))
    ensures !ReachesSwap(t, Diff(t.files, entries)) <==> forall fault :: RollsBack(t, entries, fault)
  {
    var changes := Diff(t.files, entries);
    if ReachesSwap(t, changes) {
      var c, k :| c in changes && IsReached(t, changes, k) && IsAncestor(c.path, changes[k].path);
      SwapFails(t, entries, c, k);
    } else {
      if !Unlinked(t, changes) {
        UnswappedIsUnlinked(t, entries);
      }
      forall fault ensures RollsBack(t, entries, fault) {
        UnswappedRollsBack(t, entries, fault);
      }
    }
  }

  lemma SwapPreconditions(t: Tree, entries: Manifest)
    requires t.files == map["a" := File("1", 420)] && t.dirs == {} && entries == map["a/b" := File("2", 420)]
    ensures WellFormed(t) && PrefixFree(entries) && NoDrift(t, Diff(t.files, entries))
    ensures forall k :: 0 <= k < |Diff(t.files, entries)| ==> IsReached(t, Diff(t.files, entries), k)
  {
    UndriftedWithoutLinks(t, entries);
    DiffDescribes(t.files, entries);
    var changes := Diff(t.files, entries);
    forall k | 0 <= k < |changes| ensures IsReached(t, changes, k) {
      forall c | c in changes[..k + 1] && c.staged.Some? ensures c.staged.value.File? {
        assert c in changes && Describes(c, t.files, entries);
      }
      FilesStay(t.around, t.files, changes[..k + 1]);
    }
  }

  lemma SwapChanges(t: Tree, entries: Manifest, changes: seq<Change>) returns (c: Change, k: nat)
    requires t.files == map["a" := File("1", 420)] && entries == map["a/b" := File("2", 420)]
    requires Paths(changes) == Differing(t.files, entries)
    ensures c in changes && k < |changes| && IsAncestor(c.path, changes[k].path)
  {
    assert "a" in Differing(t.files, entries) && "a/b" in Differing(t.files, entries);
    c :| c in changes && c.path == "a";
    k :| k < |changes| && changes[k].path == "a/b";
  }

  /** The smallest case: file "a" becomes directory "a" with file "a/b". */
  lemma SwapDefeatsRollback(around: Around)
    ensures var t := Tree(map["a" := File("1", 420)], {}, around); var entries := map["a/b" := File("2", 420)];
      && WellFormed(t) && PrefixFree(entries) && NoDrift(t, Diff(t.files, entries))
      && exists fault :: !RollsBack(t, entries, fault)
  {
    var t := Tree(map["a" := File("1", 420)], {}, around);
    var entries := map["a/b" := File("2", 420)];
    SwapPreconditions(t, entries);
    DiffIsInOrder(t.files, entries);
    var c, k := SwapChanges(t, entries, Diff(t.files, entries));
    SwapFails(t, entries, c, k);
  }

  // ----- An undisturbed promotion -----

  /** An undisturbed promotion: the drift check and then the apply, or nothing. */
  ghost function Landed(t: Tree, baseline: Manifest, entries: Manifest): Option<Tree> {
    var changes := Diff(baseline, entries);
    if !NoDrift(t, changes) then None
    else
      match ApplyAll(t, entries, changes, None)
      case Failed(_) => None
      case Done(m) => Some(m)
  }

  /** Whether it lands, and the tree it leaves, without the loop. */
  lemma LandedIs(t: Tree, baseline: Manifest, entries: Manifest)
    requires WellFormed(t)
    ensures var changes := Diff(baseline, entries); var r := Landed(t, baseline, entries);
      && (r.Some? <==>
          && NoDrift(t, changes) && AllPlaceable(Overlay(t.files, changes), changes)
          && LinksStay(t.around, t.files, changes))
      && (r.Some? ==> WellFormed(r.value))
      && (r.Some? ==> r.value == t.(files := Overlay(t.files, changes), dirs := t.dirs + InstalledParents(changes)))
  {
    if NoDrift(t, Diff(baseline, entries)) {
      DiffIsApplicable(t, baseline, entries);
      ApplySucceeds(t, entries, Diff(baseline, entries));
      ApplyTouches(t, entries, Diff(baseline, entries), None);
    }
  }

  /** A landed proposal found its baseline at every changed path itself, not through a link. */
  lemma LandedBaseline(t: Tree, baseline: Manifest, entries: Manifest, c: Change)
    requires WellFormed(t) && PrefixFree(baseline) && Landed(t, baseline, entries).Some?
    requires c in Diff(baseline, entries) && CrossesSymlink(t, c.path)
    ensures c.baseline.None?
  {
    var changes := Diff(baseline, entries);
    var a :| a in Ancestors(c.path) && IsLink(t, a);
    LandedIs(t, baseline, entries);
    DiffIsInOrder(baseline, entries);
    DiffDescribes(baseline, entries);
    OverlayAt(t.files, changes);
    assert Describes(c, baseline, entries) && Placeable(Overlay(t.files, changes), c);
    assert a in Paths(changes) by {
      assert Lookup(t.files, a) == Some(t.files[a]);
    }
    var d :| d in changes && d.path == a;
    assert Describes(d, baseline, entries) && NoDriftAt(t, d);
    HeldIsNotBelowLink(t, a);
    DriftIsPlain(t, d);
  }

  lemma LandedWasThere(t: Tree, baseline: Manifest, entries: Manifest, c: Change)
    requires WellFormed(t) && PrefixFree(baseline) && Landed(t, baseline, entries).Some?
    requires c in Diff(baseline, entries)
    ensures Lookup(t.files, c.path) == c.baseline && c.path !in t.dirs
  {
    assert NoDriftAt(t, c);
    if CrossesSymlink(t, c.path) {
      LandedBaseline(t, baseline, entries, c);
    } else {
      DriftIsPlain(t, c);
    }
  }

  /** The whole new tree, path by path: sealed content where the proposal differs, the old one elsewhere. */
  lemma LandedAt(t: Tree, baseline: Manifest, entries: Manifest, p: Path)
    requires WellFormed(t) && PrefixFree(baseline) && Landed(t, baseline, entries).Some?
    ensures Lookup(Landed(t, baseline, entries).value.files, p) ==
      if p in Differing(baseline, entries) then Lookup(entries, p) else Lookup(t.files, p)
    ensures p in Differing(baseline, entries) ==> Lookup(t.files, p) == Lookup(baseline, p) && p !in t.dirs
  {
    var changes := Diff(baseline, entries);
    LandedIs(t, baseline, entries);
    DiffIsInOrder(baseline, entries);
    DiffDescribes(baseline, entries);
    OverlayAt(t.files, changes);
    if p in Differing(baseline, entries) {
      assert p in Paths(changes);
      var c :| c in changes && c.path == p;
      assert Describes(c, baseline, entries);
      LandedWasThere(t, baseline, entries, c);
    }
  }
}
