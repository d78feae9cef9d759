/** What two promotions of proposals staged from one tree do to each other. */
module PromotionPairs {
  import opened Wrappers
  import opened Strings
  import opened Ordering
  import opened Manifests
  import opened Places
  import opened PathLookup
  import opened Links
  import opened Trees
  import opened Promotions

  /** Of two proposals staged from one tree, both land only if they change different paths. */
  lemma NoLostUpdate(t: Tree, first: Manifest, second: Manifest)
    requires WellFormed(t)
    requires Landed(t, t.files, first).Some?
    requires Landed(Landed(t, t.files, first).value, t.files, second).Some?
    ensures Differing(t.files, first) !! Differing(t.files, second)
  {
    var between := Landed(t, t.files, first).value;
    HeldIsPrefixFree(t);
    LandedIs(t, t.files, first);
    forall p | p in Differing(t.files, first) ensures p !in Differing(t.files, second) {
      LandedAt(t, t.files, first, p);
      LandedAt(between, t.files, second, p);
    }
  }

  /** What two disjoint promotions leave at a path. */
  ghost function Both(base: Manifest, first: Manifest, second: Manifest, p: Path): Option<Entry> {
    if p in Differing(base, first) then Lookup(first, p)
    else if p in Differing(base, second) then Lookup(second, p)
    else Lookup(base, p)
  }

  lemma BothAt(t: Tree, first: Manifest, second: Manifest, p: Path)
    requires WellFormed(t) && Landed(t, t.files, first).Some?
    requires Landed(Landed(t, t.files, first).value, t.files, second).Some?
    ensures Lookup(Landed(Landed(t, t.files, first).value, t.files, second).value.files, p) ==
      Both(t.files, first, second, p)
  {
    NoLostUpdate(t, first, second);
    HeldIsPrefixFree(t);
    LandedIs(t, t.files, first);
    LandedAt(t, t.files, first, p);
    LandedAt(Landed(t, t.files, first).value, t.files, second, p);
  }

  lemma SecondIsClear(t: Tree, first: Manifest, second: Manifest)
    requires WellFormed(t) && Landed(t, t.files, first).Some?
    requires Landed(Landed(t, t.files, first).value, t.files, second).Some?
    ensures Differing(t.files, second) !! t.dirs
  {
    HeldIsPrefixFree(t);
    LandedIs(t, t.files, first);
    forall p | p in Differing(t.files, second) ensures p !in t.dirs {
      LandedAt(Landed(t, t.files, first).value, t.files, second, p);
    }
  }

  /**
    The second proposal would also have landed alone, but for paths seen and for links led
    outside only without the first.
   */
  lemma SecondLandsAlone(t: Tree, first: Manifest, second: Manifest)
    requires WellFormed(t) && PrefixFree(second)
    requires Landed(t, t.files, first).Some?
    requires Landed(Landed(t, t.files, first).value, t.files, second).Some?
    ensures Landed(t, t.files, second).Some? <==>
      NothingSeen(t, t.files, second) && LinksStay(t.around, t.files, Diff(t.files, second))
  {
    SecondIsClear(t, first, second);
    LandedIs(t, t.files, second);
    UndriftedExactly(t, second);
    AllCanBePlaced(t, second);
  }

  /** Nothing the first proposal changes is a directory once the second has landed alone. */
  lemma FirstStillClear(t: Tree, first: Manifest, second: Manifest, p: Path)
    requires WellFormed(t) && PrefixFree(second)
    requires Landed(t, t.files, first).Some?
    requires Landed(Landed(t, t.files, first).value, t.files, second).Some?
    requires p in Differing(t.files, first)
    ensures p !in t.dirs && p !in InstalledParents(Diff(t.files, second))
  {
    var both := Landed(Landed(t, t.files, first).value, t.files, second).value;
    NoLostUpdate(t, first, second);
    HeldIsPrefixFree(t);
    LandedIs(t, t.files, first);
    LandedIs(Landed(t, t.files, first).value, t.files, second);
    LandedAt(t, t.files, first, p);
    DiffDescribes(t.files, second);
    forall c | c in Diff(t.files, second) && Installs(c) ensures p !in Ancestors(c.path) {
      assert Describes(c, t.files, second);
      BothAt(t, first, second, c.path);
      BothAt(t, first, second, p);
      assert c.path in second && c.path in both.files;
      assert p in Ancestors(c.path) ==> p in both.dirs && p !in both.files;
    }
  }

  lemma SameInstalledParents(a: seq<Change>, b: seq<Change>, dirs: set<Path>)
    ensures dirs + InstalledParents(a) + InstalledParents(b) == dirs + InstalledParents(b) + InstalledParents(a)
  {
  }

  lemma LandedDirs(t: Tree, first: Manifest, second: Manifest)
    requires WellFormed(t) && Landed(t, t.files, first).Some?
    requires Landed(Landed(t, t.files, first).value, t.files, second).Some?
    ensures Landed(Landed(t, t.files, first).value, t.files, second).value.dirs ==
      t.dirs + InstalledParents(Diff(t.files, first)) + InstalledParents(Diff(t.files, second))
    ensures Landed(Landed(t, t.files, first).value, t.files, second).value.around == t.around
  {
    LandedIs(t, t.files, first);
    LandedIs(Landed(t, t.files, first).value, t.files, second);
  }

  lemma OverlaidSecond(t: Tree, first: Manifest, second: Manifest)
    requires WellFormed(t) && Landed(t, t.files, first).Some? && Landed(t, t.files, second).Some?
    requires Landed(Landed(t, t.files, first).value, t.files, second).Some?
    ensures Overlay(Landed(t, t.files, second).value.files, Diff(t.files, first)) ==
      Landed(Landed(t, t.files, first).value, t.files, second).value.files
  {
    var alone := Landed(t, t.files, second).value;
    var both := Landed(Landed(t, t.files, first).value, t.files, second).value;
    var changes := Diff(t.files, first);
    HeldIsPrefixFree(t);
    DiffIsInOrder(t.files, first);
    DiffDescribes(t.files, first);
    OverlayAt(alone.files, changes);
    var overlaid := Overlay(alone.files, changes);
    forall p ensures Lookup(overlaid, p) == Lookup(both.files, p) {
      BothAt(t, first, second, p);
      LandedAt(t, t.files, second, p);
      if p in Differing(t.files, first) {
        assert p in Paths(changes);
        var c :| c in changes && c.path == p;
        assert Describes(c, t.files, first);
      }
    }
    assert Differing(overlaid, both.files) == {};
    SameLookups(overlaid, both.files);
  }

  lemma FirstDriftsAfter(t: Tree, first: Manifest, second: Manifest, c: Change)
    requires WellFormed(t) && PrefixFree(second)
    requires Landed(t, t.files, first).Some?
    requires Landed(Landed(t, t.files, first).value, t.files, second).Some?
    requires Landed(t, t.files, second).Some? && c in Diff(t.files, first)
    ensures NoDriftAt(Landed(t, t.files, second).value, c) <==>
      !SeenThroughLink(Landed(t, t.files, second).value, c.path)
  {
    DiffDescribes(t.files, first);
    assert Describes(c, t.files, first);
    NoLostUpdate(t, first, second);
    HeldIsPrefixFree(t);
    LandedIs(t, t.files, second);
    LandedAt(t, t.files, second, c.path);
    FirstStillClear(t, first, second, c.path);
    DriftWhereStaged(Landed(t, t.files, second).value, c);
  }

  lemma FirstCanBePlaced(t: Tree, first: Manifest, second: Manifest, c: Change)
    requires WellFormed(t) && Landed(t, t.files, first).Some? && c in Diff(t.files, first)
    requires Landed(Landed(t, t.files, first).value, t.files, second).Some?
    ensures Placeable(Landed(Landed(t, t.files, first).value, t.files, second).value.files, c)
  {
    var both := Landed(Landed(t, t.files, first).value, t.files, second).value;
    DiffDescribes(t.files, first);
    assert Describes(c, t.files, first);
    LandedIs(t, t.files, first);
    LandedIs(Landed(t, t.files, first).value, t.files, second);
    BothAt(t, first, second, c.path);
    assert c.path in t.files || c.path in both.files;
    assert forall a :: a in Ancestors(c.path) ==> a in both.dirs;
  }

  lemma FirstLandsAfter(t: Tree, first: Manifest, second: Manifest)
    requires WellFormed(t) && PrefixFree(first) && PrefixFree(second)
    requires Landed(t, t.files, first).Some?
    requires Landed(Landed(t, t.files, first).value, t.files, second).Some?
    requires Landed(t, t.files, second).Some?
    ensures var alone := Landed(t, t.files, second).value;
      Landed(alone, t.files, first).Some? <==>
        NothingSeen(alone, t.files, first) && LinksStay(t.around, alone.files, Diff(t.files, first))
  {
    var alone := Landed(t, t.files, second).value;
    var changes := Diff(t.files, first);
    LandedIs(t, t.files, second);
    LandedIs(alone, t.files, first);
    OverlaidSecond(t, first, second);
    DiffIsInOrder(t.files, first);
    forall c | c in changes
      ensures NoDriftAt(alone, c) <==> !SeenThroughLink(alone, c.path)
      ensures Placeable(Overlay(alone.files, changes), c)
    {
      FirstDriftsAfter(t, first, second, c);
      FirstCanBePlaced(t, first, second, c);
    }
    assert forall p :: p in Differing(t.files, first) ==> exists c :: c in changes && c.path == p by {
      assert Paths(changes) == Differing(t.files, first);
    }
  }

  lemma SameFilesEitherWay(t: Tree, first: Manifest, second: Manifest)
    requires WellFormed(t) && Landed(t, t.files, first).Some? && Landed(t, t.files, second).Some?
    requires Landed(Landed(t, t.files, first).value, t.files, second).Some?
    requires Landed(Landed(t, t.files, second).value, t.files, first).Some?
    ensures Landed(Landed(t, t.files, second).value, t.files, first).value.files
         == Landed(Landed(t, t.files, first).value, t.files, second).value.files
  {
    var one := Landed(Landed(t, t.files, first).value, t.files, second).value;
    var two := Landed(Landed(t, t.files, second).value, t.files, first).value;
    NoLostUpdate(t, first, second);
    forall p ensures Lookup(one.files, p) == Lookup(two.files, p) {
      BothAt(t, first, second, p);
      BothAt(t, second, first, p);
    }
    assert Differing(one.files, two.files) == {};
    SameLookups(one.files, two.files);
  }

  lemma SameTreeEitherWay(t: Tree, first: Manifest, second: Manifest)
    requires WellFormed(t) && Landed(t, t.files, first).Some? && Landed(t, t.files, second).Some?
    requires Landed(Landed(t, t.files, first).value, t.files, second).Some?
    requires Landed(Landed(t, t.files, second).value, t.files, first).Some?
    ensures Landed(Landed(t, t.files, second).value, t.files, first) ==
      Landed(Landed(t, t.files, first).value, t.files, second)
  {
    SameFilesEitherWay(t, first, second);
    LandedDirs(t, first, second);
    LandedDirs(t, second, first);
    SameInstalledParents(Diff(t.files, first), Diff(t.files, second), t.dirs);
  }

  /** One promotion after the other, both staged from the tree as it was. */
  ghost function LandBoth(t: Tree, first: Manifest, second: Manifest): Option<Tree> {
    match Landed(t, t.files, first)
    case None => None
    case Some(between) => Landed(between, t.files, second)
  }

  /** The tree when the second goes first and lands. */
  ghost function SecondAlone(t: Tree, second: Manifest): Tree {
    t.(files := second, dirs := t.dirs + InstalledParents(Diff(t.files, second)))
  }

  /**
    When the second goes first, no changed path of either is seen through a link at its
    turn, and the staged links of both stay inside.
   */
  ghost predicate FitsReordered(t: Tree, first: Manifest, second: Manifest) {
    && NothingSeen(t, t.files, second)
    && LinksStay(t.around, t.files, Diff(t.files, second))
    && NothingSeen(SecondAlone(t, second), t.files, first)
    && LinksStay(t.around, second, Diff(t.files, first))
  }

  /**
    Promotions of two proposals staged from one tree commute exactly as far as links let
    them: if one order lands, the other leaves the same tree, or it stops where a link of the
    project shows a changed path, or where a staged link leads out of the project.
   */
  lemma PromotionsCommute(t: Tree, first: Manifest, second: Manifest)
    requires WellFormed(t) && PrefixFree(first) && PrefixFree(second) && LandBoth(t, first, second).Some?
    ensures LandBoth(t, second, first) == if FitsReordered(t, first, second) then LandBoth(t, first, second) else None
  {
    SecondLandsAlone(t, first, second);
    if Landed(t, t.files, second).Some? {
      LandedIs(t, t.files, second);
      ApplyDiff(t.files, second);
      FirstLandsAfter(t, first, second);
      if FitsReordered(t, first, second) {
        SameTreeEitherWay(t, first, second);
      }
    }
  }

  // ----- Links -----

  /** The paths that decide whether the staged links stay inside. */
  ghost function LinkChecks(around: Around, files: Manifest, changes: seq<Change>): set<Path> {
    if changes == [] then {}
    else
      var k := |changes| - 1;
      var c := changes[k];
      LinkChecks(around, files, changes[..k]) +
        if Installs(c) && c.staged.Some? && c.staged.value.Symlink?
        then LookedAt(around, Overlay(files, changes[..k]), c.path, c.staged.value.target) else {}
  }

  lemma {:induction false} OverlayAgrees(files: Manifest, other: Manifest, changes: seq<Change>, p: Path)
    requires Lookup(files, p) == Lookup(other, p)
    ensures Lookup(Overlay(files, changes), p) == Lookup(Overlay(other, changes), p)
  {
    if changes != [] {
      OverlayAgrees(files, other, changes[..|changes| - 1], p);
    }
  }

  lemma {:induction false} LinksStayWithout(around: Around, files: Manifest, other: Manifest, changes: seq<Change>)
    requires LinkChecks(around, files, changes) !! Differing(files, other)
    ensures LinksStay(around, other, changes) == LinksStay(around, files, changes)
  {
    if changes != [] {
      var k := |changes| - 1;
      var c := changes[k];
      LinksStayWithout(around, files, other, changes[..k]);
      if Installs(c) && c.staged.Some? && c.staged.value.Symlink? {
        forall p | p in LookedAt(around, Overlay(files, changes[..k]), c.path, c.staged.value.target)
          ensures Lookup(Overlay(files, changes[..k]), p) == Lookup(Overlay(other, changes[..k]), p)
        {
          assert p in LinkChecks(around, files, changes);
          assert p !in Differing(files, other);
          OverlayAgrees(files, other, changes[..k], p);
        }
        AllowedLooksOnly(around, Overlay(files, changes[..k]), Overlay(other, changes[..k]), c.path, c.staged.value);
      }
    }
  }

  // ----- Sightings -----

  /** The paths that decide what links show at the changed paths. */
  ghost function Sightings(t: Tree, changes: seq<Change>): set<Path> {
    set c, p | c in changes && CrossesSymlink(t, c.path) && p in Views(t, c.path) :: p
  }

  /** The paths at which landing the changes makes a difference. */
  ghost function Touches(changes: seq<Change>): set<Path> {
    Paths(changes) + InstalledParents(changes)
  }

  lemma LandedElsewhere(t: Tree, entries: Manifest, paths: set<Path>)
    requires WellFormed(t) && Landed(t, t.files, entries).Some?
    requires paths !! Touches(Diff(t.files, entries))
    ensures SameAt(t, Landed(t, t.files, entries).value, paths)
  {
    var after := Landed(t, t.files, entries).value;
    HeldIsPrefixFree(t);
    LandedIs(t, t.files, entries);
    DiffIsInOrder(t.files, entries);
    forall p | p in paths ensures NodeOf(t, Inside(p)) == NodeOf(after, Inside(p)) {
      LandedAt(t, t.files, entries, p);
      assert p !in Differing(t.files, entries);
    }
  }

  lemma SecondIsUnseen(t: Tree, first: Manifest, second: Manifest)
    requires WellFormed(t) && LandBoth(t, first, second).Some?
    requires Sightings(t, Diff(t.files, second)) !! Touches(Diff(t.files, first))
    ensures NothingSeen(t, t.files, second)
  {
    var between := Landed(t, t.files, first).value;
    var changes := Diff(t.files, second);
    DiffIsInOrder(t.files, second);
    DiffDescribes(t.files, second);
    forall p | p in Differing(t.files, second) ensures !SeenThroughLink(t, p) {
      if CrossesSymlink(t, p) {
        assert p in Paths(changes);
        var c :| c in changes && c.path == p;
        assert Describes(c, t.files, second) && NoDriftAt(between, c);
        assert forall q :: q in Views(t, p) ==> q in Sightings(t, changes);
        LandedElsewhere(t, first, Views(t, p));
        ObservedSame(t, between, p);
        assert p !in t.files;
      }
    }
  }

  /** A path of the first that lies below a link once the second has landed did so before. */
  lemma LinkAboveWasThere(t: Tree, first: Manifest, second: Manifest, p: Path)
    requires WellFormed(t) && LandBoth(t, first, second).Some? && Landed(t, t.files, second).Some?
    requires p in Differing(t.files, first) && CrossesSymlink(Landed(t, t.files, second).value, p)
    ensures CrossesSymlink(t, p)
  {
    var alone := Landed(t, t.files, second).value;
    var both := LandBoth(t, first, second).value;
    var a :| a in Ancestors(p) && IsLink(alone, a);
    HeldIsPrefixFree(t);
    LandedIs(t, t.files, first);
    LandedIs(Landed(t, t.files, first).value, t.files, second);
    LandedAt(t, t.files, second, a);
    BothAt(t, first, second, p);
    BothAt(t, first, second, a);
    SecondIsClear(t, first, second);
    NoLostUpdate(t, first, second);
    assert p in t.files || p in both.files;
    assert a in t.dirs || a in both.dirs;
  }

  lemma FirstIsUnseen(t: Tree, first: Manifest, second: Manifest)
    requires WellFormed(t) && LandBoth(t, first, second).Some? && Landed(t, t.files, second).Some?
    requires Sightings(t, Diff(t.files, first)) !! Touches(Diff(t.files, second))
    ensures NothingSeen(Landed(t, t.files, second).value, t.files, first)
  {
    var alone := Landed(t, t.files, second).value;
    var changes := Diff(t.files, first);
    LandedIs(t, t.files, first);
    UndriftedExactly(t, first);
    DiffIsInOrder(t.files, first);
    forall p | p in Differing(t.files, first) ensures !SeenThroughLink(alone, p) {
      if CrossesSymlink(alone, p) {
        LinkAboveWasThere(t, first, second, p);
        assert p in Paths(changes);
        assert forall q :: q in Views(t, p) ==> q in Sightings(t, changes);
        LandedElsewhere(t, second, Views(t, p));
        ObservedSame(t, alone, p);
      }
    }
  }

  lemma SecondLinksStay(t: Tree, first: Manifest, second: Manifest)
    requires WellFormed(t) && LandBoth(t, first, second).Some?
    requires LinkChecks(t.around, Overlay(t.files, Diff(t.files, first)), Diff(t.files, second)) !!
      Differing(t.files, first)
    ensures LinksStay(t.around, t.files, Diff(t.files, second))
  {
    var between := Landed(t, t.files, first).value;
    HeldIsPrefixFree(t);
    LandedIs(t, t.files, first);
    LandedIs(between, t.files, second);
    forall p | p in Differing(between.files, t.files) ensures p in Differing(t.files, first) {
      LandedAt(t, t.files, first, p);
    }
    LinksStayWithout(t.around, between.files, t.files, Diff(t.files, second));
  }

  /**
    Two promotions commute if neither leads a staged link through a path that the other
    changes, and neither sees a changed path through a link by way of one that the other
    touches.
   */
  lemma PromotionsApartCommute(t: Tree, first: Manifest, second: Manifest)
    requires WellFormed(t) && PrefixFree(first) && PrefixFree(second) && LandBoth(t, first, second).Some?
    requires LinkChecks(t.around, t.files, Diff(t.files, first)) !! Differing(t.files, second)
    requires LinkChecks(t.around, Overlay(t.files, Diff(t.files, first)), Diff(t.files, second)) !!
      Differing(t.files, first)
    requires Sightings(t, Diff(t.files, first)) !! Touches(Diff(t.files, second))
    requires Sightings(t, Diff(t.files, second)) !! Touches(Diff(t.files, first))
    ensures LandBoth(t, second, first) == LandBoth(t, first, second)
  {
    SecondIsUnseen(t, first, second);
    SecondLinksStay(t, first, second);
    SecondLandsAlone(t, first, second);
    FirstIsUnseen(t, first, second);
    LandedIs(t, t.files, first);
    LandedIs(t, t.files, second);
    ApplyDiff(t.files, second);
    LinksStayWithout(t.around, t.files, second, Diff(t.files, first));
    PromotionsCommute(t, first, second);
  }
}
