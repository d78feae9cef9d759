/** Links at work: small projects and proposals in which a link decides what happens. */
module LinkCases {
  import opened Wrappers
  import opened Strings
  import opened Ordering
  import opened Manifests
  import opened Places
  import opened PathLookup
  import opened Links
  import opened Entries
  import opened Trees
  import opened Rollback
  import opened Promotions
  import opened PromotionPairs

  lemma OneSorted(path: Path)
    ensures Sorted({path}) == [path]
  {
    SortedIsUnique(Sorted({path}), [path]);
  }

  lemma OneChange(files: Manifest, path: Path, e: Entry)
    requires path !in files
    ensures Diff(files, files[path := e]) == [ChangeAt(files, files[path := e], path)]
  {
    var after := files[path := e];
    var changes := Diff(files, after);
    assert Differing(files, after) == {path};
    DiffIsInOrder(files, after);
    DiffDescribes(files, after);
    assert path in Paths(changes);
    forall i | 0 <= i < |changes| ensures changes[i].path == path {
      assert changes[i] in changes && changes[i].path in Paths(changes);
    }
    if |changes| > 1 {
      LessIsTotal(changes[0].path, changes[1].path);
    }
    assert changes == [changes[0]];
    OneSorted(path);
  }

  lemma OverlayOne(files: Manifest, c: Change)
    ensures Overlay(files, [c]) == Put(files, c.path, c.staged)
  {
    assert [c][..0] == [];
  }

  lemma LinksStayOne(around: Around, files: Manifest, c: Change)
    ensures LinksStay(around, files, [c]) == LinkStays(around, files, c)
  {
    assert [c][..0] == [];
    assert Overlay(files, []) == files;
  }

  /** A proposal of a single new entry lands, unless it is a link that does not stay inside. */
  lemma OneEntry(t: Tree, baseline: Manifest, path: Path, e: Entry)
    requires WellFormed(t) && path !in baseline && path !in t.files && path !in t.dirs
    requires forall a :: a in Ancestors(path) ==> a !in t.files
    ensures Landed(t, baseline, baseline[path := e])
         == if LinkAllowed(t.around, t.files, path, e)
           then Some(t.(files := t.files[path := e], dirs := t.dirs + Ancestors(path))) else None
  {
    var after := baseline[path := e];
    var c := ChangeAt(baseline, after, path);
    OneChange(baseline, path, e);
    LandedIs(t, baseline, after);
    OverlayOne(t.files, c);
    LinksStayOne(t.around, t.files, c);
    DriftIsPlain(t, c);
    forall a | a in Ancestors(path) ensures a != path {
      AncestorIsLess(a, path);
    }
    assert Placeable(Overlay(t.files, [c]), c);
    assert InstalledParents([c]) == Ancestors(path) by {
      assert c in [c];
    }
  }

  /** Where "../x" leads from the project itself. */
  lemma WalkOut(around: Around)
    requires TargetAt(around, map[], SpotAt(around.root, Up(around.root) + ["x"])).None?
    ensures Resolved(around, map[], "l", "../x") == Some(Up(around.root) + ["x"])
  {
    SplitName("l");
    SplitName("x");
    SplitFirst("..", "x");
    assert ".." + "/" + "x" == "../x" && around.root + ["l"][..0] == around.root;
    WalkUp(around, map[], around.root, ["x"], {});
    assert ["x"] + [] == ["x"];
    WalkPastName(around, map[], Up(around.root), "x", [], {});
  }

  lemma BackInside(root: Place)
    ensures root <= Up(root) + ["x"] <==> root == [] || root[|root| - 1] == "x"
  {
  }

  lemma OutIsAllowed(around: Around)
    requires TargetAt(around, map[], SpotAt(around.root, Up(around.root) + ["x"])).None?
    ensures var root := around.root;
      LinkAllowed(around, map[], "l", Symlink("1", 511, "../x")) <==> root == [] || root[|root| - 1] == "x"
  {
    WalkOut(around);
    BackInside(around.root);
  }

  /**
    A link to "../x", where no link is there, is refused unless the project lies where that
    leads back into it: at the top of the file system, or in a directory of that very name.
   */
  lemma LinkOutIsRefused(around: Around)
    requires TargetAt(around, map[], SpotAt(around.root, Up(around.root) + ["x"])).None?
    ensures var t := Tree(map[], {}, around); var root := around.root;
      Landed(t, t.files, map["l" := Symlink("1", 511, "../x")]).Some? <==> root == [] || root[|root| - 1] == "x"
  {
    var t := Tree(map[], {}, around);
    var e := Symlink("1", 511, "../x");
    assert t.files["l" := e] == map["l" := e];
    OneEntry(t, map[], "l", e);
    OutIsAllowed(around);
  }

  // ----- Two proposals that do not commute -----

  const TURN := Symlink("1", 511, ".")      // the directory it lies in
  const DETOUR := Symlink("2", 511, "d/..") // the project, if "d" is no link

  lemma WalkStay(around: Around, files: Manifest, following: set<Spot>)
    ensures Walk(around, files, around.root, Split("."), following).0 == Some(around.root)
  {
    SplitName(".");
    assert ["."] + [] == ["."];
    WalkHere(around, files, around.root, [], following);
  }

  lemma TurnIsAllowed(around: Around, files: Manifest)
    ensures LinkAllowed(around, files, "d", TURN)
  {
    SplitName("d");
    assert around.root + ["d"][..0] == around.root;
    WalkStay(around, files, {});
  }

  /** "d/.." is the project when "d" is no link, and the directory above when "d" leads to the project. */
  lemma WalkDetour(around: Around, files: Manifest)
    requires "d" !in files || files["d"] == TURN
    ensures Resolved(around, files, "x", "d/..") == Some(if "d" in files then Up(around.root) else around.root)
  {
    var root := around.root;
    SplitName("x");
    SplitName("..");
    SplitFirst("d", "..");
    assert "d" + "/" + ".." == "d/.." && root + ["x"][..0] == root;
    assert (root + ["d"])[|root|..] == ["d"] && [".."] + [] == [".."];
    if "d" in files {
      WalkStay(around, files, {} + {Inside("d")});
      WalkPastLink(around, files, root, "d", [".."], {}, ".", root);
      WalkUp(around, files, root, [], {});
    } else {
      WalkPastName(around, files, root, "d", [".."], {});
      WalkUp(around, files, root + ["d"], [], {});
      assert Up(root + ["d"]) == root;
    }
  }

  lemma LandTurn(t: Tree, baseline: Manifest)
    requires WellFormed(t) && "d" !in baseline && "d" !in t.files && t.dirs == {}
    ensures Landed(t, baseline, baseline["d" := TURN]) == Some(t.(files := t.files["d" := TURN]))
  {
    TurnIsAllowed(t.around, t.files);
    OneEntry(t, baseline, "d", TURN);
    assert t.dirs + Ancestors("d") == t.dirs;
  }

  lemma DetourIsAllowed(around: Around, files: Manifest)
    requires around.root != [] && ("d" !in files || files["d"] == TURN)
    ensures LinkAllowed(around, files, "x", DETOUR) <==> "d" !in files
  {
    WalkDetour(around, files);
    assert !(around.root <= Up(around.root));
  }

  lemma LandDetour(t: Tree, baseline: Manifest)
    requires WellFormed(t) && "x" !in baseline && "x" !in t.files && t.dirs == {} && t.around.root != []
    requires "d" !in t.files || t.files["d"] == TURN
    ensures Landed(t, baseline, baseline["x" := DETOUR])
         == if "d" in t.files then None else Some(t.(files := t.files["x" := DETOUR]))
  {
    DetourIsAllowed(t.around, t.files);
    OneEntry(t, baseline, "x", DETOUR);
    assert t.dirs + Ancestors("x") == t.dirs;
  }

  /**
    A link "d" to the project itself and a link "x" to "d/..": with "x" first both land,
    with "d" first the link "x" leads out of the project and is refused.
   */
  lemma OrderOfLinksMatters(around: Around)
    requires around.root != []
    ensures var t := Tree(map[], {}, around); var first := map["x" := DETOUR]; var second := map["d" := TURN];
      && LandBoth(t, first, second) == Some(t.(files := map["x" := DETOUR, "d" := TURN]))
      && LandBoth(t, second, first) == None
  {
    var t := Tree(map[], {}, around);
    assert map[]["d" := TURN] == map["d" := TURN] && map[]["x" := DETOUR] == map["x" := DETOUR];
    LandTurn(t, map[]);
    LandDetour(t, map[]);
    LandTurn(t.(files := map["x" := DETOUR]), map[]);
    LandDetour(t.(files := map["d" := TURN]), map[]);
  }

  // ----- A linked directory -----

  /** A name in the project itself. */
  predicate IsTopName(name: string) {
    '/' !in name && IsName(name)
  }

  lemma TopSpot(t: Tree, name: string)
    ensures SpotAt(t.around.root, t.around.root + [name]) == Inside(name)
  {
    assert (t.around.root + [name])[|t.around.root|..] == [name];
  }

  lemma FollowName(t: Tree, at: Place, name: string, following: set<Spot>)
    requires IsName(name)
    ensures Follow(t, at, [name], following).0 == Enter(t, at, name, following).0
  {
    assert [name][1..] == [];
  }

  /** A link to a name beside it leads where that name leads. */
  lemma EnterLink(t: Tree, link: Path, target: string, following: set<Spot>)
    requires IsLink(t, link) && t.files[link].target == target && IsTopName(target) && Inside(link) !in following
    ensures Enter(t, t.around.root, link, following).0 ==
      Enter(t, t.around.root, target, following + {Inside(link)}).0
  {
    TopSpot(t, link);
    SplitName(target);
    FollowName(t, t.around.root, target, following + {Inside(link)});
    assert target[0] in target;
    assert TargetStart(t.around.root, target) == t.around.root;
  }

  lemma EnterTop(t: Tree, name: string, following: set<Spot>)
    requires name in t.dirs && name !in t.files
    ensures Enter(t, t.around.root, name, following).0 == Some(t.around.root + [name])
  {
    TopSpot(t, name);
  }

  lemma PlaceInTwo(t: Tree, first: string, second: string)
    ensures PlaceIn(t, [first, second]) ==
      match Enter(t, t.around.root, first, {}).0
      case None => None
      case Some(at) => Some(at + [second])
  {
    assert [first, second][..1] == [first] && [first][..0] == [];
    assert Descend(t, []).0 == Some(t.around.root);
  }

  lemma TwoSpot(t: Tree, first: string, second: string)
    ensures SpotAt(t.around.root, t.around.root + [first, second]) == Inside(first + "/" + second)
  {
    assert (t.around.root + [first, second])[|t.around.root|..] == [first, second];
    JoinSnoc([first], second);
    assert [first] + [second] == [first, second];
  }

  /** What is seen below a name that leads to a directory of the project. */
  lemma SeenBelow(t: Tree, link: string, target: string, name: string)
    requires '/' !in link && '/' !in name
    requires Enter(t, t.around.root, link, {}).0 == Some(t.around.root + [target])
    ensures Locate(t, link + "/" + name) == Some(t.around.root + [target, name])
    ensures Observed(t, link + "/" + name) == NodeOf(t, Inside(target + "/" + name))
  {
    SplitName(name);
    SplitFirst(link, name);
    assert [link] + [name] == [link, name];
    PlaceInTwo(t, link, name);
    assert t.around.root + [target] + [name] == t.around.root + [target, name];
    TwoSpot(t, target, name);
  }

  lemma BelowCrosses(t: Tree, link: Path, name: string)
    requires IsLink(t, link)
    ensures IsAncestor(link, link + "/" + name) && CrossesSymlink(t, link + "/" + name)
  {
    assert link in Ancestors(link + "/" + name);
  }

  /** A linked directory: `link` stands for the directory `target` beside it. */
  ghost predicate LinksDirectory(t: Tree, link: Path, target: Path) {
    && WellFormed(t) && IsTopName(link) && IsTopName(target)
    && IsLink(t, link) && t.files[link].target == target && target in t.dirs
  }

  lemma SeenThrough(t: Tree, link: Path, target: Path, name: string)
    requires LinksDirectory(t, link, target) && '/' !in name
    ensures CrossesSymlink(t, link + "/" + name)
    ensures Observed(t, link + "/" + name) == NodeOf(t, Inside(target + "/" + name))
  {
    EnterLink(t, link, target, {});
    EnterTop(t, target, {} + {Inside(link)});
    SeenBelow(t, link, target, name);
    BelowCrosses(t, link, name);
  }

  /**
    A linked directory cannot be replaced by a real one: a proposal with a file in place of
    one that is visible through the link is refused in an unchanged project.
   */
  lemma LinkedDirectoryIsRefused(t: Tree, entries: Manifest, link: Path, target: Path, name: string)
    requires LinksDirectory(t, link, target) && '/' !in name
    requires target + "/" + name in t.files && link + "/" + name in entries
    ensures !NoDrift(t, Diff(t.files, entries))
  {
    SeenThrough(t, link, target, name);
    assert link + "/" + name in Differing(t.files, entries) by {
      assert link + "/" + name !in t.files;
    }
    assert SeenThroughLink(t, link + "/" + name);
    UndriftedExactly(t, entries);
  }

  const CONTENT := File("1", 420)
  const TO_E := Symlink("2", 511, "e")

  /** "d" is a link to directory "e", which holds the given file. */
  function Linked(around: Around, name: string): Tree {
    Tree(map["d" := TO_E, "e/" + name := CONTENT], {"e"}, around)
  }

  lemma OneSlash(directory: string, name: string, a: Path)
    requires '/' !in directory && '/' !in name
    ensures IsAncestor(a, directory + "/" + name) <==> a == directory
    ensures !IsAncestor(a, directory)
  {
    var path := directory + "/" + name;
    if IsAncestor(a, path) {
      assert forall k :: 0 <= k < |path| && path[k] == '/' ==> k == |directory|;
      assert a == path[..|directory|];
    }
    if |a| < |directory| {
      assert directory[|a|] in directory;
    }
  }

  lemma LinkedIsLinked(around: Around, name: string)
    requires '/' !in name
    ensures LinksDirectory(Linked(around, name), "d", "e")
  {
    var t := Linked(around, name);
    forall p, a | p in t.files || p in t.dirs ensures IsAncestor(a, p) ==> a in t.dirs {
      OneSlash("e", name, a);
      OneSlash("d", name, a);
      assert "e" + "/" + name == "e/" + name;
    }
  }

  // ----- What a link shows -----

  const ADDED := File("3", 420)

  lemma SecondReplacesLink(around: Around, second: Manifest)
    requires second == map["d/x" := CONTENT, "e/y" := CONTENT]
    ensures PrefixFree(second)
    ensures Differing(Linked(around, "y").files, second) == {"d", "d/x"}
  {
    forall p, a | p in second && IsAncestor(a, p) ensures a !in second {
      OneSlash("d", "x", a);
      OneSlash("e", "y", a);
      assert "d" + "/" + "x" == "d/x" && "e" + "/" + "y" == "e/y";
    }
    assert "e/" + "y" == "e/y";
  }

  lemma TopIsNotCrossed(t: Tree, name: string)
    requires '/' !in name
    ensures !CrossesSymlink(t, name)
  {
    forall a ensures !IsAncestor(a, name) {
      OneSlash(name, name, a);
    }
  }

  lemma UnseenPair(t: Tree, baseline: Manifest, entries: Manifest, p: Path, q: Path)
    requires Differing(baseline, entries) == {p, q} && !CrossesSymlink(t, p) && Observed(t, q) == Nothing
    ensures NothingSeen(t, baseline, entries)
  {
  }

  lemma SecondIsUndrifted(around: Around, second: Manifest)
    requires second == map["d/x" := CONTENT, "e/y" := CONTENT]
    ensures WellFormed(Linked(around, "y"))
    ensures NoDrift(Linked(around, "y"), Diff(Linked(around, "y").files, second))
  {
    var t := Linked(around, "y");
    LinkedIsLinked(around, "y");
    SecondReplacesLink(around, second);
    SeenThrough(t, "d", "e", "x");
    assert "d" + "/" + "x" == "d/x" && "e" + "/" + "x" == "e/x";
    assert "e/x" != "e/" + "y" by {
      assert "e/x"[2] == 'x' && ("e/" + "y")[2] == 'y';
    }
    TopIsNotCrossed(t, "d");
    UnseenPair(t, t.files, second, "d", "d/x");
    UndriftedExactly(t, second);
  }

  lemma OnlyFiles(around: Around, files: Manifest, entries: Manifest)
    requires forall p :: p in entries ==> entries[p].File?
    ensures LinksStay(around, files, Diff(files, entries))
  {
    DiffDescribes(files, entries);
    forall c | c in Diff(files, entries) && c.staged.Some? ensures c.staged.value.File? {
      assert Describes(c, files, entries);
    }
    FilesStay(around, files, Diff(files, entries));
  }

  lemma FilesLand(t: Tree, entries: Manifest)
    requires WellFormed(t) && PrefixFree(entries) && NoDrift(t, Diff(t.files, entries))
    requires forall p :: p in entries ==> entries[p].File?
    ensures var after := t.(files := entries, dirs := t.dirs + InstalledParents(Diff(t.files, entries)));
      Landed(t, t.files, entries) == Some(after) && WellFormed(after)
  {
    OnlyFiles(t.around, t.files, entries);
    UndriftedPromotionCompletes(t, entries);
    LandedIs(t, t.files, entries);
    ApplyDiff(t.files, entries);
  }

  lemma NoParentOfPair(changes: seq<Change>, p: Path, q: Path, x: Path)
    requires Paths(changes) == {p, q} && !IsAncestor(x, p) && !IsAncestor(x, q)
    ensures x !in InstalledParents(changes)
  {
    forall c | c in changes ensures c.path == p || c.path == q {
      assert c.path in Paths(changes);
    }
  }

  lemma SecondLands(around: Around, second: Manifest)
    requires second == map["d/x" := CONTENT, "e/y" := CONTENT]
    ensures var t := Linked(around, "y"); var r := Landed(t, t.files, second);
      r.Some? && WellFormed(r.value) && r.value.files == second && "e/x" !in r.value.dirs
  {
    var t := Linked(around, "y");
    SecondIsUndrifted(around, second);
    SecondReplacesLink(around, second);
    FilesLand(t, second);
    DiffIsInOrder(t.files, second);
    NoParentOfPair(Diff(t.files, second), "d", "d/x", "e/x");
  }

  lemma AddBelow(t: Tree, baseline: Manifest, path: Path)
    requires WellFormed(t) && path !in baseline && path !in t.files && path !in t.dirs
    requires forall a :: a in Ancestors(path) ==> a !in t.files
    ensures Landed(t, baseline, baseline[path := ADDED])
         == Some(t.(files := t.files[path := ADDED], dirs := t.dirs + Ancestors(path)))
  {
    OneEntry(t, baseline, path, ADDED);
  }

  lemma SecondSeesFirst(t: Tree, baseline: Manifest, second: Manifest)
    requires LinksDirectory(t, "d", "e") && "e/x" in t.files && "d/x" !in baseline && "d/x" in second
    ensures Landed(t, baseline, second) == None
  {
    SeenThrough(t, "d", "e", "x");
    assert "d" + "/" + "x" == "d/x" && "e" + "/" + "x" == "e/x";
    DiffIsInOrder(baseline, second);
    DiffDescribes(baseline, second);
    assert "d/x" in Paths(Diff(baseline, second));
    var c :| c in Diff(baseline, second) && c.path == "d/x";
    assert Describes(c, baseline, second) && !NoDriftAt(t, c);
  }

  lemma FirstLands(around: Around)
    ensures var t := Linked(around, "y"); var r := Landed(t, t.files, t.files["e/x" := ADDED]);
      r.Some? && LinksDirectory(r.value, "d", "e") && "e/x" in r.value.files
  {
    var t := Linked(around, "y");
    LinkedIsLinked(around, "y");
    assert "e/" + "y" == "e/y" && "e" + "/" + "x" == "e/x";
    forall a | a in Ancestors("e/x") ensures a == "e" {
      OneSlash("e", "x", a);
    }
    AddBelow(t, t.files, "e/x");
    LandedIs(t, t.files, t.files["e/x" := ADDED]);
  }

  lemma FirstLandsLast(t: Tree, baseline: Manifest)
    requires WellFormed(t) && t.files == map["d/x" := CONTENT, "e/y" := CONTENT]
    requires "e/x" !in baseline && "e/x" !in t.dirs
    ensures Landed(t, baseline, baseline["e/x" := ADDED]).Some?
  {
    assert "e" + "/" + "x" == "e/x" && "e" + "/" + "y" == "e/y";
    forall a | a in Ancestors("e/x") ensures a == "e" {
      OneSlash("e", "x", a);
    }
    AddBelow(t, baseline, "e/x");
  }

  lemma OneOrderOnly(t: Tree, first: Manifest, second: Manifest)
    requires Landed(t, t.files, first).Some? && Landed(Landed(t, t.files, first).value, t.files, second) == None
    requires Landed(t, t.files, second).Some? && Landed(Landed(t, t.files, second).value, t.files, first).Some?
    ensures LandBoth(t, second, first).Some? && LandBoth(t, first, second) == None
  {
  }

  /**
    Proposals of disjoint paths and without links: one adds "e/x", the other replaces link
    "d" to directory "e" by a directory with file "d/x".  With the second first both land,
    with the first first its new file is seen at "d/x" and the second is refused as drift.
   */
  lemma OrderOfSightMatters(around: Around)
    ensures var t := Linked(around, "y");
      var first := t.files["e/x" := ADDED]; var second := map["d/x" := CONTENT, "e/y" := CONTENT];
      && Differing(t.files, first) !! Differing(t.files, second)
      && LandBoth(t, second, first).Some?
      && LandBoth(t, first, second) == None
  {
    var t := Linked(around, "y");
    var second := map["d/x" := CONTENT, "e/y" := CONTENT];
    assert "e/" + "y" == "e/y";
    SecondReplacesLink(around, second);
    FirstLands(around);
    SecondSeesFirst(Landed(t, t.files, t.files["e/x" := ADDED]).value, t.files, second);
    SecondLands(around, second);
    FirstLandsLast(Landed(t, t.files, second).value, t.files);
    OneOrderOnly(t, t.files["e/x" := ADDED], second);
  }
}
