/**
  The small file operations of `artifact_staging.py`, `_remove_entry` and
  `_atomic_install_entry`, through whatever links stand above a path, and the plain form
  that they have when there is none.
 */
module Entries {
  import opened Wrappers
  import opened Strings
  import opened Manifests
  import opened Places
  import opened PathLookup

  /** The tree an operation leaves, and whether it raised. */
  datatype Outcome = Done(tree: Tree) | Failed(tree: Tree)

  /** `_remove_entry` */
  function Remove(t: Tree, path: Path): Outcome {
    match Observed(t, path)
    case Nothing => Done(t)
    case Directory => Failed(t)
    case Leaf(_) => Done(WithoutLeaf(t, Locate(t, path).value))
  }

  /** The directory that was asked for, or the tree with which making it stopped. */
  datatype Making = Made(tree: Tree, at: Place) | Stopped(tree: Tree)

  /**
    The directory of a name below the one reached, made if nothing is there.  With a `cut`,
    the disk fails at the first directory to be made whose path is longer than that.
   */
  function EnterOrMake(m: Tree, at: Place, name: string, length: nat, cut: Option<nat>): Making {
    match Enter(m, at, name, {}).0
    case Some(place) => Made(m, place)
    case None =>
      if NodeAt(m, at + [name]) != Nothing || (cut.Some? && length > cut.value) then Stopped(m)
      else Made(WithDirectory(m, at + [name]), at + [name])
  }

  /** `mkdir(parents=True, exist_ok=True)` for the first parents of a path. */
  function MakeParents(t: Tree, parts: seq<string>, depth: nat, cut: Option<nat>): Making
    requires depth < |parts|
  {
    if depth == 0 then Made(t, t.around.root)
    else
      match MakeParents(t, parts, depth - 1, cut)
      case Stopped(m) => Stopped(m)
      case Made(m, at) => EnterOrMake(m, at, parts[depth - 1], |Join(parts[..depth])|, cut)
  }

  lemma MakeParentsTurn(t: Tree, parts: seq<string>, depth: nat, cut: Option<nat>)
    requires depth + 1 < |parts| && MakeParents(t, parts, depth, cut).Made?
    ensures var m := MakeParents(t, parts, depth, cut);
      MakeParents(t, parts, depth + 1, cut) ==
        EnterOrMake(m.tree, m.at, parts[depth], |Join(parts[..depth + 1])|, cut)
  {
  }

  /** `os.replace`, which fails on a directory. */
  function ReplaceAt(t: Tree, place: Place, entry: Entry): Outcome {
    if NodeAt(t, place) == Directory then Failed(t) else Done(WithLeaf(t, place, entry))
  }

  function InstallAt(t: Tree, parts: seq<string>, entry: Entry, cut: Option<nat>): Outcome
    requires parts != []
  {
    match MakeParents(t, parts, |parts| - 1, cut)
    case Stopped(m) => Failed(m)
    case Made(m, at) => if cut.Some? then Failed(m) else ReplaceAt(m, at + [parts[|parts| - 1]], entry)
  }

  /** `_atomic_install_entry`: the parents are made, then the entry is put in place. */
  function Install(t: Tree, path: Path, entry: Entry, cut: Option<nat>): Outcome {
    InstallAt(t, Split(path), entry, cut)
  }

  // ----- The plain form -----

  function PlainRemove(t: Tree, path: Path): Outcome {
    if path in t.files then Done(t.(files := t.files - {path}))
    else if path in t.dirs then Failed(t)
    else Done(t)
  }

  /** Something that is not a directory stands where one of the parents must be. */
  predicate ParentBlocked(t: Tree, path: Path) {
    exists a :: a in Ancestors(path) && a in t.files
  }

  /** The parents that are there before the disk fails. */
  function ParentsUpTo(path: Path, cut: Option<nat>): set<Path> {
    match cut
    case None => Ancestors(path)
    case Some(n) => set a | a in Ancestors(path) && |a| <= n
  }

  function PlainInstall(t: Tree, path: Path, entry: Entry, cut: Option<nat>): Outcome {
    var m := t.(dirs := t.dirs + ParentsUpTo(path, cut));
    if ParentBlocked(t, path) then Failed(t)
    else if cut.Some? || path in t.dirs then Failed(m)
    else Done(m.(files := m.files[path := entry]))
  }

  /** With no link above the path, removing is a matter of the path alone. */
  lemma RemoveIsPlain(t: Tree, path: Path)
    requires WellFormed(t) && !CrossesSymlink(t, path)
    ensures Remove(t, path) == PlainRemove(t, path)
  {
    LocatePlain(t, path);
  }

  /** The first parents of a path, given by its components, as far as a cut lets them be made. */
  function FirstParents(parts: seq<string>, depth: nat, cut: Option<nat>): set<Path>
    requires depth < |parts|
  {
    set i | 0 < i <= depth && (cut.Some? ==> |Join(parts[..i])| <= cut.value) :: Join(parts[..i])
  }

  function WithParents(t: Tree, parts: seq<string>, depth: nat, cut: Option<nat>): Tree
    requires depth < |parts|
  {
    t.(dirs := t.dirs + FirstParents(parts, depth, cut))
  }

  /** The parents that are made are the ancestors that the cut lets through. */
  lemma ParentIsMade(path: Path, cut: Option<nat>, a: Path)
    ensures a in FirstParents(Split(path), |Split(path)| - 1, cut) <==>
      IsAncestor(a, path) && (cut.Some? ==> |a| <= cut.value)
  {
    if a in FirstParents(Split(path), |Split(path)| - 1, cut) {
      var i :| 0 < i < |Split(path)| && Join(Split(path)[..i]) == a;
      FrontIsAncestor(path, i);
    }
    if IsAncestor(a, path) {
      AncestorIsFront(a, path);
    }
  }

  lemma OneParentMore(parts: seq<string>, depth: nat, cut: Option<nat>)
    requires depth + 1 < |parts|
    ensures FirstParents(parts, depth + 1, cut) == FirstParents(parts, depth, cut) +
      if cut.Some? && |Join(parts[..depth + 1])| > cut.value then {} else {Join(parts[..depth + 1])}
  {
  }

  /** How far the plain parents are made. */
  ghost predicate MadePlainly(t: Tree, parts: seq<string>, depth: nat, cut: Option<nat>)
    requires depth < |parts|
  {
    var m := MakeParents(t, parts, depth, cut);
    && m.tree == WithParents(t, parts, depth, cut)
    && (m.Made? ==> m.at == PlainPlace(t, parts, depth))
    && (m.Stopped? ==> cut.Some? && exists i :: 0 < i <= depth && |Join(parts[..i])| > cut.value)
  }

  lemma EnterMade(t: Tree, parts: seq<string>, depth: nat, cut: Option<nat>)
    requires depth + 1 < |parts| && Join(parts[..depth + 1]) !in t.files
    ensures var m := WithParents(t, parts, depth, cut); var a := Join(parts[..depth + 1]);
      var at := PlainPlace(t, parts, depth); var name := parts[depth];
      && at + [name] == PlainPlace(t, parts, depth + 1)
      && Enter(m, at, name, {}).0 == (if a in m.dirs then Some(at + [name]) else None)
      && NodeAt(m, at + [name]) == (if a in m.dirs then Directory else Nothing)
      && WithDirectory(m, at + [name]) == m.(dirs := m.dirs + {a})
  {
    var m := WithParents(t, parts, depth, cut);
    PlainSpot(m, parts, depth + 1);
    OneMore(t, parts, depth);
    EnterPlain(m, parts, depth);
  }

  lemma MakesPlainly(t: Tree, parts: seq<string>, depth: nat, cut: Option<nat>)
    requires depth + 1 < |parts| && Join(parts[..depth + 1]) !in t.files
    requires MadePlainly(t, parts, depth, cut)
    ensures MadePlainly(t, parts, depth + 1, cut)
  {
    OneParentMore(parts, depth, cut);
    if MakeParents(t, parts, depth, cut).Stopped? {
      var i :| 0 < i <= depth && |Join(parts[..i])| > cut.value;
      LessFront(parts, i, depth + 1);
    } else {
      EnterMade(t, parts, depth, cut);
    }
  }

  lemma {:induction false} MakeParentsPlain(t: Tree, parts: seq<string>, depth: nat, cut: Option<nat>)
    requires depth < |parts| && forall i :: 0 < i <= depth ==> Join(parts[..i]) !in t.files
    ensures MadePlainly(t, parts, depth, cut)
  {
    if depth == 0 {
      assert PlainPlace(t, parts, 0) == t.around.root;
      assert FirstParents(parts, 0, cut) == {};
    } else {
      MakeParentsPlain(t, parts, depth - 1, cut);
      MakesPlainly(t, parts, depth - 1, cut);
    }
  }

  /** One turn before the blocked parent finds a directory, one at it stops. */
  lemma BlockedTurn(t: Tree, parts: seq<string>, blocked: nat, depth: nat, cut: Option<nat>)
    requires WellFormed(t) && depth < blocked < |parts| && Linkless(t, parts, blocked)
    requires Join(parts[..blocked]) in t.files
    ensures EnterOrMake(t, PlainPlace(t, parts, depth), parts[depth], |Join(parts[..depth + 1])|, cut) ==
      if depth + 1 < blocked then Made(t, PlainPlace(t, parts, depth + 1)) else Stopped(t)
  {
    EnterPlain(t, parts, depth);
    PlainSpot(t, parts, depth + 1);
    OneMore(t, parts, depth);
    if depth + 1 < blocked {
      LessFront(parts, depth + 1, blocked);
    }
  }

  /** Nothing is made when a file stands where a parent must be: the parents above it are there. */
  lemma {:induction false} MakeParentsBlocked(t: Tree, parts: seq<string>, blocked: nat, depth: nat, cut: Option<nat>)
    requires WellFormed(t) && depth < |parts| && 0 < blocked < |parts| && Linkless(t, parts, blocked)
    requires Join(parts[..blocked]) in t.files
    ensures MakeParents(t, parts, depth, cut) ==
      if depth < blocked then Made(t, PlainPlace(t, parts, depth)) else Stopped(t)
  {
    if depth == 0 {
      assert PlainPlace(t, parts, 0) == t.around.root;
    } else {
      MakeParentsBlocked(t, parts, blocked, depth - 1, cut);
      if depth <= blocked {
        MakeParentsTurn(t, parts, depth - 1, cut);
        BlockedTurn(t, parts, blocked, depth - 1, cut);
      }
    }
  }

  lemma BlockedInstall(t: Tree, path: Path, entry: Entry, cut: Option<nat>)
    requires WellFormed(t) && !CrossesSymlink(t, path) && ParentBlocked(t, path)
    ensures Install(t, path, entry, cut) == Failed(t)
  {
    var a :| a in Ancestors(path) && a in t.files;
    AncestorIsFront(a, path);
    NotCrossed(t, path);
    MakeParentsBlocked(t, Split(path), |Split(a)|, |Split(path)| - 1, cut);
  }

  lemma ParentsAre(t: Tree, path: Path, cut: Option<nat>)
    ensures WithParents(t, Split(path), |Split(path)| - 1, cut) == t.(dirs := t.dirs + ParentsUpTo(path, cut))
  {
    forall a ensures a in FirstParents(Split(path), |Split(path)| - 1, cut) <==> a in ParentsUpTo(path, cut) {
      ParentIsMade(path, cut, a);
    }
  }

  lemma InstallAtPlainly(t: Tree, parts: seq<string>, entry: Entry, cut: Option<nat>)
    requires parts != [] && forall i :: 0 < i < |parts| ==> Join(parts[..i]) !in t.files
    ensures var m := WithParents(t, parts, |parts| - 1, cut);
      InstallAt(t, parts, entry, cut) ==
        if cut.Some? || NodeOf(m, Inside(Join(parts))) == Directory then Failed(m)
        else Done(m.(files := m.files[Join(parts) := entry]))
  {
    var n := |parts| - 1;
    MakeParentsPlain(t, parts, n, cut);
    OneMore(t, parts, n);
    PlainSpot(t, parts, n + 1);
  }

  lemma ClearInstall(t: Tree, path: Path, entry: Entry, cut: Option<nat>)
    requires WellFormed(t) && !ParentBlocked(t, path)
    ensures Install(t, path, entry, cut) == PlainInstall(t, path, entry, cut)
  {
    forall i | 0 < i < |Split(path)| ensures Join(Split(path)[..i]) !in t.files {
      FrontIsAncestor(path, i);
    }
    InstallAtPlainly(t, Split(path), entry, cut);
    ParentsAre(t, path, cut);
    JoinSplit(path);
    assert path !in ParentsUpTo(path, cut);
  }

  /** With no link above the path, installing makes the missing parents and puts the entry there. */
  lemma InstallIsPlain(t: Tree, path: Path, entry: Entry, cut: Option<nat>)
    requires WellFormed(t) && !CrossesSymlink(t, path)
    ensures Install(t, path, entry, cut) == PlainInstall(t, path, entry, cut)
  {
    if ParentBlocked(t, path) {
      BlockedInstall(t, path, entry, cut);
    } else {
      ClearInstall(t, path, entry, cut);
    }
  }

  // ----- A tree stays a tree -----

  lemma RemoveKeepsForm(t: Tree, path: Path)
    requires WellFormed(t)
    ensures WellFormed(Remove(t, path).tree)
  {
    if Observed(t, path).Leaf? {
      WithoutLeafKeepsForm(t, Locate(t, path).value);
    }
  }

  lemma GroundedBelow(t: Tree, at: Place, name: string)
    requires IsGrounded(t, at)
    ensures IsGrounded(WithDirectory(t, at + [name]), at + [name])
  {
  }

  lemma {:induction false} MakeParentsKeepsForm(t: Tree, parts: seq<string>, depth: nat, cut: Option<nat>)
    requires WellFormed(t) && depth < |parts| && forall name :: name in parts ==> '/' !in name
    ensures var m := MakeParents(t, parts, depth, cut); WellFormed(m.tree) && (m.Made? ==> IsGrounded(m.tree, m.at))
  {
    if depth > 0 {
      MakeParentsKeepsForm(t, parts, depth - 1, cut);
      var before := MakeParents(t, parts, depth - 1, cut);
      if before.Made? {
        var name := parts[depth - 1];
        EnterIsGrounded(before.tree, before.at, name, {});
        if NodeAt(before.tree, before.at + [name]) == Nothing {
          WithDirectoryKeepsForm(before.tree, before.at, name);
          GroundedBelow(before.tree, before.at, name);
        }
      }
    }
  }

  lemma InstallKeepsForm(t: Tree, path: Path, entry: Entry, cut: Option<nat>)
    requires WellFormed(t)
    ensures WellFormed(Install(t, path, entry, cut).tree)
  {
    var parts := Split(path);
    SplitHasNoSlash(path);
    MakeParentsKeepsForm(t, parts, |parts| - 1, cut);
    var m := MakeParents(t, parts, |parts| - 1, cut);
    if m.Made? && NodeAt(m.tree, m.at + [parts[|parts| - 1]]) != Directory {
      WithLeafKeepsForm(m.tree, m.at, parts[|parts| - 1], entry);
    }
  }
}
