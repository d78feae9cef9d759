/**
  What the operating system finds at a path: links in place of directories are followed,
  a link in the last place is not (`exists`, `lstat`, `is_dir`, `mkdir`, `unlink`, `replace`).
  Every lookup also says which paths of the project it depends on.
 */
module PathLookup {
  import opened Wrappers
  import opened Strings
  import opened Manifests
  import opened Places

  /** The directory that a name in a directory leads to, if any; `following` are the links being followed. */
  function Enter(t: Tree, at: Place, name: string, following: set<Spot>): (Option<Place>, set<Path>)
    decreases LinkSpots(t.around, t.files) - following, 0
  {
    var spot := SpotAt(t.around.root, at + [name]);
    match NodeOf(t, spot)
    case Nothing => (None, PathIn(spot))
    case Directory => (Some(at + [name]), PathIn(spot))
    case Leaf(File(_, _)) => (None, PathIn(spot))
    case Leaf(Symlink(_, _, target)) =>
      if spot in following then (None, PathIn(spot))
      else
        var (end, seen) := Follow(t, TargetStart(at, target), Split(target), following + {spot});
        (end, PathIn(spot) + seen)
  }

  /** The directory that the components of a link target lead to. */
  function Follow(t: Tree, at: Place, rest: seq<string>, following: set<Spot>): (Option<Place>, set<Path>)
    decreases LinkSpots(t.around, t.files) - following, |rest|
  {
    if rest == [] then (Some(at), {})
    else if rest[0] == "" || rest[0] == "." then Follow(t, at, rest[1..], following)
    else if rest[0] == ".." then Follow(t, Up(at), rest[1..], following)
    else
      match Enter(t, at, rest[0], following)
      case (None, seen) => (None, seen)
      case (Some(place), seen) =>
        var (end, more) := Follow(t, place, rest[1..], following);
        (end, seen + more)
  }

  /** The directory that the first names of a path lead to. */
  function Descend(t: Tree, names: seq<string>): (Option<Place>, set<Path>) {
    if names == [] then (Some(t.around.root), {})
    else
      var n := |names| - 1;
      match Descend(t, names[..n])
      case (None, seen) => (None, seen)
      case (Some(at), seen) =>
        var (end, more) := Enter(t, at, names[n], {});
        (end, seen + more)
  }

  /** The place that the last component names, if the directory above it is there. */
  function PlaceIn(t: Tree, parts: seq<string>): Option<Place>
    requires parts != []
  {
    match Descend(t, parts[..|parts| - 1]).0
    case None => None
    case Some(at) => Some(at + [parts[|parts| - 1]])
  }

  /** The place that a path names: links above it are followed. */
  function Locate(t: Tree, path: Path): Option<Place> {
    PlaceIn(t, Split(path))
  }

  /** What `lstat` finds. */
  function Observed(t: Tree, path: Path): Node {
    match Locate(t, path)
    case None => Nothing
    case Some(place) => NodeAt(t, place)
  }

  /** What `_entry_for_path` returns; it raises on a directory. */
  function ObservedEntry(t: Tree, path: Path): Option<Entry> {
    var node := Observed(t, path);
    if node.Leaf? then Some(node.entry) else None
  }

  /** The directory that `is_dir` finds: here a link in the last place is followed too. */
  function DirectoryAt(t: Tree, path: Path): Option<Place> {
    Descend(t, Split(path)).0
  }

  /** The paths of the project that decide what is observed. */
  function Views(t: Tree, path: Path): set<Path> {
    Descend(t, Split(path)[..|Split(path)| - 1]).1 +
    match Locate(t, path)
    case None => {}
    case Some(place) => PathIn(SpotAt(t.around.root, place))
  }

  // ----- A lookup depends only on what it passes -----

  ghost predicate SameAt(t: Tree, u: Tree, paths: set<Path>) {
    t.around == u.around && forall p :: p in paths ==> NodeOf(t, Inside(p)) == NodeOf(u, Inside(p))
  }

  lemma {:induction false} EnterSame(t: Tree, u: Tree, at: Place, name: string, following: set<Spot>)
    requires SameAt(t, u, Enter(t, at, name, following).1)
    ensures Enter(u, at, name, following) == Enter(t, at, name, following)
    decreases LinkSpots(t.around, t.files) - following, 0
  {
    var spot := SpotAt(t.around.root, at + [name]);
    assert NodeOf(u, spot) == NodeOf(t, spot);
    match NodeOf(t, spot)
    case Leaf(Symlink(_, _, target)) =>
      if spot !in following {
        FollowSame(t, u, TargetStart(at, target), Split(target), following + {spot});
      }
    case _ =>
  }

  lemma {:induction false} FollowSame(t: Tree, u: Tree, at: Place, rest: seq<string>, following: set<Spot>)
    requires SameAt(t, u, Follow(t, at, rest, following).1)
    ensures Follow(u, at, rest, following) == Follow(t, at, rest, following)
    decreases LinkSpots(t.around, t.files) - following, |rest|
  {
    if rest == [] {
    } else if rest[0] == "" || rest[0] == "." {
      FollowSame(t, u, at, rest[1..], following);
    } else if rest[0] == ".." {
      FollowSame(t, u, Up(at), rest[1..], following);
    } else {
      EnterSame(t, u, at, rest[0], following);
      var next := Enter(t, at, rest[0], following).0;
      if next.Some? {
        FollowSame(t, u, next.value, rest[1..], following);
      }
    }
  }

  lemma {:induction false} DescendSame(t: Tree, u: Tree, names: seq<string>)
    requires SameAt(t, u, Descend(t, names).1)
    ensures Descend(u, names) == Descend(t, names)
  {
    if names != [] {
      var n := |names| - 1;
      DescendSame(t, u, names[..n]);
      var at := Descend(t, names[..n]).0;
      if at.Some? {
        EnterSame(t, u, at.value, names[n], {});
      }
    }
  }

  /** What is seen at a path depends only on the paths that the lookup passes. */
  lemma ObservedSame(t: Tree, u: Tree, path: Path)
    requires SameAt(t, u, Views(t, path))
    ensures Observed(u, path) == Observed(t, path) && Views(u, path) == Views(t, path)
  {
    DescendSame(t, u, Split(path)[..|Split(path)| - 1]);
    var place := Locate(t, path);
    if place.Some? {
      assert NodeAt(u, place.value) == NodeAt(t, place.value);
    }
  }

  // ----- A lookup ends in a directory -----

  lemma {:induction false} EnterIsGrounded(t: Tree, at: Place, name: string, following: set<Spot>)
    requires WellFormed(t) && IsGrounded(t, at)
    ensures Enter(t, at, name, following).0.Some? ==> IsGrounded(t, Enter(t, at, name, following).0.value)
    decreases LinkSpots(t.around, t.files) - following, 0
  {
    var spot := SpotAt(t.around.root, at + [name]);
    match NodeOf(t, spot)
    case Leaf(Symlink(_, _, target)) =>
      if spot !in following {
        FollowIsGrounded(t, TargetStart(at, target), Split(target), following + {spot});
      }
    case _ =>
  }

  lemma {:induction false} FollowIsGrounded(t: Tree, at: Place, rest: seq<string>, following: set<Spot>)
    requires WellFormed(t) && IsGrounded(t, at)
    ensures Follow(t, at, rest, following).0.Some? ==> IsGrounded(t, Follow(t, at, rest, following).0.value)
    decreases LinkSpots(t.around, t.files) - following, |rest|
  {
    if rest == [] {
    } else if rest[0] == "" || rest[0] == "." {
      FollowIsGrounded(t, at, rest[1..], following);
    } else if rest[0] == ".." {
      UpIsGrounded(t, at);
      FollowIsGrounded(t, Up(at), rest[1..], following);
    } else {
      EnterIsGrounded(t, at, rest[0], following);
      var next := Enter(t, at, rest[0], following).0;
      if next.Some? {
        FollowIsGrounded(t, next.value, rest[1..], following);
      }
    }
  }

  lemma {:induction false} DescendIsGrounded(t: Tree, names: seq<string>)
    requires WellFormed(t)
    ensures Descend(t, names).0.Some? ==> IsGrounded(t, Descend(t, names).0.value)
  {
    if names != [] {
      var n := |names| - 1;
      DescendIsGrounded(t, names[..n]);
      var at := Descend(t, names[..n]).0;
      if at.Some? {
        EnterIsGrounded(t, at.value, names[n], {});
      }
    }
  }

  // ----- Without links on the way, a path lies where it says -----

  predicate IsLink(t: Tree, path: Path) {
    path in t.files && t.files[path].Symlink?
  }

  /** `_require_safe_parents` raises when a parent is a symlink. */
  predicate CrossesSymlink(t: Tree, path: Path) {
    exists a :: a in Ancestors(path) && IsLink(t, a)
  }

  lemma EnterPlain(t: Tree, parts: seq<string>, depth: nat)
    requires depth < |parts| && !IsLink(t, Join(parts[..depth + 1]))
    ensures Enter(t, PlainPlace(t, parts, depth), parts[depth], {}).0 ==
      if NodeOf(t, Inside(Join(parts[..depth + 1]))) == Directory then Some(PlainPlace(t, parts, depth + 1)) else None
  {
    PlainSpot(t, parts, depth + 1);
    OneMore(t, parts, depth);
  }

  /** No link among the first components. */
  ghost predicate Linkless(t: Tree, parts: seq<string>, depth: nat)
    requires depth <= |parts|
  {
    forall i :: 0 < i <= depth ==> !IsLink(t, Join(parts[..i]))
  }

  lemma {:induction false} DescendPlain(t: Tree, parts: seq<string>, depth: nat)
    requires WellFormed(t) && depth <= |parts| && Linkless(t, parts, depth)
    ensures Descend(t, parts[..depth]).0 ==
      if depth == 0 || Join(parts[..depth]) in t.dirs then Some(PlainPlace(t, parts, depth)) else None
  {
    if depth == 0 {
      assert PlainPlace(t, parts, 0) == t.around.root;
    } else {
      DescendPlain(t, parts, depth - 1);
      OneMore(t, parts, depth - 1);
      EnterPlain(t, parts, depth - 1);
      if depth > 1 {
        LessFront(parts, depth - 1, depth);
      }
    }
  }

  lemma PlaceInPlain(t: Tree, parts: seq<string>)
    requires WellFormed(t) && parts != [] && Linkless(t, parts, |parts| - 1)
    ensures PlaceIn(t, parts).None? ==> NodeOf(t, Inside(Join(parts))) == Nothing
    ensures PlaceIn(t, parts).Some? ==> PlaceIn(t, parts).value == PlainPlace(t, parts, |parts|)
    ensures SpotAt(t.around.root, PlainPlace(t, parts, |parts|)) == Inside(Join(parts))
  {
    var n := |parts| - 1;
    DescendPlain(t, parts, n);
    OneMore(t, parts, n);
    PlainSpot(t, parts, n + 1);
    if n > 0 {
      LessFront(parts, n, n + 1);
    }
  }

  lemma NotCrossed(t: Tree, path: Path)
    requires !CrossesSymlink(t, path)
    ensures Linkless(t, Split(path), |Split(path)| - 1)
  {
    forall i | 0 < i < |Split(path)| ensures !IsLink(t, Join(Split(path)[..i])) {
      FrontIsAncestor(path, i);
    }
  }

  lemma LocatePlain(t: Tree, path: Path)
    requires WellFormed(t) && !CrossesSymlink(t, path)
    ensures Locate(t, path).None? ==> path !in t.files && path !in t.dirs
    ensures Locate(t, path).Some? ==> SpotAt(t.around.root, Locate(t, path).value) == Inside(path)
    ensures Locate(t, path).Some? ==> Locate(t, path).value == PlainPlace(t, Split(path), |Split(path)|)
  {
    NotCrossed(t, path);
    PlaceInPlain(t, Split(path));
    JoinSplit(path);
  }

  /** What is seen at a path is what the tree holds there, unless a link is above it. */
  lemma ObservedPlain(t: Tree, path: Path)
    requires WellFormed(t) && !CrossesSymlink(t, path)
    ensures Observed(t, path) == NodeOf(t, Inside(path))
  {
    LocatePlain(t, path);
  }

  lemma DirectoryPlain(t: Tree, path: Path)
    requires WellFormed(t) && !CrossesSymlink(t, path) && !IsLink(t, path)
    ensures DirectoryAt(t, path).Some? <==> path in t.dirs
    ensures path in t.dirs ==> DirectoryAt(t, path) == Locate(t, path)
  {
    var parts := Split(path);
    NotCrossed(t, path);
    LocatePlain(t, path);
    JoinSplit(path);
    assert parts[..|parts|] == parts;
    DescendPlain(t, parts, |parts|);
  }

  /** Nothing that the tree holds lies below a link. */
  lemma HeldIsNotBelowLink(t: Tree, path: Path)
    requires WellFormed(t) && (path in t.files || path in t.dirs)
    ensures !CrossesSymlink(t, path)
  {
  }
}
