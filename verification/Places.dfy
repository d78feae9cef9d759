/**
  The project on disk and the file system around it.  A place is an absolute path by its
  components; a path is one of the source's strings relative to the project.
 */
module Places {
  import opened Wrappers
  import opened Ordering
  import opened Strings
  import opened Manifests

  // ----- Paths and directories -----

  predicate IsAncestor(a: Path, p: Path) {
    |a| < |p| && p[..|a|] == a && p[|a|] == '/'
  }

  /** `Path(p).parents` without the project root itself. */
  function Ancestors(p: Path): (r: set<Path>)
    ensures forall a :: a in r <==> IsAncestor(a, p)
  {
    var r := set i | 0 <= i < |p| && p[i] == '/' :: p[..i];
    assert forall a :: IsAncestor(a, p) ==> p[..|a|] in r;
    r
  }

  lemma AncestorIsLess(a: Path, p: Path)
    requires IsAncestor(a, p)
    ensures Less(a, p) && a != p && !IsAncestor(p, a)
  {
    PrefixIsLess(a, p);
  }

  lemma AncestorsOfAncestor(a: Path, b: Path, c: Path)
    requires IsAncestor(a, b) && IsAncestor(b, c)
    ensures IsAncestor(a, c)
  {
    assert c[..|a|] == c[..|b|][..|a|];
    assert c[|a|] == c[..|b|][|a|];
  }

  lemma AncestorsInLine(a: Path, b: Path, p: Path)
    requires IsAncestor(a, p) && IsAncestor(b, p)
    ensures a == b || IsAncestor(a, b) || IsAncestor(b, a)
  {
    if |a| < |b| {
      assert b[..|a|] == p[..|b|][..|a|] && b[|a|] == p[..|b|][|a|];
    } else if |b| < |a| {
      assert a[..|b|] == p[..|a|][..|b|] && a[|b|] == p[..|a|][|b|];
    }
  }

  type Place = seq<string>

  /** Where the project lies, and the files, links and directories outside it. */
  datatype Around = Around(root: Place, files: map<Place, Entry>, dirs: set<Place>)

  /** The tracked files and links of the project, its directories, and what is around it. */
  datatype Tree = Tree(files: Manifest, dirs: set<Path>, around: Around)

  /** No path is both, and every ancestor of a file or directory is a directory. */
  ghost predicate WellFormed(t: Tree) {
    && t.files.Keys !! t.dirs
    && forall p, a :: (p in t.files || p in t.dirs) && IsAncestor(a, p) ==> a in t.dirs
  }

  /** A manifest that some tree can hold: no file below another file. */
  ghost predicate PrefixFree(m: Manifest) {
    forall p, a :: p in m && IsAncestor(a, p) ==> a !in m
  }

  lemma HeldIsPrefixFree(t: Tree)
    requires WellFormed(t)
    ensures PrefixFree(t.files)
  {
  }

  // ----- What is at a place -----

  /** A place is a path of the project, or outside it. */
  datatype Spot = Inside(path: Path) | Outside(place: Place)

  function SpotAt(root: Place, place: Place): Spot {
    if root < place then Inside(Join(place[|root|..])) else Outside(place)
  }

  datatype Node = Nothing | Directory | Leaf(entry: Entry)

  function NodeOf(t: Tree, spot: Spot): Node {
    match spot
    case Inside(p) => if p in t.files then Leaf(t.files[p]) else if p in t.dirs then Directory else Nothing
    case Outside(q) =>
      if q <= t.around.root then Directory
      else if q in t.around.files then Leaf(t.around.files[q])
      else if q in t.around.dirs then Directory
      else Nothing
  }

  function NodeAt(t: Tree, place: Place): Node {
    NodeOf(t, SpotAt(t.around.root, place))
  }

  /** The parent of a place (`..`). */
  function Up(place: Place): Place {
    if place == [] then [] else place[..|place| - 1]
  }

  predicate IsName(component: string) {
    component != "" && component != "." && component != ".."
  }

  /** Where a link target starts from. */
  function TargetStart(at: Place, target: string): Place {
    if target != "" && target[0] == '/' then [] else at
  }

  function PathIn(spot: Spot): set<Path> {
    match spot
    case Inside(p) => {p}
    case Outside(_) => {}
  }

  ghost function LinkSpots(around: Around, files: Manifest): set<Spot> {
    (set p | p in files && files[p].Symlink? :: Inside(p)) +
    (set q | q in around.files && around.files[q].Symlink? :: Outside(q))
  }

  /** If the place is in the project, a directory is there. */
  predicate IsGrounded(t: Tree, place: Place) {
    SpotAt(t.around.root, place).Inside? ==> SpotAt(t.around.root, place).path in t.dirs
  }

  lemma UpIsGrounded(t: Tree, place: Place)
    requires WellFormed(t) && IsGrounded(t, place)
    ensures IsGrounded(t, Up(place))
  {
    var root := t.around.root;
    if root < Up(place) {
      var parts := place[|root|..];
      JoinFront(parts, |parts| - 1);
      assert Up(place)[|root|..] == parts[..|parts| - 1];
      assert IsAncestor(Join(parts[..|parts| - 1]), Join(parts));
    }
  }

  /** The place that the first components of a path name when no link is on the way. */
  function PlainPlace(t: Tree, parts: seq<string>, depth: nat): Place
    requires depth <= |parts|
  {
    t.around.root + parts[..depth]
  }

  lemma PlainSpot(t: Tree, parts: seq<string>, depth: nat)
    requires 0 < depth <= |parts|
    ensures SpotAt(t.around.root, PlainPlace(t, parts, depth)) == Inside(Join(parts[..depth]))
  {
    assert PlainPlace(t, parts, depth)[|t.around.root|..] == parts[..depth];
  }

  lemma OneMore(t: Tree, parts: seq<string>, depth: nat)
    requires depth < |parts|
    ensures PlainPlace(t, parts, depth) + [parts[depth]] == PlainPlace(t, parts, depth + 1)
    ensures parts[..depth + 1][..depth] == parts[..depth]
    ensures depth + 1 == |parts| ==> parts[..depth + 1] == parts
  {
  }

  lemma LessFront(parts: seq<string>, i: nat, j: nat)
    requires 0 < i < j <= |parts|
    ensures IsAncestor(Join(parts[..i]), Join(parts[..j]))
  {
    JoinFront(parts[..j], i);
    assert parts[..j][..i] == parts[..i];
  }

  lemma FrontIsAncestor(path: Path, depth: nat)
    requires 0 < depth < |Split(path)|
    ensures IsAncestor(Join(Split(path)[..depth]), path)
  {
    JoinSplit(path);
    JoinFront(Split(path), depth);
  }

  lemma AncestorIsFront(a: Path, path: Path)
    requires IsAncestor(a, path)
    ensures 0 < |Split(a)| < |Split(path)| && Split(path)[..|Split(a)|] == Split(a)
    ensures Join(Split(path)[..|Split(a)|]) == a
  {
    assert path == a + "/" + path[|a| + 1..];
    SplitAtSlash(a, path[|a| + 1..]);
    JoinSplit(a);
  }

  // ----- Changing what is at a place -----

  function WithLeaf(t: Tree, place: Place, entry: Entry): Tree {
    match SpotAt(t.around.root, place)
    case Inside(p) => t.(files := t.files[p := entry])
    case Outside(q) => t.(around := t.around.(files := t.around.files[q := entry]))
  }

  function WithoutLeaf(t: Tree, place: Place): Tree {
    match SpotAt(t.around.root, place)
    case Inside(p) => t.(files := t.files - {p})
    case Outside(q) => t.(around := t.around.(files := t.around.files - {q}))
  }

  function WithDirectory(t: Tree, place: Place): Tree {
    match SpotAt(t.around.root, place)
    case Inside(p) => t.(dirs := t.dirs + {p})
    case Outside(q) => t.(around := t.around.(dirs := t.around.dirs + {q}))
  }

  function WithoutDirectory(t: Tree, place: Place): Tree {
    match SpotAt(t.around.root, place)
    case Inside(p) => t.(dirs := t.dirs - {p})
    case Outside(q) => t.(around := t.around.(dirs := t.around.dirs - {q}))
  }

  /** `not any(directory.iterdir())`: nothing lies below the directory. */
  predicate IsBare(t: Tree, place: Place) {
    match SpotAt(t.around.root, place)
    case Inside(d) =>
      && (forall p :: p in t.files ==> !IsAncestor(d, p))
      && (forall e :: e in t.dirs ==> !IsAncestor(d, e))
    case Outside(q) =>
      && !(q <= t.around.root)
      && (forall p :: p in t.around.files ==> !(q < p))
      && (forall e :: e in t.around.dirs ==> !(q < e))
  }

  /** The parents of what lies in a directory are that directory and its parents. */
  lemma AncestorsBelow(root: Place, at: Place, name: string, a: Path)
    requires '/' !in name && root <= at
    requires IsAncestor(a, Join(at[|root|..] + [name]))
    ensures root < at && (a == Join(at[|root|..]) || IsAncestor(a, Join(at[|root|..])))
  {
    var parts := at[|root|..];
    var path := Join(parts + [name]);
    assert parts == [] ==> parts + [name] == [name];
    if parts != [] {
      JoinSnoc(parts, name);
      var d := Join(parts);
      assert forall k :: |d| < k < |path| ==> path[k] in name;
      assert path[..|d|] == d && path[..|a|] == a;
      assert |a| <= |d|;
      if |a| < |d| {
        assert d[..|a|] == path[..|a|] && d[|a|] == path[|a|];
      }
    }
  }

  lemma BelowDirectory(t: Tree, at: Place, name: string, a: Path)
    requires WellFormed(t) && IsGrounded(t, at) && '/' !in name
    requires SpotAt(t.around.root, at + [name]).Inside? && IsAncestor(a, SpotAt(t.around.root, at + [name]).path)
    ensures a in t.dirs
  {
    var root := t.around.root;
    assert (at + [name])[|root|..] == at[|root|..] + [name];
    AncestorsBelow(root, at, name, a);
  }

  lemma WithLeafKeepsForm(t: Tree, at: Place, name: string, entry: Entry)
    requires WellFormed(t) && IsGrounded(t, at) && '/' !in name && NodeAt(t, at + [name]) != Directory
    ensures WellFormed(WithLeaf(t, at + [name], entry))
  {
    var spot := SpotAt(t.around.root, at + [name]);
    if spot.Inside? {
      forall a | IsAncestor(a, spot.path) ensures a in t.dirs {
        BelowDirectory(t, at, name, a);
      }
    }
  }

  lemma WithDirectoryKeepsForm(t: Tree, at: Place, name: string)
    requires WellFormed(t) && IsGrounded(t, at) && '/' !in name && NodeAt(t, at + [name]) == Nothing
    ensures WellFormed(WithDirectory(t, at + [name]))
  {
    var spot := SpotAt(t.around.root, at + [name]);
    if spot.Inside? {
      forall a | IsAncestor(a, spot.path) ensures a in t.dirs {
        BelowDirectory(t, at, name, a);
      }
    }
  }

  lemma WithoutLeafKeepsForm(t: Tree, place: Place)
    requires WellFormed(t)
    ensures WellFormed(WithoutLeaf(t, place))
  {
  }

  lemma WithoutDirectoryKeepsForm(t: Tree, place: Place)
    requires WellFormed(t) && IsBare(t, place)
    ensures WellFormed(WithoutDirectory(t, place))
  {
  }
}
