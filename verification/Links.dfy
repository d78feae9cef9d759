/**
  Where a symlink leads (`Path.resolve(strict=False)`): what is missing or no directory is
  taken by its name, and a `..` goes up from wherever the names before it led.
 */
module Links {
  import opened Wrappers
  import opened Strings
  import opened Manifests
  import opened Places

  predicate IsAbsolute(target: string) {
    target != "" && target[0] == '/'
  }

  function TargetOf(files: Manifest, path: Path): Option<string> {
    if path in files && files[path].Symlink? then Some(files[path].target) else None
  }

  function TargetAt(around: Around, files: Manifest, spot: Spot): Option<string> {
    match spot
    case Inside(p) => TargetOf(files, p)
    case Outside(q) =>
      if !(q <= around.root) && q in around.files && around.files[q].Symlink?
      then Some(around.files[q].target) else None
  }

  /**
    Follow the components `rest` from a place, with the links that are being followed
    already.  The result is the place, or none at a loop, and the project paths looked at.
   */
  function Walk(around: Around, files: Manifest, at: Place, rest: seq<string>, following: set<Spot>):
    (Option<Place>, set<Path>)
    decreases LinkSpots(around, files) - following, |rest|
  {
    if rest == [] then (Some(at), {})
    else if rest[0] == "" || rest[0] == "." then Walk(around, files, at, rest[1..], following)
    else if rest[0] == ".." then Walk(around, files, Up(at), rest[1..], following)
    else
      var next := at + [rest[0]];
      var spot := SpotAt(around.root, next);
      match TargetAt(around, files, spot)
      case None =>
        var (end, looked) := Walk(around, files, next, rest[1..], following);
        (end, PathIn(spot) + looked)
      case Some(target) =>
        if spot in following then (None, PathIn(spot))
        else
          var (there, inner) := Walk(around, files, TargetStart(at, target), Split(target), following + {spot});
          match there
          case None => (None, PathIn(spot) + inner)
          case Some(place) =>
            var (end, outer) := Walk(around, files, place, rest[1..], following);
            (end, PathIn(spot) + inner + outer)
  }

  /** `destination.parent` */
  function ParentPlace(around: Around, path: Path): Place {
    around.root + Split(path)[..|Split(path)| - 1]
  }

  function Resolved(around: Around, files: Manifest, path: Path, target: string): Option<Place> {
    Walk(around, files, ParentPlace(around, path), Split(target), {}).0
  }

  /** The project paths that decide where the target leads. */
  function LookedAt(around: Around, files: Manifest, path: Path, target: string): set<Path> {
    Walk(around, files, ParentPlace(around, path), Split(target), {}).1
  }

  /** The two checks of `_apply_changes` on a staged symlink: relative, and inside the project. */
  predicate LinkAllowed(around: Around, files: Manifest, path: Path, e: Entry) {
    e.Symlink? ==>
      && !IsAbsolute(e.target)
      && var place := Resolved(around, files, path, e.target);
         place.Some? && around.root <= place.value
  }

  /** Only the links on the way decide where a walk ends. */
  lemma {:induction false} WalkLooksOnly(around: Around, files: Manifest, other: Manifest, at: Place,
    rest: seq<string>, following: set<Spot>)
    requires forall p :: p in Walk(around, files, at, rest, following).1 ==> TargetOf(files, p) == TargetOf(other, p)
    ensures Walk(around, other, at, rest, following) == Walk(around, files, at, rest, following)
    decreases LinkSpots(around, files) - following, |rest|
  {
    if rest == [] {
    } else if rest[0] == "" || rest[0] == "." {
      WalkLooksOnly(around, files, other, at, rest[1..], following);
    } else if rest[0] == ".." {
      WalkLooksOnly(around, files, other, Up(at), rest[1..], following);
    } else {
      var next := at + [rest[0]];
      var spot := SpotAt(around.root, next);
      assert TargetAt(around, other, spot) == TargetAt(around, files, spot);
      match TargetAt(around, files, spot)
      case None => WalkLooksOnly(around, files, other, next, rest[1..], following);
      case Some(target) =>
        if spot !in following {
          var from := TargetStart(at, target);
          WalkLooksOnly(around, files, other, from, Split(target), following + {spot});
          var there := Walk(around, files, from, Split(target), following + {spot}).0;
          if there.Some? {
            WalkLooksOnly(around, files, other, there.value, rest[1..], following);
          }
        }
    }
  }

  lemma AllowedLooksOnly(around: Around, files: Manifest, other: Manifest, path: Path, e: Entry)
    requires e.Symlink? ==>
      forall p :: p in LookedAt(around, files, path, e.target) ==> Lookup(files, p) == Lookup(other, p)
    ensures LinkAllowed(around, other, path, e) == LinkAllowed(around, files, path, e)
  {
    if e.Symlink? {
      forall p | p in LookedAt(around, files, path, e.target) ensures TargetOf(files, p) == TargetOf(other, p) {
      }
      WalkLooksOnly(around, files, other, ParentPlace(around, path), Split(e.target), {});
    }
  }

  lemma WalkPastName(around: Around, files: Manifest, at: Place, name: string, rest: seq<string>, following: set<Spot>)
    requires IsName(name) && TargetAt(around, files, SpotAt(around.root, at + [name])).None?
    ensures Walk(around, files, at, [name] + rest, following).0 == Walk(around, files, at + [name], rest, following).0
  {
    assert ([name] + rest)[1..] == rest;
  }

  lemma WalkPastLink(around: Around, files: Manifest, at: Place, name: string, rest: seq<string>,
    following: set<Spot>, target: string, place: Place)
    requires var spot := SpotAt(around.root, at + [name]);
      && IsName(name) && spot !in following && TargetAt(around, files, spot) == Some(target)
      && Walk(around, files, TargetStart(at, target), Split(target), following + {spot}).0 == Some(place)
    ensures Walk(around, files, at, [name] + rest, following).0 == Walk(around, files, place, rest, following).0
  {
    assert ([name] + rest)[1..] == rest;
  }

  lemma WalkUp(around: Around, files: Manifest, at: Place, rest: seq<string>, following: set<Spot>)
    ensures Walk(around, files, at, [".."] + rest, following) == Walk(around, files, Up(at), rest, following)
  {
    assert ([".."] + rest)[1..] == rest;
  }

  lemma WalkHere(around: Around, files: Manifest, at: Place, rest: seq<string>, following: set<Spot>)
    ensures Walk(around, files, at, ["."] + rest, following) == Walk(around, files, at, rest, following)
  {
    assert (["."] + rest)[1..] == rest;
  }
}
