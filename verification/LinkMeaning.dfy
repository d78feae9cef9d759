/**
  What a chain of names means in a file system with links, one name at a time, and that both
  lookups have this meaning: where a link target leads (`Path.resolve`) and where the
  operating system finds a path.
 */
module LinkMeaning {
  import opened Wrappers
  import opened Collections
  import opened Strings
  import opened Manifests
  import opened Places
  import opened PathLookup
  import opened Links

  /** What stands at a place, for someone on the way: nothing in the way, a link, or the end of the way. */
  datatype Sight = Pass | Jump(target: string) | Halt

  /** The place after one name that is no link. */
  function Stepped(at: Place, part: string): Place {
    if part == "" || part == "." then at
    else if part == ".." then if at == [] then [] else at[..|at| - 1]
    else at + [part]
  }

  /** A target that starts with a slash is followed from the top, any other from where its link lies. */
  function From(at: Place, target: string): Place {
    if target != "" && target[0] == '/' then [] else at
  }

  /** Where the names lead from a place, with at most `fuel` steps; a link is replaced by its target. */
  function Lead(root: Place, see: Spot -> Sight, at: Place, parts: seq<string>, fuel: nat): Option<Place>
    decreases fuel
  {
    if parts == [] then Some(at)
    else if fuel == 0 then None
    else if !IsName(parts[0]) then Lead(root, see, Stepped(at, parts[0]), parts[1..], fuel - 1)
    else
      match see(SpotAt(root, at + [parts[0]]))
      case Pass => Lead(root, see, at + [parts[0]], parts[1..], fuel - 1)
      case Jump(target) => Lead(root, see, From(at, target), Split(target) + parts[1..], fuel - 1)
      case Halt => None
  }

  ghost predicate Leads(root: Place, see: Spot -> Sight, at: Place, parts: seq<string>, end: Place) {
    exists fuel: nat :: Lead(root, see, at, parts, fuel) == Some(end)
  }

  // ----- Chains of names -----

  lemma {:induction false} LeadMore(root: Place,
    see: Spot -> Sight, at: Place, parts: seq<string>, fuel: nat, more: nat)
    requires fuel <= more && Lead(root, see, at, parts, fuel).Some?
    ensures Lead(root, see, at, parts, more) == Lead(root, see, at, parts, fuel)
    decreases fuel
  {
    if parts != [] {
      if !IsName(parts[0]) {
        LeadMore(root, see, Stepped(at, parts[0]), parts[1..], fuel - 1, more - 1);
      } else {
        match see(SpotAt(root, at + [parts[0]]))
        case Pass => LeadMore(root, see, at + [parts[0]], parts[1..], fuel - 1, more - 1);
        case Jump(target) =>
          LeadMore(root, see, From(at, target), Split(target) + parts[1..], fuel - 1, more - 1);
        case Halt =>
      }
    }
  }

  /** Names lead to one place at most. */
  lemma LeadsToOne(root: Place, see: Spot -> Sight, at: Place, parts: seq<string>, a: Place, b: Place)
    requires Leads(root, see, at, parts, a) && Leads(root, see, at, parts, b)
    ensures a == b
  {
    var m: nat :| Lead(root, see, at, parts, m) == Some(a);
    var n: nat :| Lead(root, see, at, parts, n) == Some(b);
    if m <= n {
      LeadMore(root, see, at, parts, m, n);
    } else {
      LeadMore(root, see, at, parts, n, m);
    }
  }

  lemma Reassociate(a: seq<string>, b: seq<string>, c: seq<string>)
    ensures a + (b + c) == a + b + c
    ensures b != [] ==> (b + c)[0] == b[0] && (b + c)[1..] == b[1..] + c
  {
  }

  /** The first names are done after a number of steps that is their own, and the others go on from there. */
  lemma {:induction false} LeadSplit(root: Place,
    see: Spot -> Sight, at: Place, a: seq<string>, b: seq<string>, fuel: nat)
    returns (middle: Place, k: nat)
    requires Lead(root, see, at, a + b, fuel).Some?
    ensures k <= fuel && Lead(root, see, at, a, k) == Some(middle)
    ensures forall j: nat :: j < k ==> Lead(root, see, at, a, j) == None
    ensures Lead(root, see, middle, b, fuel - k) == Lead(root, see, at, a + b, fuel)
    decreases fuel
  {
    Reassociate([], a, b);
    if a == [] {
      assert a + b == b;
      middle, k := at, 0;
    } else if !IsName(a[0]) {
      middle, k := LeadSplit(root, see, Stepped(at, a[0]), a[1..], b, fuel - 1);
      k := k + 1;
    } else {
      match see(SpotAt(root, at + [a[0]]))
      case Pass =>
        middle, k := LeadSplit(root, see, at + [a[0]], a[1..], b, fuel - 1);
        k := k + 1;
      case Jump(target) =>
        Reassociate(Split(target), a[1..], b);
        middle, k := LeadSplit(root, see, From(at, target), Split(target) + a[1..], b, fuel - 1);
        k := k + 1;
    }
  }

  lemma {:induction false} LeadJoin(root: Place, see: Spot -> Sight, at: Place, a: seq<string>, b: seq<string>,
    k: nat, l: nat)
    requires Lead(root, see, at, a, k).Some?
    ensures var middle := Lead(root, see, at, a, k).value;
      Lead(root, see, middle, b, l).Some? ==>
        Lead(root, see, at, a + b, k + l) == Lead(root, see, middle, b, l)
    decreases k
  {
    Reassociate([], a, b);
    if a == [] {
      assert a + b == b;
      if Lead(root, see, at, b, l).Some? {
        LeadMore(root, see, at, b, l, k + l);
      }
    } else if !IsName(a[0]) {
      LeadJoin(root, see, Stepped(at, a[0]), a[1..], b, k - 1, l);
    } else {
      match see(SpotAt(root, at + [a[0]]))
      case Pass => LeadJoin(root, see, at + [a[0]], a[1..], b, k - 1, l);
      case Jump(target) =>
        Reassociate(Split(target), a[1..], b);
        LeadJoin(root, see, From(at, target), Split(target) + a[1..], b, k - 1, l);
      case Halt =>
    }
  }

  /** The names of a chain can be followed in two parts. */
  lemma LeadsInParts(root: Place, see: Spot -> Sight, at: Place, a: seq<string>, b: seq<string>, end: Place)
    ensures Leads(root, see, at, a + b, end) <==>
      exists middle :: Leads(root, see, at, a, middle) && Leads(root, see, middle, b, end)
  {
    if Leads(root, see, at, a + b, end) {
      var fuel: nat :| Lead(root, see, at, a + b, fuel) == Some(end);
      var middle, k := LeadSplit(root, see, at, a, b, fuel);
      assert Leads(root, see, at, a, middle) && Leads(root, see, middle, b, end);
    }
    if middle :| Leads(root, see, at, a, middle) && Leads(root, see, middle, b, end) {
      var k: nat :| Lead(root, see, at, a, k) == Some(middle);
      var l: nat :| Lead(root, see, middle, b, l) == Some(end);
      LeadJoin(root, see, at, a, b, k, l);
    }
  }

  lemma {:induction false} LeadIsSlashless(root: Place, see: Spot -> Sight, at: Place, parts: seq<string>, fuel: nat)
    requires Slashless(at) && Slashless(parts) && Lead(root, see, at, parts, fuel).Some?
    ensures Slashless(Lead(root, see, at, parts, fuel).value)
    decreases fuel
  {
    if parts != [] {
      assert parts[0] in parts;
      if !IsName(parts[0]) {
        LeadIsSlashless(root, see, Stepped(at, parts[0]), parts[1..], fuel - 1);
      } else {
        match see(SpotAt(root, at + [parts[0]]))
        case Pass => LeadIsSlashless(root, see, at + [parts[0]], parts[1..], fuel - 1);
        case Jump(target) =>
          SplitHasNoSlash(target);
          LeadIsSlashless(root, see, From(at, target), Split(target) + parts[1..], fuel - 1);
        case Halt =>
      }
    }
  }

  /** A link is met: the rest is followed from where the link leads. */
  lemma LinkIsFollowed(root: Place, see: Spot -> Sight, at: Place, name: string, rest: seq<string>, target: string,
    end: Place)
    requires IsName(name) && see(SpotAt(root, at + [name])) == Jump(target)
    ensures Leads(root, see, at, [name] + rest, end) <==>
      Leads(root, see, From(at, target), Split(target) + rest, end)
  {
    assert ([name] + rest)[1..] == rest;
    if Leads(root, see, at, [name] + rest, end) {
      var fuel: nat :| Lead(root, see, at, [name] + rest, fuel) == Some(end);
      assert Lead(root, see, From(at, target), Split(target) + rest, fuel - 1) == Some(end);
    }
    if Leads(root, see, From(at, target), Split(target) + rest, end) {
      var fuel: nat :| Lead(root, see, From(at, target), Split(target) + rest, fuel) == Some(end);
      assert Lead(root, see, at, [name] + rest, fuel + 1) == Some(end);
    }
  }

  // ----- Without a link on the way -----

  /** Names append, ".." drops the last component, "." and "" stay. */
  function Fold(at: Place, parts: seq<string>): Place
    decreases |parts|
  {
    if parts == [] then at else Fold(Stepped(at, parts[0]), parts[1..])
  }

  ghost predicate MeetsNoLink(root: Place, see: Spot -> Sight, at: Place, parts: seq<string>)
    decreases |parts|
  {
    parts != [] ==>
      && (IsName(parts[0]) ==> see(SpotAt(root, at + [parts[0]])) == Pass)
      && MeetsNoLink(root, see, Stepped(at, parts[0]), parts[1..])
  }

  lemma {:induction false} LeadsStraight(root: Place, see: Spot -> Sight, at: Place, parts: seq<string>)
    requires MeetsNoLink(root, see, at, parts)
    ensures Lead(root, see, at, parts, |parts|) == Some(Fold(at, parts))
    decreases |parts|
  {
    if parts != [] {
      LeadsStraight(root, see, Stepped(at, parts[0]), parts[1..]);
    }
  }

  // ----- Where a link target leads -----

  /** `realpath` sees links; what is missing or no directory is taken by its name. */
  function LinkSight(around: Around, files: Manifest): Spot -> Sight {
    (spot: Spot) =>
      match spot
      case Inside(p) => if p in files && files[p].Symlink? then Jump(files[p].target) else Pass
      case Outside(q) =>
        if q <= around.root then Pass
        else if q in around.files && around.files[q].Symlink? then Jump(around.files[q].target)
        else Pass
  }

  lemma {:induction false} WalkIsSound(around: Around, files: Manifest, at: Place, rest: seq<string>,
    following: set<Spot>)
    requires Walk(around, files, at, rest, following).0.Some?
    ensures Leads(around.root, LinkSight(around, files), at, rest, Walk(around, files, at, rest, following).0.value)
    decreases LinkSpots(around, files) - following, |rest|
  {
    var root, see := around.root, LinkSight(around, files);
    var end := Walk(around, files, at, rest, following).0.value;
    if rest == [] {
      assert Lead(root, see, at, rest, 0) == Some(end);
    } else if !IsName(rest[0]) {
      WalkIsSound(around, files, Stepped(at, rest[0]), rest[1..], following);
      var fuel: nat :| Lead(root, see, Stepped(at, rest[0]), rest[1..], fuel) == Some(end);
      assert Lead(root, see, at, rest, fuel + 1) == Some(end);
    } else {
      var spot := SpotAt(root, at + [rest[0]]);
      match TargetAt(around, files, spot)
      case None =>
        WalkIsSound(around, files, at + [rest[0]], rest[1..], following);
        var fuel: nat :| Lead(root, see, at + [rest[0]], rest[1..], fuel) == Some(end);
        assert Lead(root, see, at, rest, fuel + 1) == Some(end);
      case Some(target) =>
        var place := Walk(around, files, From(at, target), Split(target), following + {spot}).0.value;
        WalkIsSound(around, files, From(at, target), Split(target), following + {spot});
        WalkIsSound(around, files, place, rest[1..], following);
        LeadsInParts(root, see, From(at, target), Split(target), rest[1..], end);
        LinkIsFollowed(root, see, at, rest[0], rest[1..], target, end);
        assert [rest[0]] + rest[1..] == rest;
    }
  }

  /** A link that is being followed: its directory and its name there. */
  datatype Met = Met(at: Place, name: string)

  function MetAt(root: Place, met: Met): Spot {
    SpotAt(root, met.at + [met.name])
  }

  function SpotsOf(root: Place, trail: seq<Met>): set<Spot> {
    if trail == [] then {} else SpotsOf(root, trail[..|trail| - 1]) + {MetAt(root, trail[|trail| - 1])}
  }

  lemma OneMoreSpot(root: Place, trail: seq<Met>, met: Met)
    ensures SpotsOf(root, trail + [met]) == SpotsOf(root, trail) + {MetAt(root, met)}
  {
    assert (trail + [met])[..|trail|] == trail;
  }

  /** The target of the link leads nowhere in fewer than `n` steps. */
  ghost predicate IsPending(root: Place, see: Spot -> Sight, met: Met, n: nat) {
    && Slashless(met.at) && '/' !in met.name && see(MetAt(root, met)).Jump?
    && (n > 0 ==>
         var target := see(MetAt(root, met)).target;
         Lead(root, see, From(met.at, target), Split(target), n - 1) == None)
  }

  /** None of the links being followed is done within that many steps. */
  ghost predicate AllPending(root: Place, see: Spot -> Sight, trail: seq<Met>, n: nat) {
    trail == [] ||
    (IsPending(root, see, trail[|trail| - 1], n) && AllPending(root, see, trail[..|trail| - 1], n))
  }

  lemma JoinIsInjective(parts: seq<string>, others: seq<string>)
    requires parts != [] && others != [] && Slashless(parts) && Slashless(others) && Join(parts) == Join(others)
    ensures parts == others
  {
    SplitJoin(parts);
    SplitJoin(others);
  }

  /** Places of proper components are told apart by their spots. */
  lemma SpotIsInjective(root: Place, p: Place, q: Place)
    requires Slashless(p) && Slashless(q) && SpotAt(root, p) == SpotAt(root, q)
    ensures p == q
  {
    if root < p {
      assert root < q;
      JoinIsInjective(p[|root|..], q[|root|..]);
      assert p == root + p[|root|..] && q == root + q[|root|..];
    }
  }

  lemma SameDirectory(root: Place, a: Place, x: string, b: Place, y: string)
    requires Slashless(a) && Slashless(b) && '/' !in x && '/' !in y
    requires SpotAt(root, a + [x]) == SpotAt(root, b + [y])
    ensures a == b
  {
    SpotIsInjective(root, a + [x], b + [y]);
    SnocInjective(a, x, b, y);
  }

  lemma PendingLonger(root: Place, see: Spot -> Sight, met: Met, n: nat, m: nat)
    requires IsPending(root, see, met, n) && m <= n
    ensures IsPending(root, see, met, m)
  {
    var target := see(MetAt(root, met)).target;
    if m > 0 && Lead(root, see, From(met.at, target), Split(target), m - 1).Some? {
      LeadMore(root, see, From(met.at, target), Split(target), m - 1, n - 1);
    }
  }

  lemma {:induction false} FewerSteps(root: Place, see: Spot -> Sight, trail: seq<Met>, n: nat, m: nat)
    requires AllPending(root, see, trail, n) && m <= n
    ensures AllPending(root, see, trail, m)
  {
    if trail != [] {
      PendingLonger(root, see, trail[|trail| - 1], n, m);
      FewerSteps(root, see, trail[..|trail| - 1], n, m);
    }
  }

  lemma {:induction false} WasMet(root: Place, see: Spot -> Sight, trail: seq<Met>, n: nat, spot: Spot)
    returns (met: Met)
    requires AllPending(root, see, trail, n) && spot in SpotsOf(root, trail)
    ensures IsPending(root, see, met, n) && MetAt(root, met) == spot
  {
    met := trail[|trail| - 1];
    if MetAt(root, met) != spot {
      met := WasMet(root, see, trail[..|trail| - 1], n, spot);
    }
  }

  /** A way that starts with a link ends only if the target of the link leads somewhere, in fewer steps. */
  lemma JumpIsDone(root: Place,
    see: Spot -> Sight, at: Place, rest: seq<string>, from: Place, parts: seq<string>, n: nat)
    requires n > 0 && Lead(root, see, from, parts + rest, n - 1).Some?
    ensures Lead(root, see, from, parts, n - 1).Some?
  {
    var middle, k := LeadSplit(root, see, from, parts, rest, n - 1);
    LeadMore(root, see, from, parts, k, n - 1);
  }

  lemma LeadJumps(root: Place, see: Spot -> Sight, at: Place, rest: seq<string>, n: nat)
    requires rest != [] && IsName(rest[0]) && see(SpotAt(root, at + [rest[0]])).Jump?
    requires Lead(root, see, at, rest, n).Some?
    ensures var target := see(SpotAt(root, at + [rest[0]])).target;
      n > 0 && Lead(root, see, From(at, target), Split(target) + rest[1..], n - 1) == Lead(root, see, at, rest, n)
  {
  }

  /** A link that is being followed cannot be met again on a way that ends. */
  lemma NotMetAgain(root: Place, see: Spot -> Sight, trail: seq<Met>, n: nat, at: Place, rest: seq<string>)
    requires AllPending(root, see, trail, n) && rest != [] && IsName(rest[0]) && Slashless(at) && Slashless(rest)
    requires Lead(root, see, at, rest, n).Some?
    ensures SpotAt(root, at + [rest[0]]) !in SpotsOf(root, trail)
  {
    var spot := SpotAt(root, at + [rest[0]]);
    assert rest[0] in rest;
    if spot in SpotsOf(root, trail) {
      var met := WasMet(root, see, trail, n, spot);
      SameDirectory(root, met.at, met.name, at, rest[0]);
      LeadJumps(root, see, at, rest, n);
      var target := see(spot).target;
      JumpIsDone(root, see, at, rest[1..], From(at, target), Split(target), n);
    }
  }

  /** One link more is being followed, and done in `k` steps and no fewer. */
  lemma OneMorePending(root: Place, see: Spot -> Sight, trail: seq<Met>, n: nat, at: Place, name: string, k: nat)
    requires AllPending(root, see, trail, n) && k <= n && Slashless(at) && '/' !in name
    requires see(SpotAt(root, at + [name])).Jump?
    requires var target := see(SpotAt(root, at + [name])).target;
      forall j: nat :: j < k ==> Lead(root, see, From(at, target), Split(target), j) == None
    ensures AllPending(root, see, trail + [Met(at, name)], k)
  {
    FewerSteps(root, see, trail, n, k);
    assert (trail + [Met(at, name)])[..|trail|] == trail;
    assert IsPending(root, see, Met(at, name), k);
  }

  lemma WalkAfterLink(around: Around, files: Manifest, at: Place, rest: seq<string>, following: set<Spot>,
    target: string, middle: Place)
    requires rest != [] && IsName(rest[0])
    requires var spot := SpotAt(around.root, at + [rest[0]]);
      && spot !in following && TargetAt(around, files, spot) == Some(target)
      && Walk(around, files, From(at, target), Split(target), following + {spot}).0 == Some(middle)
    ensures Walk(around, files, at, rest, following).0 == Walk(around, files, middle, rest[1..], following).0
  {
  }

  /** The first name is a link: it is followed in `k` steps to `middle`, and the rest from there. */
  lemma LinkFirst(root: Place, see: Spot -> Sight, trail: seq<Met>, n: nat, at: Place, rest: seq<string>)
    returns (middle: Place, k: nat)
    requires AllPending(root, see, trail, n) && rest != [] && IsName(rest[0]) && Slashless(at) && Slashless(rest)
    requires Lead(root, see, at, rest, n).Some? && see(SpotAt(root, at + [rest[0]])).Jump?
    ensures SpotAt(root, at + [rest[0]]) !in SpotsOf(root, trail) && k < n
    ensures AllPending(root, see, trail + [Met(at, rest[0])], k)
    ensures AllPending(root, see, trail, n - 1 - k)
    ensures var target := see(SpotAt(root, at + [rest[0]])).target;
      Lead(root, see, From(at, target), Split(target), k) == Some(middle)
    ensures Slashless(middle) && Lead(root, see, middle, rest[1..], n - 1 - k) == Lead(root, see, at, rest, n)
  {
    var target := see(SpotAt(root, at + [rest[0]])).target;
    assert rest[0] in rest;
    NotMetAgain(root, see, trail, n, at, rest);
    LeadJumps(root, see, at, rest, n);
    middle, k := LeadSplit(root, see, From(at, target), Split(target), rest[1..], n - 1);
    OneMorePending(root, see, trail, n, at, rest[0], k);
    SplitHasNoSlash(target);
    LeadIsSlashless(root, see, From(at, target), Split(target), k);
    FewerSteps(root, see, trail, n, n - 1 - k);
  }

  /** The place after a first name that is no link. */
  lemma WalkOneName(around: Around, files: Manifest, at: Place, rest: seq<string>, following: set<Spot>, n: nat)
    requires rest != [] && n > 0
    requires IsName(rest[0]) ==> TargetAt(around, files, SpotAt(around.root, at + [rest[0]])).None?
    ensures Walk(around, files, at, rest, following).0 ==
      Walk(around, files, Stepped(at, rest[0]), rest[1..], following).0
    ensures Lead(around.root, LinkSight(around, files), at, rest, n) ==
      Lead(around.root, LinkSight(around, files), Stepped(at, rest[0]), rest[1..], n - 1)
  {
  }

  lemma SteppedIsSlashless(at: Place, rest: seq<string>)
    requires rest != [] && Slashless(at) && Slashless(rest)
    ensures Slashless(Stepped(at, rest[0])) && Slashless(rest[1..])
  {
    assert rest[0] in rest;
  }

  lemma {:induction false} FollowsName(around: Around, files: Manifest, at: Place, rest: seq<string>,
    trail: seq<Met>, n: nat)
    requires Slashless(at) && Slashless(rest) && AllPending(around.root, LinkSight(around, files), trail, n)
    requires Lead(around.root, LinkSight(around, files), at, rest, n).Some? && rest != [] && n > 0
    requires IsName(rest[0]) ==> TargetAt(around, files, SpotAt(around.root, at + [rest[0]])).None?
    ensures Walk(around, files, at, rest, SpotsOf(around.root, trail)).0 ==
      Lead(around.root, LinkSight(around, files), at, rest, n)
    decreases n, 0
  {
    WalkOneName(around, files, at, rest, SpotsOf(around.root, trail), n);
    SteppedIsSlashless(at, rest);
    FewerSteps(around.root, LinkSight(around, files), trail, n, n - 1);
    WalkIsComplete(around, files, Stepped(at, rest[0]), rest[1..], trail, n - 1);
  }

  lemma {:induction false} WalkIsComplete(around: Around, files: Manifest, at: Place, rest: seq<string>,
    trail: seq<Met>, n: nat)
    requires Slashless(at) && Slashless(rest) && AllPending(around.root, LinkSight(around, files), trail, n)
    requires Lead(around.root, LinkSight(around, files), at, rest, n).Some?
    ensures Walk(around, files, at, rest, SpotsOf(around.root, trail)).0 ==
      Lead(around.root, LinkSight(around, files), at, rest, n)
    decreases n, 1
  {
    if rest != [] {
      var target := TargetAt(around, files, SpotAt(around.root, at + [rest[0]]));
      if IsName(rest[0]) && target.Some? {
        FollowsLink(around, files, at, rest, trail, n, target.value);
      } else {
        FollowsName(around, files, at, rest, trail, n);
      }
    }
  }

  lemma {:induction false} WalkTarget(around: Around, files: Manifest, from: Place, parts: seq<string>,
    trail: seq<Met>, met: Met, k: nat)
    requires Slashless(from) && Slashless(parts)
    requires AllPending(around.root, LinkSight(around, files), trail + [met], k)
    requires Lead(around.root, LinkSight(around, files), from, parts, k).Some?
    ensures Walk(around, files, from, parts, SpotsOf(around.root, trail) + {MetAt(around.root, met)}).0 ==
      Lead(around.root, LinkSight(around, files), from, parts, k)
    decreases k, 2
  {
    WalkIsComplete(around, files, from, parts, trail + [met], k);
    OneMoreSpot(around.root, trail, met);
  }

  lemma {:induction false} FollowsLink(around: Around, files: Manifest, at: Place, rest: seq<string>,
    trail: seq<Met>, n: nat, target: string)
    requires Slashless(at) && Slashless(rest) && AllPending(around.root, LinkSight(around, files), trail, n)
    requires Lead(around.root, LinkSight(around, files), at, rest, n).Some? && rest != [] && IsName(rest[0])
    requires TargetAt(around, files, SpotAt(around.root, at + [rest[0]])) == Some(target)
    ensures Walk(around, files, at, rest, SpotsOf(around.root, trail)).0 ==
      Lead(around.root, LinkSight(around, files), at, rest, n)
    decreases n, 0
  {
    var root, see := around.root, LinkSight(around, files);
    var middle, k := LinkFirst(root, see, trail, n, at, rest);
    SplitHasNoSlash(target);
    WalkTarget(around, files, From(at, target), Split(target), trail, Met(at, rest[0]), k);
    WalkIsComplete(around, files, middle, rest[1..], trail, n - 1 - k);
    WalkAfterLink(around, files, at, rest, SpotsOf(root, trail), target, middle);
  }

  /** The walk ends exactly where the names lead, and finds a loop exactly if they lead nowhere. */
  lemma WalkMeans(around: Around, files: Manifest, at: Place, rest: seq<string>, end: Place)
    requires Slashless(at) && Slashless(rest)
    ensures Walk(around, files, at, rest, {}).0 == Some(end) <==>
      Leads(around.root, LinkSight(around, files), at, rest, end)
  {
    if Walk(around, files, at, rest, {}).0 == Some(end) {
      WalkIsSound(around, files, at, rest, {});
    }
    if Leads(around.root, LinkSight(around, files), at, rest, end) {
      var n: nat :| Lead(around.root, LinkSight(around, files), at, rest, n) == Some(end);
      WalkIsComplete(around, files, at, rest, [], n);
    }
  }

  lemma ResolvedMeans(around: Around, files: Manifest, path: Path, at: Place, target: string, parts: seq<string>)
    requires Slashless(at) && Slashless(parts) && parts == Split(target) && ParentPlace(around, path) == at
    ensures (Resolved(around, files, path, target).Some? && around.root <= Resolved(around, files, path, target).value)
      <==> exists end :: around.root <= end && Leads(around.root, LinkSight(around, files), at, parts, end)
  {
    forall end
      ensures Resolved(around, files, path, target) == Some(end) <==>
        Leads(around.root, LinkSight(around, files), at, parts, end)
    {
      WalkMeans(around, files, at, parts, end);
    }
  }

  /**
    Which staged links are allowed, for a link at any depth: its target is relative and,
    followed from the directory the link lies in, ends in the project or at it.
   */
  lemma AllowedExactly(around: Around, files: Manifest, directory: seq<string>, name: string, e: Entry)
    requires Slashless(around.root + directory + [name]) && e.Symlink?
    ensures LinkAllowed(around, files, Join(directory + [name]), e) <==>
      && (e.target == "" || e.target[0] != '/')
      && exists end :: around.root <= end
           && Leads(around.root, LinkSight(around, files), around.root + directory, Split(e.target), end)
  {
    var parts := directory + [name];
    assert Slashless(parts) && Slashless(around.root + directory) by {
      forall part | part in parts || part in around.root + directory ensures part in around.root + directory + [name] {
      }
    }
    SplitJoin(parts);
    assert parts[..|parts| - 1] == directory;
    SplitHasNoSlash(e.target);
    ResolvedMeans(around, files, Join(parts), around.root + directory, e.target, Split(e.target));
  }

  /** So with no link on the way, the components of the target decide alone. */
  lemma AllowedWithoutLinks(around: Around, files: Manifest, directory: seq<string>, name: string, e: Entry)
    requires Slashless(around.root + directory + [name]) && e.Symlink?
    requires MeetsNoLink(around.root, LinkSight(around, files), around.root + directory, Split(e.target))
    ensures LinkAllowed(around, files, Join(directory + [name]), e) <==>
      && (e.target == "" || e.target[0] != '/')
      && around.root <= Fold(around.root + directory, Split(e.target))
  {
    var root, see, at := around.root, LinkSight(around, files), around.root + directory;
    AllowedExactly(around, files, directory, name, e);
    LeadsStraight(root, see, at, Split(e.target));
    var straight := Fold(at, Split(e.target));
    assert Leads(root, see, at, Split(e.target), straight);
    forall end | Leads(root, see, at, Split(e.target), end) ensures end == straight {
      LeadsToOne(root, see, at, Split(e.target), end, straight);
    }
  }

  // ----- What the operating system finds -----

  /** Only directories, and links to them, can be passed. */
  function KernelSight(t: Tree): Spot -> Sight {
    (spot: Spot) =>
      match NodeOf(t, spot)
      case Directory => Pass
      case Leaf(Symlink(_, _, target)) => Jump(target)
      case _ => Halt
  }

  lemma {:induction false} DownToRoot(t: Tree, i: nat)
    requires i <= |t.around.root| && forall part :: part in t.around.root ==> IsName(part)
    ensures Lead(t.around.root, KernelSight(t), t.around.root[..i], t.around.root[i..], |t.around.root| - i) ==
      Some(t.around.root)
    decreases |t.around.root| - i
  {
    var root := t.around.root;
    if i < |root| {
      DownToRoot(t, i + 1);
      assert root[..i] + [root[i]] == root[..i + 1] && root[i..][1..] == root[i + 1..];
      assert root[..i + 1] <= root && !(root < root[..i + 1]);
    } else {
      assert root[..i] == root;
    }
  }

  /** The absolute path of the project leads to it, and what follows is found as from inside. */
  lemma FoundFromTheTop(t: Tree, names: seq<string>, end: Place)
    requires forall part :: part in t.around.root ==> IsName(part)
    ensures Leads(t.around.root, KernelSight(t), [], t.around.root + names, end) <==>
      Leads(t.around.root, KernelSight(t), t.around.root, names, end)
  {
    var root, see := t.around.root, KernelSight(t);
    DownToRoot(t, 0);
    assert root[..0] == [] && root[0..] == root;
    assert Leads(root, see, [], root, root);
    LeadsInParts(root, see, [], root, names, end);
    forall middle | Leads(root, see, [], root, middle) ensures middle == root {
      LeadsToOne(root, see, [], root, middle, root);
    }
  }

  lemma {:induction false} EnterIsSound(t: Tree, at: Place, name: string, following: set<Spot>)
    requires IsName(name) && Enter(t, at, name, following).0.Some?
    ensures Leads(t.around.root, KernelSight(t), at, [name], Enter(t, at, name, following).0.value)
    decreases LinkSpots(t.around, t.files) - following, 0
  {
    var root, see := t.around.root, KernelSight(t);
    var end := Enter(t, at, name, following).0.value;
    var spot := SpotAt(root, at + [name]);
    match NodeOf(t, spot)
    case Directory =>
      assert [name][1..] == [];
      assert Lead(root, see, at, [name], 1) == Some(end);
    case Leaf(Symlink(_, _, target)) =>
      FollowIsSound(t, From(at, target), Split(target), following + {spot});
      LinkIsFollowed(root, see, at, name, [], target, end);
      assert [name] + [] == [name] && Split(target) + [] == Split(target);
    case _ =>
  }

  lemma {:induction false} FollowIsSound(t: Tree, at: Place, rest: seq<string>, following: set<Spot>)
    requires Follow(t, at, rest, following).0.Some?
    ensures Leads(t.around.root, KernelSight(t), at, rest, Follow(t, at, rest, following).0.value)
    decreases LinkSpots(t.around, t.files) - following, |rest|
  {
    var root, see := t.around.root, KernelSight(t);
    var end := Follow(t, at, rest, following).0.value;
    if rest == [] {
      assert Lead(root, see, at, rest, 0) == Some(end);
    } else if !IsName(rest[0]) {
      FollowIsSound(t, Stepped(at, rest[0]), rest[1..], following);
      var fuel: nat :| Lead(root, see, Stepped(at, rest[0]), rest[1..], fuel) == Some(end);
      assert Lead(root, see, at, rest, fuel + 1) == Some(end);
    } else {
      EnterIsSound(t, at, rest[0], following);
      FollowIsSound(t, Enter(t, at, rest[0], following).0.value, rest[1..], following);
      LeadsInParts(root, see, at, [rest[0]], rest[1..], end);
      assert [rest[0]] + rest[1..] == rest;
    }
  }

  lemma FirstAndRest(root: Place, see: Spot -> Sight, at: Place, rest: seq<string>, n: nat)
    returns (middle: Place, k: nat)
    requires rest != [] && Slashless(at) && Slashless(rest) && Lead(root, see, at, rest, n).Some?
    ensures k <= n && Lead(root, see, at, [rest[0]], k) == Some(middle)
    ensures Lead(root, see, middle, rest[1..], n - k) == Lead(root, see, at, rest, n)
    ensures Slashless(middle) && '/' !in rest[0] && Slashless(rest[1..])
    ensures IsName(rest[0]) ==> k > 0
  {
    assert rest[0] in rest && [rest[0]] + rest[1..] == rest;
    middle, k := LeadSplit(root, see, at, [rest[0]], rest[1..], n);
    LeadIsSlashless(root, see, at, [rest[0]], k);
  }

  lemma FollowEntered(t: Tree, at: Place, rest: seq<string>, following: set<Spot>, middle: Place)
    requires rest != [] && IsName(rest[0]) && Enter(t, at, rest[0], following).0 == Some(middle)
    ensures Follow(t, at, rest, following).0 == Follow(t, middle, rest[1..], following).0
  {
  }

  lemma FollowOneDot(t: Tree, at: Place, rest: seq<string>, following: set<Spot>, n: nat)
    requires rest != [] && n > 0 && !IsName(rest[0])
    ensures Follow(t, at, rest, following).0 == Follow(t, Stepped(at, rest[0]), rest[1..], following).0
    ensures Lead(t.around.root, KernelSight(t), at, rest, n) ==
      Lead(t.around.root, KernelSight(t), Stepped(at, rest[0]), rest[1..], n - 1)
  {
  }

  lemma {:induction false} FollowIsComplete(t: Tree, at: Place, rest: seq<string>, trail: seq<Met>, n: nat)
    requires Slashless(at) && Slashless(rest) && AllPending(t.around.root, KernelSight(t), trail, n)
    requires Lead(t.around.root, KernelSight(t), at, rest, n).Some?
    ensures Follow(t, at, rest, SpotsOf(t.around.root, trail)).0 == Lead(t.around.root, KernelSight(t), at, rest, n)
    decreases n, 2
  {
    if rest != [] {
      if IsName(rest[0]) {
        FollowPastName(t, at, rest, trail, n);
      } else {
        FollowOneDot(t, at, rest, SpotsOf(t.around.root, trail), n);
        SteppedIsSlashless(at, rest);
        FewerSteps(t.around.root, KernelSight(t), trail, n, n - 1);
        FollowIsComplete(t, Stepped(at, rest[0]), rest[1..], trail, n - 1);
      }
    }
  }

  lemma {:induction false} EnterIsComplete(t: Tree, at: Place, name: string, trail: seq<Met>, n: nat)
    requires Slashless(at) && '/' !in name && IsName(name) && AllPending(t.around.root, KernelSight(t), trail, n)
    requires Lead(t.around.root, KernelSight(t), at, [name], n).Some?
    ensures Enter(t, at, name, SpotsOf(t.around.root, trail)).0 == Lead(t.around.root, KernelSight(t), at, [name], n)
    decreases n, 0
  {
    var root, see := t.around.root, KernelSight(t);
    var spot := SpotAt(root, at + [name]);
    assert [name][1..] == [];
    match NodeOf(t, spot)
    case Leaf(Symlink(_, _, target)) =>
      var middle, k := LinkFirst(root, see, trail, n, at, [name]);
      SplitHasNoSlash(target);
      FollowIsComplete(t, From(at, target), Split(target), trail + [Met(at, name)], k);
      OneMoreSpot(root, trail, Met(at, name));
    case _ =>
  }

  lemma {:induction false} FollowPastName(t: Tree, at: Place, rest: seq<string>, trail: seq<Met>, n: nat)
    requires Slashless(at) && Slashless(rest) && AllPending(t.around.root, KernelSight(t), trail, n)
    requires Lead(t.around.root, KernelSight(t), at, rest, n).Some? && rest != [] && IsName(rest[0])
    ensures Follow(t, at, rest, SpotsOf(t.around.root, trail)).0 == Lead(t.around.root, KernelSight(t), at, rest, n)
    decreases n, 1
  {
    var root, see := t.around.root, KernelSight(t);
    var middle, k := FirstAndRest(root, see, at, rest, n);
    FewerSteps(root, see, trail, n, k);
    EnterIsComplete(t, at, rest[0], trail, k);
    FewerSteps(root, see, trail, n, n - k);
    FollowIsComplete(t, middle, rest[1..], trail, n - k);
    FollowEntered(t, at, rest, SpotsOf(root, trail), middle);
  }

  lemma EnterMeans(t: Tree, at: Place, name: string, end: Place)
    requires Slashless(at) && '/' !in name && IsName(name)
    ensures Enter(t, at, name, {}).0 == Some(end) <==> Leads(t.around.root, KernelSight(t), at, [name], end)
  {
    if Enter(t, at, name, {}).0 == Some(end) {
      EnterIsSound(t, at, name, {});
    }
    if Leads(t.around.root, KernelSight(t), at, [name], end) {
      var n: nat :| Lead(t.around.root, KernelSight(t), at, [name], n) == Some(end);
      EnterIsComplete(t, at, name, [], n);
    }
  }

  lemma LeadsSlashless(root: Place, see: Spot -> Sight, at: Place, parts: seq<string>, end: Place)
    requires Slashless(at) && Slashless(parts) && Leads(root, see, at, parts, end)
    ensures Slashless(end)
  {
    var n: nat :| Lead(root, see, at, parts, n) == Some(end);
    LeadIsSlashless(root, see, at, parts, n);
  }

  lemma {:induction false} DescendMeans(t: Tree, names: seq<string>, end: Place)
    requires Slashless(t.around.root + names) && forall name :: name in names ==> IsName(name)
    ensures Descend(t, names).0 == Some(end) <==> Leads(t.around.root, KernelSight(t), t.around.root, names, end)
  {
    var root, see := t.around.root, KernelSight(t);
    if names == [] {
      assert Lead(root, see, root, [], 0) == Some(root);
      if Leads(root, see, root, [], end) {
        LeadsToOne(root, see, root, [], end, root);
      }
    } else {
      var n := |names| - 1;
      var front, last := names[..n], names[n];
      assert names == front + [last] && Slashless(root + front) && Slashless(root) && Slashless(front)
        && '/' !in last by {
        forall part | part in root + front || part == last ensures part in root + names {
        }
        assert forall part :: part in root || part in front ==> part in root + front;
      }
      LeadsInParts(root, see, root, front, [last], end);
      forall middle
        ensures Descend(t, front).0 == Some(middle) <==> Leads(root, see, root, front, middle)
      {
        DescendMeans(t, front, middle);
      }
      forall middle | Leads(root, see, root, front, middle)
        ensures Enter(t, middle, last, {}).0 == Some(end) <==> Leads(root, see, middle, [last], end)
      {
        LeadsSlashless(root, see, root, front, middle);
        EnterMeans(t, middle, last, end);
      }
    }
  }

  /**
    What is observed at a path of proper names: the names before the last are followed,
    links replaced by their targets, and the last one is looked up in the directory reached.
   */
  lemma ObservedMeans(t: Tree, directory: seq<string>, name: string, node: Node)
    requires Slashless(t.around.root + directory + [name]) && forall part :: part in directory ==> IsName(part)
    requires node != Nothing
    ensures Observed(t, Join(directory + [name])) == node <==>
      exists at :: Leads(t.around.root, KernelSight(t), t.around.root, directory, at)
        && NodeOf(t, SpotAt(t.around.root, at + [name])) == node
  {
    var root, see, parts := t.around.root, KernelSight(t), directory + [name];
    assert Slashless(parts) && Slashless(root + directory) by {
      forall part | part in parts || part in root + directory ensures part in root + directory + [name] {
      }
    }
    SplitJoin(parts);
    assert parts[..|parts| - 1] == directory && parts[|parts| - 1] == name;
    forall at
      ensures Descend(t, directory).0 == Some(at) <==> Leads(root, see, root, directory, at)
    {
      DescendMeans(t, directory, at);
    }
  }
}
