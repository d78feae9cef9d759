/** Exactly what each reader of stored entries, paths and changes accepts, and as what. */
module StorageReading {
  import opened Wrappers
  import opened Strings
  import opened Manifests
  import opened Storage

  predicate IsAbsent(raw: map<string, Json>, key: string) {
    key !in raw || raw[key] == Null
  }

  /** An object reads as an entry exactly when its fields are those of the entry, and it has no others. */
  lemma EntryReadsExactly(raw: map<string, Json>, e: Entry)
    ensures EntryFromJson(raw) == Ok(e) <==>
      && raw.Keys <= {"kind", "sha256", "mode", "link_target"}
      && IsSha256(e.sha256) && e.mode >= 0
      && StrOrEmpty(raw, "kind") == (if e.File? then "file" else "symlink")
      && StrOrEmpty(raw, "sha256") == e.sha256
      && "mode" in raw && raw["mode"] == Number(e.mode)
      && if e.File? then IsAbsent(raw, "link_target")
         else "link_target" in raw && raw["link_target"] == Text(e.target)
  {
    var known := {"kind", "sha256", "mode", "link_target"};
    assert raw.Keys - known == {} <==> raw.Keys <= known;
  }

  // ----- Paths -----

  lemma {:induction false} KeptExactly(parts: seq<string>)
    ensures forall c :: c in Kept(parts) <==> c in parts && c != "" && c != "."
  {
    if parts != [] {
      KeptExactly(parts[1..]);
    }
  }

  /** Which paths are refused. */
  lemma PathRefusedExactly(value: string)
    ensures RelativePath(value) == Err(Malformed) <==>
      value == "" || value[0] == '/' || value == "." || ".." in Split(value) || '\0' in value
  {
    KeptExactly(Split(value));
    DotsAreComponents();
  }

  lemma {:induction false} JoinedHolds(parts: seq<string>, x: char)
    requires x in Join(parts) && x != '/'
    ensures exists part :: part in parts && x in part
  {
    if |parts| == 1 {
      assert parts[0] in parts;
    } else {
      var rest := Join(parts[1..]);
      assert Join(parts) == parts[0] + "/" + rest;
      if x in parts[0] {
        assert parts[0] in parts;
      } else {
        assert x in rest;
        JoinedHolds(parts[1..], x);
      }
    }
  }

  lemma {:induction false} SplitHolds(s: string, part: string, x: char)
    requires part in Split(s) && x in part
    ensures x in s
  {
    if s != "" {
      var rest := Split(s[1..]);
      if s[0] == '/' {
        if part in rest {
          SplitHolds(s[1..], part, x);
        }
      } else if part == [s[0]] + rest[0] {
        if x != s[0] {
          SplitHolds(s[1..], rest[0], x);
        }
      } else {
        SplitHolds(s[1..], part, x);
      }
    }
  }

  /** What is read of a path: its components without empty ones and dots, in order; that is its own normal form. */
  lemma PathReadsAs(value: string)
    requires RelativePath(value).Ok?
    ensures var p := RelativePath(value).value;
      if Kept(Split(value)) == [] then p == "."
      else IsManifestPath(p) && Split(p) == Kept(Split(value)) && RelativePath(p) == Ok(p)
  {
    var parts := Kept(Split(value));
    KeptExactly(Split(value));
    SplitHasNoSlash(value);
    if parts != [] {
      SplitJoin(parts);
      var p := Join(parts);
      if '\0' in p {
        JoinedHolds(parts, '\0');
        var part :| part in parts && '\0' in part;
        SplitHolds(value, part, '\0');
      }
      ManifestPathKept(p);
    }
  }

  lemma KeptFirst(part: string, rest: seq<string>)
    ensures Kept([part] + rest) == (if part == "" || part == "." then [] else [part]) + Kept(rest)
  {
    assert ([part] + rest)[1..] == rest;
  }

  /** The components are kept one by one. */
  lemma {:induction false} KeptAppends(a: seq<string>, b: seq<string>)
    ensures Kept(a + b) == Kept(a) + Kept(b)
  {
    if a == [] {
      assert a + b == b;
    } else {
      var first, rest := a[0], a[1..];
      KeptAppends(rest, b);
      KeptFirst(first, rest);
      KeptFirst(first, rest + b);
      assert a == [first] + rest && a + b == [first] + (rest + b);
    }
  }

  // ----- Changes -----

  /** A side of a change: absent, also as an empty object, or an entry. */
  predicate ReadsAsSide(j: Json, e: Option<Entry>) {
    match e
    case None => j == Null || j == Object(map[])
    case Some(entry) => j.Object? && j.fields != map[] && EntryFromJson(j.fields) == Ok(entry)
  }

  /** The sides that fit the operation. */
  predicate SidesFit(c: Change) {
    (c.operation == Add <==> c.baseline.None?) && (c.operation == Delete <==> c.staged.None?)
  }

  lemma TextsAreRead(operation: string, class_: string, c: Change)
    ensures OperationFrom(operation) == Some(c.operation) <==>
      operation == match c.operation case Add => "add" case Modify => "modify" case Delete => "delete"
    ensures ClassFrom(class_) == Some(c.artifactClass) <==>
      class_ ==
        match c.artifactClass case Code => "code" case PlainFile => "file" case GeneratedAsset => "generated_asset"
  {
  }

  lemma SideIsRead(j: Json, e: Option<Entry>)
    ensures EntryFromOptional(j) == Ok(e) <==> ReadsAsSide(j, e)
  {
  }

  lemma FieldsAreRead(raw: map<string, Json>, c: Change)
    requires raw.Keys == CHANGE_FIELDS
    ensures ChangeFromJson(raw) == Ok(c) <==>
      && RelativePath(Str(raw["path"])) == Ok(c.path)
      && OperationFrom(Str(raw["operation"])) == Some(c.operation)
      && ClassFrom(Str(raw["artifact_class"])) == Some(c.artifactClass)
      && EntryFromOptional(raw["baseline"]) == Ok(c.baseline) && EntryFromOptional(raw["staged"]) == Ok(c.staged)
      && SidesFit(c) && c.version == Str(raw["version"]) && c.version != ""
  {
  }

  /** An object reads as a change exactly when it has the six fields and they are those of the change, which fit. */
  lemma ChangeReadsExactly(raw: map<string, Json>, c: Change)
    ensures ChangeFromJson(raw) == Ok(c) <==>
      && raw.Keys == {"path", "operation", "artifact_class", "baseline", "staged", "version"}
      && RelativePath(Str(raw["path"])) == Ok(c.path)
      && Str(raw["operation"]) == (match c.operation case Add => "add" case Modify => "modify" case Delete => "delete")
      && Str(raw["artifact_class"]) ==
          (match c.artifactClass case Code => "code" case PlainFile => "file" case GeneratedAsset => "generated_asset")
      && ReadsAsSide(raw["baseline"], c.baseline) && ReadsAsSide(raw["staged"], c.staged)
      && SidesFit(c) && c.version == Str(raw["version"]) && c.version != ""
  {
    if raw.Keys == CHANGE_FIELDS {
      FieldsAreRead(raw, c);
      TextsAreRead(Str(raw["operation"]), Str(raw["artifact_class"]), c);
      SideIsRead(raw["baseline"], c.baseline);
      SideIsRead(raw["staged"], c.staged);
    }
  }

  /** The item is an object that reads as the change. */
  predicate IsReadAs(item: Json, c: Change) {
    item.Object? && ChangeFromJson(item.fields) == Ok(c)
  }

  predicate AllReadAs(items: seq<Json>, changes: seq<Change>) {
    |items| == |changes| && forall k :: 0 <= k < |items| ==> IsReadAs(items[k], changes[k])
  }

  lemma AllButLast(items: seq<Json>, changes: seq<Change>)
    requires items != [] && changes != []
    ensures AllReadAs(items, changes) <==>
      && AllReadAs(items[..|items| - 1], changes[..|changes| - 1])
      && IsReadAs(items[|items| - 1], changes[|changes| - 1])
  {
    if AllReadAs(items[..|items| - 1], changes[..|changes| - 1]) {
      forall k | 0 <= k < |items| - 1
        ensures IsReadAs(items[k], changes[k]) == IsReadAs(items[..|items| - 1][k], changes[..|changes| - 1][k])
      {
      }
    }
  }

  lemma LastIsRead(items: seq<Json>, front: seq<Change>, last: Change)
    requires items != []
    ensures ReadChanges(items) == Ok(front + [last]) <==>
      ReadChanges(items[..|items| - 1]) == Ok(front) && IsReadAs(items[|items| - 1], last)
  {
    if items[|items| - 1].Object? {
      ReadLast(items, front, last);
    }
  }

  lemma {:induction false} EachIsRead(items: seq<Json>)
    ensures ReadChanges(items).Ok? ==> |ReadChanges(items).value| == |items|
  {
    if items != [] {
      EachIsRead(items[..|items| - 1]);
    }
  }

  lemma NoneOrAllMissing(items: seq<Json>, changes: seq<Change>)
    requires items == [] || changes == []
    ensures ReadChanges(items) == Ok(changes) <==> AllReadAs(items, changes)
  {
    EachIsRead(items);
  }

  lemma SameList(read: Result<seq<Change>, Malformed>, changes: seq<Change>)
    requires changes != []
    ensures read == Ok(changes) <==> read == Ok(changes[..|changes| - 1] + [changes[|changes| - 1]])
  {
    assert changes == changes[..|changes| - 1] + [changes[|changes| - 1]];
  }

  lemma {:induction false} ItemsReadExactly(items: seq<Json>, changes: seq<Change>)
    ensures ReadChanges(items) == Ok(changes) <==> AllReadAs(items, changes)
  {
    if items == [] || changes == [] {
      NoneOrAllMissing(items, changes);
    } else {
      var m := |changes| - 1;
      var front, last := changes[..m], changes[m];
      ItemsReadExactly(items[..|items| - 1], front);
      LastIsRead(items, front, last);
      AllButLast(items, changes);
      SameList(ReadChanges(items), changes);
    }
  }

  /** A stored value reads as a change list exactly when it is an array of changes, strictly sorted by path. */
  lemma ListReadsExactly(raw: Json, changes: seq<Change>)
    ensures ChangesFromRaw(raw) == Ok(changes) <==>
      raw.Array? && AllReadAs(raw.items, changes) && InOrder(changes)
  {
    if raw.Array? {
      ItemsReadExactly(raw.items, changes);
    }
  }
}
