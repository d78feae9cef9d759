/** Which class a changed path has, by its name (`artifact_staging.py`: `_artifact_class`). */
module ArtifactClasses {
  import opened Strings
  import opened Manifests

  /** A directory, in front of a name. */
  predicate IsFront(front: string) {
    front == "" || front[|front| - 1] == '/'
  }

  /** A dot and what follows the last dot of a name. */
  predicate IsExtension(ext: string) {
    |ext| > 1 && ext[0] == '.' && '/' !in ext && '.' !in ext[1..]
  }

  lemma {:induction false} PastLastDot(path: Path, at: nat, n: nat)
    requires at < n <= |path| && forall i :: at <= i < n ==> path[i] != '.' && path[i] != '/'
    ensures Suffix(path, n) == Suffix(path, at)
    decreases n
  {
    if at + 1 < n {
      PastLastDot(path, at, n - 1);
    }
  }

  /** The suffix is the extension in small letters, wherever the file lies. */
  lemma SuffixIsExtension(front: string, stem: string, ext: string)
    requires IsFront(front) && stem != "" && '/' !in stem && IsExtension(ext)
    ensures Suffix(front + stem + ext, |front + stem + ext|) == Lower(ext)
  {
    var path := front + stem + ext;
    var dot := |front| + |stem|;
    forall i | dot + 1 <= i < |path| ensures path[i] != '.' && path[i] != '/' {
      assert path[i] == ext[1..][i - dot - 1] && path[i] == ext[i - dot];
    }
    PastLastDot(path, dot + 1, |path|);
    assert path[dot - 1] == stem[|stem| - 1] && stem[|stem| - 1] in stem;
    assert path[dot..] == ext;
  }

  /** A name whose last dot leads it or ends it, or that has none, has no suffix. */
  lemma NoSuffix(front: string, name: string, dot: nat)
    requires IsFront(front) && '/' !in name && dot <= |name|
    requires forall i :: dot <= i < |name| ==> name[i] != '.'
    requires dot == 0 || (name[dot - 1] == '.' && (dot == 1 || dot == |name|))
    ensures Suffix(front + name, |front + name|) == ""
  {
    var path := front + name;
    var at := |front| + dot;
    forall i | at <= i < |path| ensures path[i] != '.' && path[i] != '/' {
      assert path[i] == name[i - |front|] && name[i - |front|] in name;
    }
    if at < |path| {
      PastLastDot(path, at, |path|);
    }
  }

  /** Only the extension decides the class, and not how it is capitalised. */
  lemma ClassIsOfExtension(front: string, stem: string, ext: string, otherFront: string, otherStem: string,
    other: string)
    requires IsFront(front) && stem != "" && '/' !in stem && IsExtension(ext)
    requires IsFront(otherFront) && otherStem != "" && '/' !in otherStem && SameButCase(ext, other)
    ensures ArtifactClassOf(front + stem + ext) == ArtifactClassOf(otherFront + otherStem + other)
  {
    assert IsExtension(other) by {
      forall c | c in other ensures c != '/' {
        var i :| 0 <= i < |other| && other[i] == c;
        assert SameLetter(ext[i], other[i]) && ext[i] in ext;
      }
      forall c | c in other[1..] ensures c != '.' {
        var i :| 1 <= i < |other| && other[i] == c;
        assert SameLetter(ext[i], other[i]) && ext[1..][i - 1] == ext[i];
      }
    }
    SuffixIsExtension(front, stem, ext);
    SuffixIsExtension(otherFront, otherStem, other);
    LowerIsCaseBlind(ext, other);
  }

  /** The class of a path with an extension. */
  lemma ClassWithExtension(front: string, stem: string, ext: string)
    requires IsFront(front) && stem != "" && '/' !in stem && IsExtension(ext)
    ensures ArtifactClassOf(front + stem + ext) == Code <==> Lower(ext) in CODE_SUFFIXES
    ensures ArtifactClassOf(front + stem + ext) == GeneratedAsset <==>
      Lower(ext) in GENERATED_ASSET_SUFFIXES && Lower(ext) !in CODE_SUFFIXES
  {
    SuffixIsExtension(front, stem, ext);
  }

  lemma EmptyIsNoSuffix()
    ensures "" !in CODE_SUFFIXES && "" !in GENERATED_ASSET_SUFFIXES
  {
  }

  /** A path without one is a plain file. */
  lemma ClassWithoutExtension(front: string, name: string, dot: nat)
    requires IsFront(front) && '/' !in name && dot <= |name|
    requires forall i :: dot <= i < |name| ==> name[i] != '.'
    requires dot == 0 || (name[dot - 1] == '.' && (dot == 1 || dot == |name|))
    ensures ArtifactClassOf(front + name) == PlainFile
  {
    NoSuffix(front, name, dot);
    EmptyIsNoSuffix();
  }
}
