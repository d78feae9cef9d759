/** Strings as Python's `pathlib` and `casefold` take them apart. */
module Strings {
  /** `casefold`, for the letters of ASCII. */
  function Lower(s: string): string {
    seq(|s|, i requires 0 <= i < |s| => if 'A' <= s[i] <= 'Z' then s[i] + ('a' - 'A') else s[i])
  }

  /** The same letter, small or capital. */
  predicate SameLetter(a: char, b: char) {
    a == b || ('A' <= a <= 'Z' && b as int - a as int == 32) || ('A' <= b <= 'Z' && a as int - b as int == 32)
  }

  predicate SameButCase(a: string, b: string) {
    |a| == |b| && forall i :: 0 <= i < |a| ==> SameLetter(a[i], b[i])
  }

  /** Folding tells two strings apart unless they differ in case only. */
  lemma LowerIsCaseBlind(a: string, b: string)
    ensures Lower(a) == Lower(b) <==> SameButCase(a, b)
  {
    forall i | 0 <= i < |a| == |b| ensures Lower(a)[i] == Lower(b)[i] <==> SameLetter(a[i], b[i]) {
    }
    if Lower(a) == Lower(b) {
      assert |Lower(a)| == |a| && |Lower(b)| == |b|;
    }
  }

  /** The components between slashes. */
  function Split(s: string): (r: seq<string>)
    ensures r != []
  {
    if s == "" then [""]
    else
      var rest := Split(s[1..]);
      if s[0] == '/' then [""] + rest else [[s[0]] + rest[0]] + rest[1..]
  }

  function Join(parts: seq<string>): string {
    if parts == [] then ""
    else if |parts| == 1 then parts[0]
    else parts[0] + "/" + Join(parts[1..])
  }

  lemma {:induction false} JoinSplit(s: string)
    ensures Join(Split(s)) == s
  {
    if s != "" {
      JoinSplit(s[1..]);
      var rest := Split(s[1..]);
      if s[0] == '/' {
        assert ([""] + rest)[1..] == rest;
      } else if |rest| > 1 {
        assert ([[s[0]] + rest[0]] + rest[1..])[1..] == rest[1..];
      }
    }
  }

  lemma {:induction false} SplitName(name: string)
    requires '/' !in name
    ensures Split(name) == [name]
  {
    if name != "" {
      SplitName(name[1..]);
      assert name == [name[0]] + name[1..];
    }
  }

  /** One character more in front. */
  function Prepended(c: char, parts: seq<string>): seq<string>
    requires parts != []
  {
    if c == '/' then [""] + parts else [[c] + parts[0]] + parts[1..]
  }

  lemma PrependedFirst(c: char, a: seq<string>, b: seq<string>)
    requires a != []
    ensures Prepended(c, a + b) == Prepended(c, a) + b
  {
    assert (a + b)[1..] == a[1..] + b;
  }

  lemma SplitPrepended(c: char, s: string)
    ensures Split([c] + s) == Prepended(c, Split(s))
  {
    assert ([c] + s)[1..] == s;
  }

  lemma {:induction false} SplitAtSlash(front: string, rest: string)
    ensures Split(front + "/" + rest) == Split(front) + Split(rest)
  {
    if front == "" {
      SplitPrepended('/', rest);
      assert front + "/" + rest == ['/'] + rest;
    } else {
      SplitAtSlash(front[1..], rest);
      SplitPrepended(front[0], front[1..]);
      SplitPrepended(front[0], front[1..] + "/" + rest);
      PrependedFirst(front[0], Split(front[1..]), Split(rest));
      assert front + "/" + rest == [front[0]] + (front[1..] + "/" + rest);
      assert front == [front[0]] + front[1..];
    }
  }

  lemma SplitFirst(name: string, rest: string)
    requires '/' !in name
    ensures Split(name + "/" + rest) == [name] + Split(rest)
  {
    SplitName(name);
    SplitAtSlash(name, rest);
  }

  lemma {:induction false} SplitHasNoSlash(s: string)
    ensures forall name :: name in Split(s) ==> '/' !in name
  {
    if s != "" {
      SplitHasNoSlash(s[1..]);
    }
  }

  lemma {:induction false} JoinSnoc(parts: seq<string>, name: string)
    requires parts != []
    ensures Join(parts + [name]) == Join(parts) + "/" + name
  {
    assert (parts + [name])[1..] == parts[1..] + [name];
    if |parts| > 1 {
      JoinSnoc(parts[1..], name);
    }
  }

  /** The first components of a string are what stands before one of its slashes. */
  lemma {:induction false} JoinFront(parts: seq<string>, i: nat)
    requires 0 < i < |parts|
    ensures Join(parts[..i]) + "/" <= Join(parts)
    decreases |parts| - i
  {
    assert parts[..i + 1][..i] == parts[..i];
    JoinSnoc(parts[..i], parts[i]);
    assert parts[..i] + [parts[i]] == parts[..i + 1];
    if i + 1 < |parts| {
      JoinFront(parts, i + 1);
      assert Join(parts[..i]) + "/" <= Join(parts[..i + 1]) <= Join(parts);
    } else {
      assert parts[..i + 1] == parts;
    }
  }

  ghost predicate Slashless(parts: seq<string>) {
    forall part :: part in parts ==> '/' !in part
  }

  lemma JoinFirst(first: string, rest: seq<string>)
    requires rest != []
    ensures Join([first] + rest) == first + "/" + Join(rest)
  {
    assert ([first] + rest)[1..] == rest;
  }

  lemma {:induction false} SplitJoin(parts: seq<string>)
    requires parts != [] && Slashless(parts)
    ensures Split(Join(parts)) == parts
  {
    var first, rest := parts[0], parts[1..];
    assert first in parts && parts == [first] + rest;
    if rest == [] {
      SplitName(first);
    } else {
      SplitJoin(rest);
      JoinFirst(first, rest);
      SplitFirst(first, Join(rest));
    }
  }
}
