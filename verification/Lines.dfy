/** Python's text operations that the execpolicy writer and stripper use, on whole lines. */
module Lines {
  /** The characters at which `str.splitlines` ends a line. */
  predicate IsBreak(c: char) {
    || c == '\n' || c == '\r' || c == '\U{0B}' || c == '\U{0C}' || '\U{1C}' <= c <= '\U{1E}'
    || c == '\U{85}' || c == '\U{2028}' || c == '\U{2029}'
  }

  /** The characters that `str.strip` removes. */
  predicate IsSpace(c: char) {
    || IsBreak(c) || c == ' ' || c == '\t' || c == '\U{1F}' || c == '\U{A0}' || c == '\U{1680}'
    || '\U{2000}' <= c <= '\U{200A}' || c == '\U{202F}' || c == '\U{205F}' || c == '\U{3000}'
  }

  ghost predicate IsLine(s: string) {
    forall c :: c in s ==> !IsBreak(c)
  }

  ghost predicate AreLines(lines: seq<string>) {
    forall line :: line in lines ==> IsLine(line)
  }

  /** The end of the first line, and where the next one starts. */
  function LineEnd(s: string, from: nat): (r: (nat, nat))
    requires from <= |s|
    ensures from <= r.0 <= r.1 <= |s| && (r.0 == |s| || r.0 < r.1) && (from < |s| ==> from < r.1)
    ensures forall k :: from <= k < r.0 ==> !IsBreak(s[k])
    decreases |s| - from
  {
    if from == |s| then (from, from)
    else if s[from] == '\r' && from + 1 < |s| && s[from + 1] == '\n' then (from, from + 2)
    else if IsBreak(s[from]) then (from, from + 1)
    else LineEnd(s, from + 1)
  }

  /** `str.splitlines` */
  function SplitLines(s: string): (lines: seq<string>)
    ensures AreLines(lines)
  {
    if s == "" then []
    else
      var (end, next) := LineEnd(s, 0);
      [s[..end]] + SplitLines(s[next..])
  }

  /** `"\n".join` */
  function Join(lines: seq<string>): string {
    if lines == [] then ""
    else if |lines| == 1 then lines[0]
    else Join(lines[..|lines| - 1]) + "\n" + lines[|lines| - 1]
  }

  /** `str.rstrip("\n")` */
  function StripNewlines(s: string): string {
    if s != "" && s[|s| - 1] == '\n' then StripNewlines(s[..|s| - 1]) else s
  }

  function StripLeft(s: string): string {
    if s != "" && IsSpace(s[0]) then StripLeft(s[1..]) else s
  }

  function StripRight(s: string): (r: string)
    ensures |r| <= |s| && r == s[..|r|]
  {
    if s != "" && IsSpace(s[|s| - 1]) then StripRight(s[..|s| - 1]) else s
  }

  /** `str.strip` */
  function StripSpace(s: string): string {
    StripRight(StripLeft(s))
  }

  predicate StartsWith(s: string, prefix: string) {
    prefix <= s
  }

  /** Python's `in` on strings. */
  predicate Contains(s: string, part: string) {
    exists i | 0 <= i <= |s| :: part <= s[i..]
  }

  lemma ContainsParts(a: string, b: string, c: string, part: string)
    requires Contains(b, part)
    ensures Contains(a + b + c, part)
  {
    var i :| 0 <= i <= |b| && part <= b[i..];
    assert (a + b + c)[|a| + i..] == b[i..] + c;
  }

  lemma ContainsSplit(s: string, part: string) returns (a: string, b: string)
    requires Contains(s, part)
    ensures s == a + part + b
  {
    var i :| 0 <= i <= |s| && part <= s[i..];
    a, b := s[..i], s[i + |part|..];
    assert s[i..][..|part|] == part;
    assert s == s[..i] + s[i..i + |part|] + s[i + |part|..];
  }

  /** One line end: any of the breaks, or a carriage return and newline together. */
  ghost predicate IsEnd(end: string, rest: string) {
    end == "\r\n" || (|end| == 1 && IsBreak(end[0]) && !(end == "\r" && rest != "" && rest[0] == '\n'))
  }

  lemma {:induction false} LineEndOfLine(x: string, end: string, rest: string, from: nat)
    requires from <= |x| && IsLine(x) && IsEnd(end, rest)
    ensures LineEnd(x + end + rest, from) == (|x|, |x| + |end|)
    decreases |x| - from
  {
    var s := x + end + rest;
    if from < |x| {
      assert s[from] == x[from] && x[from] in x;
      LineEndOfLine(x, end, rest, from + 1);
    } else {
      assert s[|x|] == end[0] && s[|x| + |end|..] == rest;
      assert |end| == 2 ==> s[|x| + 1] == end[1];
      assert |end| == 1 && rest != "" ==> s[|x| + 1] == rest[0];
    }
  }

  /** A line ends at its line end, whichever it is, and the next one starts after it. */
  lemma SplitAtEnd(x: string, end: string, rest: string)
    requires IsLine(x) && IsEnd(end, rest)
    ensures SplitLines(x + end + rest) == [x] + SplitLines(rest)
  {
    LineEndOfLine(x, end, rest, 0);
    var s := x + end + rest;
    assert s[..|x|] == x && s[|x| + |end|..] == rest;
  }

  lemma SplitOne(x: string, rest: string)
    requires IsLine(x)
    ensures SplitLines(x + "\n" + rest) == [x] + SplitLines(rest)
  {
    SplitAtEnd(x, "\n", rest);
  }

  lemma Regroup<T>(a: seq<T>, b: seq<T>, c: seq<T>, d: seq<T>, e: seq<T>)
    ensures (a + b + c) + d + e == a + b + (c + d + e)
  {
  }

  lemma Reattach<T>(s: seq<T>, rest: seq<T>)
    requires s != []
    ensures s[..|s| - 1] + ([s[|s| - 1]] + rest) == s + rest
  {
  }

  /** Splitting what was joined gives the lines back, whatever text follows. */
  lemma {:induction false} SplitJoined(lines: seq<string>, rest: string)
    requires AreLines(lines) && lines != []
    ensures SplitLines(Join(lines) + "\n" + rest) == lines + SplitLines(rest)
  {
    var n := |lines| - 1;
    var front, last := lines[..n], lines[n];
    assert last in lines;
    if n == 0 {
      SplitOne(last, rest);
      assert lines == [last];
    } else {
      calc {
        SplitLines(Join(lines) + "\n" + rest);
        { Regroup(Join(front), "\n", last, "\n", rest); }
        SplitLines(Join(front) + "\n" + (last + "\n" + rest));
        { SplitJoined(front, last + "\n" + rest); }
        front + SplitLines(last + "\n" + rest);
        { SplitOne(last, rest); }
        front + ([last] + SplitLines(rest));
        { Reattach(lines, SplitLines(rest)); }
        lines + SplitLines(rest);
      }
    }
  }

  /** Lines without the empty ones at the end. */
  function Trim(lines: seq<string>): seq<string> {
    if lines != [] && lines[|lines| - 1] == "" then Trim(lines[..|lines| - 1]) else lines
  }

  lemma {:induction false} TrimIsPrefix(lines: seq<string>)
    ensures |Trim(lines)| <= |lines| && Trim(lines) == lines[..|Trim(lines)|]
    ensures Trim(lines) != [] ==> Trim(lines)[|Trim(lines)| - 1] != ""
  {
    if lines != [] && lines[|lines| - 1] == "" {
      TrimIsPrefix(lines[..|lines| - 1]);
    }
  }

  lemma {:induction false} StripJoined(lines: seq<string>)
    requires AreLines(lines)
    ensures StripNewlines(Join(lines)) == Join(Trim(lines))
  {
    if lines != [] {
      var n := |lines| - 1;
      assert lines[n] in lines;
      if lines[n] == "" {
        StripJoined(lines[..n]);
        if n > 0 {
          assert Join(lines) == Join(lines[..n]) + "\n";
          assert Join(lines)[..|Join(lines)| - 1] == Join(lines[..n]);
        }
      } else {
        assert Join(lines)[|Join(lines)| - 1] == lines[n][|lines[n]| - 1];
        assert lines[n][|lines[n]| - 1] in lines[n];
      }
    }
  }

  lemma {:induction false} JoinAtLeast(a: seq<string>, b: seq<string>)
    ensures |Join(a + b)| >= |Join(a)|
  {
    if b == [] {
      assert a + b == a;
    } else {
      assert (a + b)[..|a + b| - 1] == a + b[..|b| - 1];
      JoinAtLeast(a, b[..|b| - 1]);
    }
  }

  lemma {:induction false} JoinGrows(a: seq<string>, b: seq<string>)
    requires b != [] && b[|b| - 1] != ""
    ensures |Join(a + b)| > |Join(a)|
  {
    var n := |b| - 1;
    assert (a + b)[..|a + b| - 1] == a + b[..n];
    if n == 0 {
      assert a + b[..n] == a;
    } else {
      JoinAtLeast(a, b[..n]);
    }
  }
}
