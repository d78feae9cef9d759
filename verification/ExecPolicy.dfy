/**
  The managed block in the Codex execpolicy (`execpolicy.py`, `register_execpolicy.py`):
  written by the installer, taken out by the uninstaller, foreign rules left alone.
 */
module ExecPolicy {
  import opened Wrappers
  import opened Lines

  const HEAD := "# codex-autopilot "
  const MARKER := HEAD + "(managed): the plugin's " + "own script, direct argv"
  const LEGACY_MARKER := HEAD + "(managed): собственный " + "скрипт плагина, прямой argv"
  const LEGACY_MARKERS := [LEGACY_MARKER]
  const TAG := "codex-autopilot"
  const RULE := "prefix_rule("

  predicate IsMarker(line: string) {
    StripSpace(line) == MARKER || StripSpace(line) in LEGACY_MARKERS
  }

  predicate IsManagedRule(line: string) {
    StartsWith(line, RULE) && Contains(line, TAG)
  }

  datatype Kind = Marker | Managed | Plain

  function KindOf(line: string): Kind {
    if IsMarker(line) then Marker else if IsManagedRule(line) then Managed else Plain
  }

  function Kinds(lines: seq<string>): seq<Kind> {
    seq(|lines|, i requires 0 <= i < |lines| => KindOf(lines[i]))
  }

  /** A line of a managed block: a marker, or a managed rule that follows one with only such rules between. */
  ghost predicate InBlock(kinds: seq<Kind>, i: int)
    requires i < |kinds|
  {
    exists m :: 0 <= m <= i && kinds[m] == Marker && forall j :: m < j <= i ==> kinds[j] == Managed
  }

  ghost function Outside(lines: seq<string>, kinds: seq<Kind>): seq<string>
    requires |lines| == |kinds|
  {
    if lines == [] then []
    else
      var n := |lines| - 1;
      Outside(lines[..n], kinds[..n]) + if InBlock(kinds, n) then [] else [lines[n]]
  }

  /** The lines outside every managed block, in order. */
  ghost function Foreign(lines: seq<string>): seq<string> {
    Outside(lines, Kinds(lines))
  }

  ghost function Strip(text: string): string {
    StripNewlines(Join(Foreign(SplitLines(text))))
  }

  lemma InBlockIsLocal(kinds: seq<Kind>, more: seq<Kind>, i: int)
    requires i < |kinds| <= |more| && kinds == more[..|kinds|]
    ensures InBlock(kinds, i) == InBlock(more, i)
  {
    assert forall k :: 0 <= k <= i ==> kinds[k] == more[k];
    if m :| 0 <= m <= i && more[m] == Marker && forall j :: m < j <= i ==> more[j] == Managed {
      assert kinds[m] == Marker;
    }
  }

  lemma InBlockStep(kinds: seq<Kind>, n: nat)
    requires n < |kinds|
    ensures InBlock(kinds, n) <==> kinds[n] == Marker || (InBlock(kinds, n - 1) && kinds[n] == Managed)
  {
    if InBlock(kinds, n - 1) && kinds[n] == Managed {
      var m :| 0 <= m <= n - 1 && kinds[m] == Marker && forall j :: m < j <= n - 1 ==> kinds[j] == Managed;
      assert 0 <= m <= n;
    }
  }

  lemma OutsideGrows(lines: seq<string>, kinds: seq<Kind>, n: nat)
    requires |lines| == |kinds| && n < |lines|
    ensures Outside(lines[..n + 1], kinds[..n + 1]) == Outside(lines[..n], kinds[..n]) + if InBlock(kinds, n) then []
      else [lines[n]]
  {
    assert lines[..n + 1][..n] == lines[..n] && kinds[..n + 1][..n] == kinds[..n];
    InBlockIsLocal(kinds[..n + 1], kinds, n);
  }

  /** `strip_managed` */
  method StripManaged(existing: string) returns (text: string)
    ensures text == Strip(existing)
  {
    var lines := SplitLines(existing);
    ghost var kinds := Kinds(lines);
    var kept: seq<string> := [];
    var inside := false;
    for n := 0 to |lines|
      invariant kept == Outside(lines[..n], kinds[..n])
      invariant inside <==> InBlock(kinds, n - 1)
    {
      OutsideGrows(lines, kinds, n);
      InBlockStep(kinds, n);
      if IsMarker(lines[n]) {
        inside := true;
        continue;
      }
      if inside {
        if IsManagedRule(lines[n]) {
          continue;
        }
        inside := false;
      }
      kept := kept + [lines[n]];
    }
    assert lines[..|lines|] == lines && kinds[..|lines|] == kinds;
    text := StripNewlines(Join(kept));
  }

  // ----- Writing the block -----

  /** The last `digits` hexadecimal digits of a number. */
  function Hex(n: nat, digits: nat): (r: string)
    ensures forall c :: c in r ==> '0' <= c <= 'f'
  {
    if digits == 0 then ""
    else
      var d := n % 16;
      Hex(n / 16, digits - 1) + [if d < 10 then '0' + d as char else 'a' + (d - 10) as char]
  }

  predicate IsPrintable(c: char) {
    ' ' <= c <= '~' || (c > '\U{A0}' && !IsSpace(c))
  }

  /** One character as Python's `repr` writes it between the quotes `q`. */
  function Escape(c: char, q: char): string {
    if c == '\\' || c == q then ['\\', c]
    else if c == '\n' then "\\n"
    else if c == '\r' then "\\r"
    else if c == '\t' then "\\t"
    else if IsPrintable(c) then [c]
    else if c as int < 0x100 then "\\x" + Hex(c as int, 2)
    else if c as int < 0x10000 then "\\u" + Hex(c as int, 4)
    else "\\U" + Hex(c as int, 8)
  }

  function EscapeAll(s: string, q: char): string {
    if s == "" then "" else Escape(s[0], q) + EscapeAll(s[1..], q)
  }

  function QuoteFor(s: string): (q: char)
    ensures q == '\'' || q == '"'
  {
    if '\'' in s && '"' !in s then '"' else '\''
  }

  /** `repr` of a string */
  function Repr(s: string): string {
    [QuoteFor(s)] + EscapeAll(s, QuoteFor(s)) + [QuoteFor(s)]
  }

  const PATTERN := RULE + "pattern=["
  const ALLOW := "], decision=\"allow\")"

  function Rule(script: string, command: string): string {
    PATTERN + Repr(script) + ", " + Repr(command) + ALLOW
  }

  function Rules(script: string, commands: seq<string>): (r: seq<string>)
    ensures |r| == |commands| && forall i :: 0 <= i < |r| ==> r[i] == Rule(script, commands[i])
  {
    seq(|commands|, i requires 0 <= i < |commands| => Rule(script, commands[i]))
  }

  /** `build_block`, as lines */
  function Block(script: string, commands: seq<string>): seq<string> {
    [MARKER] + Rules(script, commands)
  }

  method BuildBlock(script: string, commands: seq<string>) returns (text: string)
    ensures text == Join(Block(script, commands))
  {
    var lines := [MARKER];
    for n := 0 to |commands|
      invariant lines == [MARKER] + Rules(script, commands)[..n]
    {
      lines := lines + [Rule(script, commands[n])];
    }
    assert Rules(script, commands)[..|commands|] == Rules(script, commands);
    text := Join(lines);
  }

  /** The text that `register` writes. */
  ghost function Registered(existing: string, script: string, commands: seq<string>): string {
    var body := Strip(existing);
    (if body != "" then body + "\n\n" else "") + Join(Block(script, commands)) + "\n"
  }

  ghost predicate MentionsMarker(text: string) {
    Contains(text, MARKER) || exists j :: 0 <= j < |LEGACY_MARKERS| && Contains(text, LEGACY_MARKERS[j])
  }

  ghost function Leftover(text: string): Option<string> {
    if StripSpace(Strip(text)) != "" then Some(Strip(text) + "\n") else None
  }

  /** The Codex rules, in a file that may be missing. */
  class RulesFile {
    var text: Option<string>

    /** `register` */
    method Register(script: string, commands: seq<string>) returns (written: string)
      modifies this
      ensures written == Registered(if old(text).Some? then old(text).value else "", script, commands)
      ensures text == Some(written)
    {
      var existing := if text.Some? then text.value else "";
      var body := StripManaged(existing);
      var block := BuildBlock(script, commands);
      written := (if body != "" then body + "\n\n" else "") + block + "\n";
      text := Some(written);
    }

    /** `remove` */
    method Remove() returns (removed: bool)
      modifies this
      ensures removed <==> old(text).Some? && MentionsMarker(old(text).value)
      ensures text == if removed then Leftover(old(text).value) else old(text)
    {
      if text.None? {
        return false;
      }
      var mentioned := Contains(text.value, MARKER);
      for i := 0 to |LEGACY_MARKERS|
        invariant mentioned <==>
          Contains(text.value, MARKER) || exists j :: 0 <= j < i && Contains(text.value, LEGACY_MARKERS[j])
      {
        mentioned := mentioned || Contains(text.value, LEGACY_MARKERS[i]);
      }
      if !mentioned {
        return false;
      }
      var body := StripManaged(text.value);
      text := if StripSpace(body) != "" then Some(body + "\n") else None;
      return true;
    }
  }
}
