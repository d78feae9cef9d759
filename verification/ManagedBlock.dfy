/** The execpolicy block can be written again, moved and taken out, and foreign rules stay as they are. */
module ManagedBlock {
  import opened Wrappers
  import opened Lines
  import opened ExecPolicy

  // ----- The lines of a block -----

  lemma HexIsLine(prefix: string, n: nat, digits: nat)
    requires IsLine(prefix)
    ensures IsLine(prefix + Hex(n, digits))
  {
  }

  lemma EscapeIsLine(c: char, q: char)
    requires q == '\'' || q == '"'
    ensures IsLine(Escape(c, q))
  {
    if c as int >= 0x10000 {
      HexIsLine("\\U", c as int, 8);
    } else if c as int >= 0x100 {
      HexIsLine("\\u", c as int, 4);
    } else {
      HexIsLine("\\x", c as int, 2);
    }
  }

  lemma {:induction false} EscapeAllIsLine(s: string, q: char)
    requires q == '\'' || q == '"'
    ensures IsLine(EscapeAll(s, q))
  {
    if s != "" {
      EscapeIsLine(s[0], q);
      EscapeAllIsLine(s[1..], q);
    }
  }

  lemma Appended(a: string, b: string)
    requires IsLine(a) && IsLine(b)
    ensures IsLine(a + b)
  {
  }

  lemma ReprIsLine(s: string)
    ensures IsLine(Repr(s))
  {
    EscapeAllIsLine(s, QuoteFor(s));
  }

  lemma PatternIsLine()
    ensures IsLine(PATTERN) && IsLine(", ") && IsLine(ALLOW)
  {
  }

  lemma RuleIsLine(script: string, command: string)
    ensures IsLine(Rule(script, command))
  {
    PatternIsLine();
    ReprIsLine(script);
    ReprIsLine(command);
    Appended(PATTERN, Repr(script));
    Appended(PATTERN + Repr(script), ", ");
    Appended(PATTERN + Repr(script) + ", ", Repr(command));
    Appended(PATTERN + Repr(script) + ", " + Repr(command), ALLOW);
  }

  lemma StripsLess(s: string)
    requires s != "" && !IsSpace(s[0])
    ensures StripSpace(s) == "" || StripSpace(s)[0] == s[0]
    ensures !IsSpace(s[|s| - 1]) ==> StripSpace(s) == s
  {
  }

  lemma RuleStarts(script: string, command: string)
    ensures RULE <= Rule(script, command) && Rule(script, command)[0] == 'p'
  {
    assert Rule(script, command)[..|RULE|] == RULE;
    assert RULE[0] == 'p';
  }

  lemma MarkersStart()
    ensures MARKER[0] == '#' && !IsSpace(MARKER[|MARKER| - 1]) && LEGACY_MARKER[0] == '#'
  {
  }

  lemma RuleKind(script: string, command: string)
    ensures KindOf(Rule(script, command)) == if Contains(Rule(script, command), TAG) then Managed else Plain
  {
    var rule := Rule(script, command);
    RuleStarts(script, command);
    MarkersStart();
    StripsLess(rule);
  }

  lemma MarkerKind()
    ensures KindOf(MARKER) == Marker
  {
    MarkersStart();
    StripsLess(MARKER);
  }

  lemma HeadIsLine()
    ensures IsLine(HEAD)
  {
  }

  lemma MiddleIsLine()
    ensures IsLine("(managed): the plugin's ")
  {
  }

  lemma EndIsLine()
    ensures IsLine("own script, direct argv")
  {
  }

  lemma MarkerIsLine()
    ensures IsLine(MARKER)
  {
    HeadIsLine();
    MiddleIsLine();
    EndIsLine();
    Appended(HEAD, "(managed): the plugin's ");
    Appended(HEAD + "(managed): the plugin's ", "own script, direct argv");
  }

  lemma {:induction false} EscapeAllAppends(a: string, b: string, q: char)
    requires q == '\'' || q == '"'
    ensures EscapeAll(a + b, q) == EscapeAll(a, q) + EscapeAll(b, q)
  {
    if a == "" {
      assert a + b == b;
    } else {
      assert (a + b)[1..] == a[1..] + b;
      EscapeAllAppends(a[1..], b, q);
    }
  }

  predicate IsPlainText(s: string) {
    forall i :: 0 <= i < |s| ==> 'a' <= s[i] <= 'z' || s[i] == '-'
  }

  lemma {:induction false} EscapeAllKeeps(s: string, q: char)
    requires (q == '\'' || q == '"') && IsPlainText(s)
    ensures EscapeAll(s, q) == s
  {
    if s != "" {
      EscapeAllKeeps(s[1..], q);
    }
  }

  lemma HoldsItself(part: string)
    ensures Contains(part, part)
  {
    assert part <= part[0..];
  }

  lemma EscapedHolds(a: string, part: string, b: string, q: char)
    requires (q == '\'' || q == '"') && IsPlainText(part)
    ensures Contains(EscapeAll(a + part + b, q), part)
  {
    EscapeAllAppends(a + part, b, q);
    EscapeAllAppends(a, part, q);
    EscapeAllKeeps(part, q);
    HoldsItself(part);
    ContainsParts(EscapeAll(a, q), part, EscapeAll(b, q), part);
  }

  lemma ReprHolds(s: string, part: string)
    requires Contains(s, part) && IsPlainText(part)
    ensures Contains(Repr(s), part)
  {
    var a, b := ContainsSplit(s, part);
    var q := QuoteFor(s);
    EscapedHolds(a, part, b, q);
    ContainsParts([q], EscapeAll(s, q), [q], part);
  }

  lemma TagIsPlain()
    ensures IsPlainText(TAG)
  {
  }

  lemma RuleHolds(script: string, command: string, part: string)
    requires Contains(Repr(script), part)
    ensures Contains(Rule(script, command), part)
  {
    var end := ", " + Repr(command) + ALLOW;
    ContainsParts(PATTERN, Repr(script), end, part);
    assert Rule(script, command) == PATTERN + Repr(script) + end;
  }

  /** A script whose path holds the tag writes it into its rules, whatever else the path holds. */
  lemma TagIsWritten(script: string, command: string)
    requires Contains(script, TAG)
    ensures Contains(Rule(script, command), TAG)
  {
    TagIsPlain();
    ReprHolds(script, TAG);
    RuleHolds(script, command, TAG);
  }

  // ----- Stripping what was written -----

  ghost predicate NoMarker(kinds: seq<Kind>) {
    forall i :: 0 <= i < |kinds| ==> kinds[i] != Marker
  }

  lemma FrontOfSum<T>(a: seq<T>, b: seq<T>)
    requires b != []
    ensures (a + b)[..|a + b| - 1] == a + b[..|b| - 1] && (a + b)[|a + b| - 1] == b[|b| - 1]
  {
  }

  lemma {:induction false} OutsideOfPlain(lines: seq<string>, kinds: seq<Kind>)
    requires |lines| == |kinds| && NoMarker(kinds)
    ensures Outside(lines, kinds) == lines
  {
    if lines != [] {
      var n := |lines| - 1;
      OutsideOfPlain(lines[..n], kinds[..n]);
      assert !InBlock(kinds, n);
    }
  }

  lemma Associates<T>(a: seq<T>, b: seq<T>, c: seq<T>)
    ensures a + b + c == a + (b + c)
  {
  }

  lemma InBlockAfter(kinds: seq<Kind>, more: seq<Kind>, n: nat)
    requires NoMarker(kinds) && n < |more|
    ensures InBlock(kinds + more, |kinds| + n) == InBlock(more, n)
  {
    var all := kinds + more;
    if InBlock(all, |kinds| + n) {
      var m :| 0 <= m <= |kinds| + n && all[m] == Marker && forall j :: m < j <= |kinds| + n ==> all[j] == Managed;
      assert m >= |kinds| && more[m - |kinds|] == Marker;
      forall j | m - |kinds| < j <= n ensures more[j] == Managed {
        assert all[|kinds| + j] == more[j];
      }
    }
    if InBlock(more, n) {
      var m :| 0 <= m <= n && more[m] == Marker && forall j :: m < j <= n ==> more[j] == Managed;
      assert all[|kinds| + m] == Marker;
    }
  }

  /** Without a marker nothing before a block is dropped, and the block is judged alone. */
  lemma {:induction false} OutsideAppends(lines: seq<string>, kinds: seq<Kind>, more: seq<string>, moreKinds: seq<Kind>)
    requires |lines| == |kinds| && |more| == |moreKinds| && NoMarker(kinds)
    ensures Outside(lines + more, kinds + moreKinds) == lines + Outside(more, moreKinds)
  {
    if more == [] {
      OutsideOfPlain(lines, kinds);
      assert lines + more == lines && kinds + moreKinds == kinds;
    } else {
      var n := |more| - 1;
      var tail := if InBlock(moreKinds, n) then [] else [more[n]];
      calc {
        Outside(lines + more, kinds + moreKinds);
        { FrontOfSum(lines, more); FrontOfSum(kinds, moreKinds); InBlockAfter(kinds, moreKinds, n); }
        Outside(lines + more[..n], kinds + moreKinds[..n]) + tail;
        { OutsideAppends(lines, kinds, more[..n], moreKinds[..n]); }
        lines + Outside(more[..n], moreKinds[..n]) + tail;
        { Associates(lines, Outside(more[..n], moreKinds[..n]), tail); }
        lines + Outside(more, moreKinds);
      }
    }
  }

  lemma {:induction false} OutsideHasNoMarker(lines: seq<string>, kinds: seq<Kind>)
    requires |lines| == |kinds| && forall i :: 0 <= i < |lines| ==> kinds[i] == KindOf(lines[i])
    ensures forall line :: line in Outside(lines, kinds) ==> KindOf(line) != Marker && line in lines
  {
    if lines != [] {
      var n := |lines| - 1;
      OutsideHasNoMarker(lines[..n], kinds[..n]);
      InBlockStep(kinds, n);
    }
  }

  lemma KindsAppend(a: seq<string>, b: seq<string>)
    ensures Kinds(a + b) == Kinds(a) + Kinds(b)
  {
  }

  /** What is left of a text has no marker, so stripping it again takes nothing. */
  lemma ForeignStays(lines: seq<string>, more: seq<string>)
    requires forall line :: line in lines ==> KindOf(line) != Marker
    ensures Foreign(lines + more) == lines + Foreign(more)
  {
    KindsAppend(lines, more);
    assert NoMarker(Kinds(lines)) by {
      forall i | 0 <= i < |lines| ensures Kinds(lines)[i] != Marker {
        assert lines[i] in lines;
      }
    }
    OutsideAppends(lines, Kinds(lines), more, Kinds(more));
  }

  /** The block itself goes exactly as far as its rules hold the tag. */
  predicate AllTagged(script: string, commands: seq<string>) {
    forall c :: c in commands ==> Contains(Rule(script, c), TAG)
  }

  function KindOfRule(script: string, command: string): Kind {
    if Contains(Rule(script, command), TAG) then Managed else Plain
  }

  lemma BlockLines(script: string, commands: seq<string>)
    ensures AreLines(Block(script, commands))
  {
    MarkerIsLine();
    forall i | 0 <= i < |commands| ensures IsLine(Rule(script, commands[i])) {
      RuleIsLine(script, commands[i]);
    }
  }

  lemma KindsAt(lines: seq<string>, i: nat)
    requires i < |lines|
    ensures |Kinds(lines)| == |lines| && Kinds(lines)[i] == KindOf(lines[i])
  {
  }

  lemma RuleKindAt(lines: seq<string>, i: nat, script: string, command: string)
    requires i < |lines| && lines[i] == Rule(script, command)
    ensures |Kinds(lines)| == |lines| && Kinds(lines)[i] == KindOfRule(script, command)
  {
    KindsAt(lines, i);
    RuleKind(script, command);
  }

  lemma BlockKindAt(script: string, commands: seq<string>, i: nat)
    requires i < |commands|
    ensures |Kinds(Block(script, commands))| == 1 + |commands|
    ensures Kinds(Block(script, commands))[i + 1] == KindOfRule(script, commands[i])
  {
    RuleKindAt(Block(script, commands), i + 1, script, commands[i]);
  }

  lemma BlockKindFirst(script: string, commands: seq<string>)
    ensures |Kinds(Block(script, commands))| == 1 + |commands| && Kinds(Block(script, commands))[0] == Marker
  {
    KindsAt(Block(script, commands), 0);
    MarkerKind();
  }

  lemma BlockKinds(script: string, commands: seq<string>) returns (kinds: seq<Kind>)
    ensures kinds == Kinds(Block(script, commands)) && |kinds| == 1 + |commands| && kinds[0] == Marker
    ensures forall i :: 0 <= i < |commands| ==> kinds[i + 1] == KindOfRule(script, commands[i])
  {
    kinds := Kinds(Block(script, commands));
    BlockKindFirst(script, commands);
    forall i | 0 <= i < |commands| ensures kinds[i + 1] == KindOfRule(script, commands[i]) {
      BlockKindAt(script, commands, i);
    }
  }

  lemma {:induction false} OutsideIsEmpty(lines: seq<string>, kinds: seq<Kind>)
    requires |lines| == |kinds|
    ensures Outside(lines, kinds) == [] <==> forall i :: 0 <= i < |kinds| ==> InBlock(kinds, i)
  {
    if lines != [] {
      var n := |lines| - 1;
      OutsideIsEmpty(lines[..n], kinds[..n]);
      forall i | 0 <= i < n ensures InBlock(kinds[..n], i) == InBlock(kinds, i) {
        InBlockIsLocal(kinds[..n], kinds, i);
      }
    }
  }

  lemma AllInBlock(kinds: seq<Kind>, n: nat)
    requires n < |kinds| && kinds[0] == Marker && forall i :: 1 <= i <= n ==> kinds[i] == Managed
    ensures InBlock(kinds, n)
  {
  }

  lemma ManagedFollowsMarker(kinds: seq<Kind>)
    requires kinds != [] && kinds[0] == Marker && forall i :: 1 <= i < |kinds| ==> kinds[i] != Marker
    ensures (forall i :: 0 <= i < |kinds| ==> InBlock(kinds, i)) <==>
      forall i :: 1 <= i < |kinds| ==> kinds[i] == Managed
  {
    forall i | 0 <= i < |kinds| && InBlock(kinds, i) ensures i == 0 || kinds[i] == Managed {
      InBlockStep(kinds, i);
    }
    if forall i :: 1 <= i < |kinds| ==> kinds[i] == Managed {
      forall i | 0 <= i < |kinds| ensures InBlock(kinds, i) {
        AllInBlock(kinds, i);
      }
    }
  }

  lemma TaggedKinds(script: string, commands: seq<string>, kinds: seq<Kind>)
    requires |kinds| == 1 + |commands|
    requires forall i :: 0 <= i < |commands| ==> kinds[i + 1] == KindOfRule(script, commands[i])
    ensures (forall i :: 1 <= i < |kinds| ==> kinds[i] == Managed) <==> AllTagged(script, commands)
    ensures forall i :: 1 <= i < |kinds| ==> kinds[i] != Marker
  {
    forall i | 1 <= i < |kinds| ensures kinds[i] == KindOfRule(script, commands[i - 1]) {
      assert kinds[(i - 1) + 1] == KindOfRule(script, commands[i - 1]);
    }
    if c :| c in commands && !Contains(Rule(script, c), TAG) {
      var i :| 0 <= i < |commands| && commands[i] == c;
      assert kinds[i + 1] == Plain;
    }
  }

  lemma AllGoIffTagged(script: string, commands: seq<string>, kinds: seq<Kind>)
    requires |kinds| == 1 + |commands| && kinds[0] == Marker
    requires forall i :: 0 <= i < |commands| ==> kinds[i + 1] == KindOfRule(script, commands[i])
    ensures (forall i :: 0 <= i < |kinds| ==> InBlock(kinds, i)) <==> AllTagged(script, commands)
  {
    TaggedKinds(script, commands, kinds);
    ManagedFollowsMarker(kinds);
  }

  /** A block is stripped whole exactly when each of its rules holds the tag. */
  lemma BlockGoes(script: string, commands: seq<string>)
    ensures Foreign(Block(script, commands)) == [] <==> AllTagged(script, commands)
  {
    var kinds := BlockKinds(script, commands);
    AllGoIffTagged(script, commands, kinds);
    OutsideIsEmpty(Block(script, commands), kinds);
  }

  /** What is kept of a block are its own rules, which are not empty. */
  lemma LastIsNotEmpty(script: string, commands: seq<string>)
    ensures var kept := Foreign(Block(script, commands)); kept == [] || kept[|kept| - 1] != ""
  {
    var block := Block(script, commands);
    OutsideHasNoMarker(block, Kinds(block));
    var kept := Foreign(block);
    if kept != [] {
      var line := kept[|kept| - 1];
      assert line in block;
      var i :| 0 <= i < |block| && block[i] == line;
      MarkersStart();
      if i > 0 {
        RuleStarts(script, commands[i - 1]);
      }
    }
  }

  // ----- The results -----

  /** The lines that stripping leaves: the foreign ones, without the empty ones at the end. */
  ghost function Left(text: string): seq<string> {
    Trim(Foreign(SplitLines(text)))
  }

  lemma LeftLines(text: string)
    ensures Strip(text) == Join(Left(text)) && AreLines(Left(text))
    ensures forall line :: line in Left(text) ==> KindOf(line) != Marker
    ensures Left(text) == [] || Left(text)[|Left(text)| - 1] != ""
    ensures Strip(text) == "" <==> Left(text) == []
  {
    var lines := SplitLines(text);
    OutsideHasNoMarker(lines, Kinds(lines));
    StripJoined(Foreign(lines));
    TrimIsPrefix(Foreign(lines));
    if Left(text) != [] {
      JoinGrows([], Left(text));
      assert [] + Left(text) == Left(text);
    }
  }

  /** The lines before the block in what `register` writes. */
  ghost function Lead(text: string): seq<string> {
    if Left(text) == [] then [] else Left(text) + [""]
  }

  lemma SplitBlock(script: string, commands: seq<string>)
    ensures SplitLines(Join(Block(script, commands)) + "\n") == Block(script, commands)
  {
    var block := Block(script, commands);
    BlockLines(script, commands);
    SplitJoined(block, "");
    assert Join(block) + "\n" + "" == Join(block) + "\n";
    assert block + [] == block;
  }

  lemma SplitLead(lines: seq<string>, rest: string)
    requires lines != [] && AreLines(lines)
    ensures SplitLines(Join(lines) + "\n\n" + rest) == lines + [""] + SplitLines(rest)
  {
    assert Join(lines) + "\n\n" + rest == Join(lines) + "\n" + ("" + "\n" + rest);
    SplitJoined(lines, "" + "\n" + rest);
    SplitOne("", rest);
    Associates(lines, [""], SplitLines(rest));
  }

  lemma TextAlone(block: string)
    ensures "" + block + "\n" == block + "\n"
  {
  }

  lemma RegisteredAlone(text: string, script: string, commands: seq<string>)
    requires Left(text) == []
    ensures Registered(text, script, commands) == Join(Block(script, commands)) + "\n"
  {
    LeftLines(text);
    TextAlone(Join(Block(script, commands)));
  }

  lemma RegisteredAfter(text: string, script: string, commands: seq<string>)
    requires Left(text) != []
    ensures Registered(text, script, commands) == Join(Left(text)) + "\n\n" + (Join(Block(script, commands)) + "\n")
  {
    LeftLines(text);
    Associates(Strip(text) + "\n\n", Join(Block(script, commands)), "\n");
  }

  lemma RegisteredLines(text: string, script: string, commands: seq<string>)
    ensures SplitLines(Registered(text, script, commands)) == Lead(text) + Block(script, commands)
  {
    SplitBlock(script, commands);
    if Left(text) == [] {
      RegisteredAlone(text, script, commands);
      assert [] + Block(script, commands) == Block(script, commands);
    } else {
      RegisteredAfter(text, script, commands);
      LeftLines(text);
      SplitLead(Left(text), Join(Block(script, commands)) + "\n");
    }
  }

  lemma RegisteredForeign(text: string, script: string, commands: seq<string>)
    ensures Foreign(SplitLines(Registered(text, script, commands))) == Lead(text) + Foreign(Block(script, commands))
  {
    RegisteredLines(text, script, commands);
    LeftLines(text);
    MarkersStart();
    assert KindOf("") != Marker;
    ForeignStays(Lead(text), Block(script, commands));
  }

  lemma TrimLead(text: string)
    ensures Trim(Lead(text)) == Left(text)
  {
    LeftLines(text);
    if Left(text) != [] {
      assert (Left(text) + [""])[..|Left(text)|] == Left(text);
    }
  }

  lemma LeadIsLonger(text: string)
    ensures |Join(Lead(text))| >= |Join(Left(text))|
  {
    if Left(text) != [] {
      JoinAtLeast(Left(text), [""]);
    }
  }

  lemma LastOfSum<T>(a: seq<T>, b: seq<T>)
    requires b != []
    ensures (a + b)[|a + b| - 1] == b[|b| - 1]
  {
  }

  /** A rule that is kept makes the text longer. */
  lemma KeptIsLonger(text: string, kept: seq<string>)
    requires kept != [] && kept[|kept| - 1] != ""
    ensures |Join(Trim(Lead(text) + kept))| > |Join(Left(text))|
  {
    LastOfSum(Lead(text), kept);
    JoinGrows(Lead(text), kept);
    LeadIsLonger(text);
  }

  lemma RegisteredLeft(text: string, script: string, commands: seq<string>)
    ensures Left(Registered(text, script, commands)) == Trim(Lead(text) + Foreign(Block(script, commands)))
  {
    RegisteredForeign(text, script, commands);
  }

  lemma LeftAfterRegister(text: string, script: string, commands: seq<string>)
    ensures Join(Left(Registered(text, script, commands))) == Join(Left(text)) <==> AllTagged(script, commands)
  {
    var kept := Foreign(Block(script, commands));
    RegisteredLeft(text, script, commands);
    BlockGoes(script, commands);
    if kept == [] {
      TrimLead(text);
      assert Lead(text) + kept == Lead(text);
    } else {
      LastIsNotEmpty(script, commands);
      KeptIsLonger(text, kept);
    }
  }

  /**
    Stripping what was registered gives what stripping gave before, exactly when every rule
    of the block holds the tag.
   */
  lemma StripUndoesRegister(text: string, script: string, commands: seq<string>)
    ensures Strip(Registered(text, script, commands)) == Strip(text) <==> AllTagged(script, commands)
  {
    LeftLines(text);
    LeftLines(Registered(text, script, commands));
    LeftAfterRegister(text, script, commands);
  }

  lemma ScriptTagsAll(script: string, commands: seq<string>)
    requires Contains(script, TAG)
    ensures AllTagged(script, commands)
  {
    forall c | c in commands ensures Contains(Rule(script, c), TAG) {
      TagIsWritten(script, c);
    }
  }

  /** Registering again, for this script or a newer one, leaves one block: that of the last registration. */
  lemma LastRegistrationCounts(text: string, former: string, latter: string, commands: seq<string>, more: seq<string>)
    requires Contains(former, TAG)
    ensures Registered(Registered(text, former, commands), latter, more) == Registered(text, latter, more)
  {
    ScriptTagsAll(former, commands);
    StripUndoesRegister(text, former, commands);
  }

  lemma {:induction false} StartsJoined(lines: seq<string>)
    requires lines != []
    ensures lines[0] <= Join(lines)
  {
    if |lines| > 1 {
      StartsJoined(lines[..|lines| - 1]);
    }
  }

  lemma BlockHoldsMarker(script: string, commands: seq<string>)
    ensures Contains(Join(Block(script, commands)), MARKER)
  {
    StartsJoined(Block(script, commands));
    assert MARKER <= Join(Block(script, commands))[0..];
  }

  /** Removing what was registered leaves the foreign rules alone, and no file where there were none. */
  lemma RemoveUndoesRegister(text: string, script: string, commands: seq<string>)
    requires Contains(script, TAG)
    ensures MentionsMarker(Registered(text, script, commands))
    ensures Leftover(Registered(text, script, commands)) == Leftover(text)
  {
    ScriptTagsAll(script, commands);
    StripUndoesRegister(text, script, commands);
    BlockHoldsMarker(script, commands);
    var body := Strip(text);
    ContainsParts(if body != "" then body + "\n\n" else "", Join(Block(script, commands)), "\n", MARKER);
  }

  /** After a removal no managed line is left. */
  lemma NothingManagedIsLeft(text: string, line: string)
    requires Leftover(text).Some? && line in SplitLines(Leftover(text).value)
    ensures KindOf(line) != Marker && line in SplitLines(text)
  {
    LeftLines(text);
    var lines := SplitLines(text);
    OutsideHasNoMarker(lines, Kinds(lines));
    TrimIsPrefix(Foreign(lines));
    if Left(text) != [] {
      SplitJoined(Left(text), "");
      assert Join(Left(text)) + "\n" + "" == Strip(text) + "\n";
    }
  }

  // ----- Rules that are not taken out -----

  lemma {:induction false} LineWithoutEnd(line: string, from: nat)
    requires from <= |line| && IsLine(line)
    ensures LineEnd(line, from) == (|line|, |line|)
    decreases |line| - from
  {
    if from < |line| {
      assert line[from] in line;
      LineWithoutEnd(line, from + 1);
    }
  }

  lemma LastLine(line: string)
    requires IsLine(line) && line != ""
    ensures SplitLines(line) == [line]
  {
    LineWithoutEnd(line, 0);
    assert line[..|line|] == line && line[|line|..] == "";
  }

  lemma LastOfLines(lines: seq<string>)
    requires AreLines(lines) && lines != []
    ensures IsLine(lines[|lines| - 1]) && AreLines(lines[..|lines| - 1])
    ensures lines == lines[..|lines| - 1] + [lines[|lines| - 1]]
  {
    assert lines[|lines| - 1] in lines;
  }

  lemma SplitWithoutEnd(lines: seq<string>)
    requires AreLines(lines) && lines != [] && lines[|lines| - 1] != ""
    ensures SplitLines(Join(lines)) == lines
  {
    var n := |lines| - 1;
    LastOfLines(lines);
    LastLine(lines[n]);
    if n > 0 {
      SplitJoined(lines[..n], lines[n]);
    }
  }

  lemma AlreadyTrimmed(lines: seq<string>)
    requires lines == [] || lines[|lines| - 1] != ""
    ensures Trim(lines) == lines
  {
  }

  /** What one strip leaves, every later strip leaves too. */
  lemma StripTwice(text: string)
    ensures Strip(Strip(text)) == Strip(text)
  {
    LeftLines(text);
    var left := Left(text);
    if left != [] {
      SplitWithoutEnd(left);
    }
    ForeignStays(left, []);
    assert left + [] == left && Foreign([]) == [];
    AlreadyTrimmed(left);
    StripJoined(left);
    assert SplitLines(Strip(text)) == left;
  }

  lemma EscapeWithout(c: char, q: char)
    requires (q == '\'' || q == '"') && c != '-'
    ensures '-' !in Escape(c, q)
  {
  }

  lemma {:induction false} EscapeAllWithout(s: string, q: char)
    requires (q == '\'' || q == '"') && '-' !in s
    ensures '-' !in EscapeAll(s, q)
  {
    if s != "" {
      assert s[0] in s;
      EscapeWithout(s[0], q);
      EscapeAllWithout(s[1..], q);
    }
  }

  lemma PartsWithout(a: string, b: string)
    requires '-' !in a && '-' !in b
    ensures '-' !in a + b
  {
  }

  lemma FixedPartsWithout()
    ensures '-' !in PATTERN && '-' !in ", " && '-' !in ALLOW
  {
  }

  lemma RuleWithout(script: string, command: string)
    requires '-' !in script && '-' !in command
    ensures '-' !in Rule(script, command)
  {
    EscapeAllWithout(script, QuoteFor(script));
    EscapeAllWithout(command, QuoteFor(command));
    FixedPartsWithout();
    PartsWithout(PATTERN, Repr(script));
    PartsWithout(PATTERN + Repr(script), ", ");
    PartsWithout(PATTERN + Repr(script) + ", ", Repr(command));
    PartsWithout(PATTERN + Repr(script) + ", " + Repr(command), ALLOW);
  }

  lemma TagNeedsHyphen(s: string)
    ensures Contains(s, TAG) ==> '-' in s
  {
    if Contains(s, TAG) {
      var a, b := ContainsSplit(s, TAG);
      assert TAG[5] == '-' && (a + TAG + b)[|a| + 5] == TAG[5];
    }
  }

  /** For instance: a path and a command without a hyphen are written into a rule that no strip takes out. */
  lemma UntaggedRuleStays(text: string, script: string, command: string)
    requires '-' !in script && '-' !in command
    ensures Strip(Registered(text, script, [command])) != Strip(text)
    ensures Strip(Strip(Registered(text, script, [command]))) == Strip(Registered(text, script, [command]))
  {
    RuleWithout(script, command);
    TagNeedsHyphen(Rule(script, command));
    assert command in [command];
    StripUndoesRegister(text, script, [command]);
    StripTwice(Registered(text, script, [command]));
  }

  // ----- Blocks under an earlier marker -----

  lemma LegacyParts()
    ensures IsLine("(managed): собственный ") && IsLine("скрипт плагина, прямой argv")
  {
  }

  lemma LegacyMarkerKind()
    ensures KindOf(LEGACY_MARKER) == Marker && IsLine(LEGACY_MARKER)
  {
    MarkersStart();
    assert !IsSpace(LEGACY_MARKER[|LEGACY_MARKER| - 1]);
    StripsLess(LEGACY_MARKER);
    HeadIsLine();
    LegacyParts();
    Appended(HEAD, "(managed): собственный ");
    Appended(HEAD + "(managed): собственный ", "скрипт плагина, прямой argv");
  }

  lemma MarkedKinds(marker: string, script: string, commands: seq<string>) returns (kinds: seq<Kind>)
    requires KindOf(marker) == Marker
    ensures kinds == Kinds([marker] + Rules(script, commands)) && |kinds| == 1 + |commands| && kinds[0] == Marker
    ensures forall i :: 0 <= i < |commands| ==> kinds[i + 1] == KindOfRule(script, commands[i])
  {
    var lines := [marker] + Rules(script, commands);
    kinds := Kinds(lines);
    KindsAt(lines, 0);
    forall i | 0 <= i < |commands| ensures kinds[i + 1] == KindOfRule(script, commands[i]) {
      RuleKindAt(lines, i + 1, script, commands[i]);
    }
  }

  lemma MarkedRulesGo(marker: string, script: string, commands: seq<string>)
    requires KindOf(marker) == Marker && Contains(script, TAG)
    ensures Foreign([marker] + Rules(script, commands)) == []
  {
    var kinds := MarkedKinds(marker, script, commands);
    ScriptTagsAll(script, commands);
    AllGoIffTagged(script, commands, kinds);
    OutsideIsEmpty([marker] + Rules(script, commands), kinds);
  }

  /** A block that an earlier version wrote, under its own marker, is stripped as well. */
  lemma EarlierBlockGoes(lines: seq<string>, script: string, commands: seq<string>)
    requires AreLines(lines) && (forall line :: line in lines ==> !IsMarker(line)) && Contains(script, TAG)
    ensures Strip(Join(lines + ([LEGACY_MARKER] + Rules(script, commands))) + "\n") == StripNewlines(Join(lines))
  {
    var block := [LEGACY_MARKER] + Rules(script, commands);
    LegacyMarkerKind();
    forall i | 0 <= i < |commands| ensures IsLine(Rule(script, commands[i])) {
      RuleIsLine(script, commands[i]);
    }
    SplitJoined(lines + block, "");
    assert Join(lines + block) + "\n" + "" == Join(lines + block) + "\n";
    assert lines + block + SplitLines("") == lines + block;
    MarkedRulesGo(LEGACY_MARKER, script, commands);
    ForeignStays(lines, block);
    assert lines + [] == lines;
  }
}
