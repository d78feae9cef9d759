/**
  What a written rule says to a reader: the reader of string literals undoes `repr`, and a
  registered block allows the script the listed commands, in order, and nothing else.
 */
module RuleReading {
  import opened Wrappers
  import opened Lines
  import opened ExecPolicy
  import opened ManagedBlock

  // ----- Reading a string literal -----

  function Digit(c: char): Option<nat> {
    if '0' <= c <= '9' then Some((c - '0') as nat)
    else if 'a' <= c <= 'f' then Some((c - 'a') as nat + 10)
    else None
  }

  /** The number that hexadecimal digits name. */
  function Number(digits: string): Option<nat> {
    if digits == "" then Some(0)
    else
      var n := |digits| - 1;
      match (Number(digits[..n]), Digit(digits[n]))
      case (Some(high), Some(low)) => Some(high * 16 + low)
      case _ => None
  }

  predicate IsCodePoint(n: int) {
    0 <= n < 0xD800 || 0xE000 <= n < 0x11_0000
  }

  /** The character of a code point written with that many digits, and the rest. */
  function ReadCode(s: string, digits: nat): Option<(char, string)> {
    if |s| < digits then None
    else
      match Number(s[..digits])
      case Some(n) => if IsCodePoint(n) then Some((n as char, s[digits..])) else None
      case None => None
  }

  /** What follows a backslash. */
  function ReadEscape(s: string): Option<(char, string)> {
    if s == "" then None
    else
      match s[0]
      case '\\' => Some(('\\', s[1..]))
      case '\'' => Some(('\'', s[1..]))
      case '"' => Some(('"', s[1..]))
      case 'n' => Some(('\n', s[1..]))
      case 'r' => Some(('\r', s[1..]))
      case 't' => Some(('\t', s[1..]))
      case 'x' => ReadCode(s[1..], 2)
      case 'u' => ReadCode(s[1..], 4)
      case 'U' => ReadCode(s[1..], 8)
      case _ => None
  }

  function ReadCharacter(s: string): Option<(char, string)>
    requires s != ""
  {
    if s[0] == '\\' then ReadEscape(s[1..]) else if s[0] == '\n' then None else Some((s[0], s[1..]))
  }

  /** The characters up to the closing quote, and what follows it. */
  function ReadBody(s: string, q: char): Option<(string, string)>
    decreases |s|
  {
    if s == "" then None
    else if s[0] == q then Some(("", s[1..]))
    else
      match ReadCharacter(s)
      case None => None
      case Some((c, rest)) =>
        if |rest| >= |s| then None
        else
          match ReadBody(rest, q)
          case None => None
          case Some((more, after)) => Some(([c] + more, after))
  }

  function ReadLiteral(s: string): Option<(string, string)> {
    if s == "" || (s[0] != '\'' && s[0] != '"') then None else ReadBody(s[1..], s[0])
  }

  // ----- The reader undoes `repr` -----

  function Power16(digits: nat): nat {
    if digits == 0 then 1 else 16 * Power16(digits - 1)
  }

  lemma HexDigit(d: nat)
    requires d < 16
    ensures Digit(if d < 10 then '0' + d as char else 'a' + (d - 10) as char) == Some(d)
  {
  }

  lemma {:induction false} NumberOfHex(n: nat, digits: nat)
    requires n < Power16(digits)
    ensures |Hex(n, digits)| == digits && Number(Hex(n, digits)) == Some(n)
  {
    if digits > 0 {
      NumberOfHex(n / 16, digits - 1);
      HexDigit(n % 16);
      assert Hex(n, digits)[..digits - 1] == Hex(n / 16, digits - 1);
    }
  }

  lemma CodeIsRead(c: char, digits: nat, rest: string)
    requires (c as int) < Power16(digits)
    ensures ReadCode(Hex(c as int, digits) + rest, digits) == Some((c, rest))
  {
    NumberOfHex(c as int, digits);
    var s := Hex(c as int, digits) + rest;
    assert s[..digits] == Hex(c as int, digits) && s[digits..] == rest;
  }

  lemma Powers()
    ensures Power16(2) == 0x100 && Power16(4) == 0x1_0000 && Power16(8) == 0x1_0000_0000
  {
    assert Power16(3) == 0x1000 && Power16(5) == 0x10_0000 && Power16(6) == 0x100_0000 && Power16(7) == 0x1000_0000;
  }

  lemma EscapeIsRead(letter: char, digits: nat, c: char, rest: string)
    requires (letter == 'x' && digits == 2) || (letter == 'u' && digits == 4) || (letter == 'U' && digits == 8)
    requires (c as int) < Power16(digits)
    ensures ReadCharacter(['\\', letter] + Hex(c as int, digits) + rest) == Some((c, rest))
  {
    CodeIsRead(c, digits, rest);
    var s := ['\\', letter] + Hex(c as int, digits) + rest;
    assert s[1..][1..] == Hex(c as int, digits) + rest;
  }

  lemma CharacterIsRead(c: char, q: char, rest: string)
    requires q == '\'' || q == '"'
    ensures Escape(c, q) != "" && Escape(c, q)[0] != q
    ensures ReadCharacter(Escape(c, q) + rest) == Some((c, rest))
  {
    Powers();
    if c == '\\' || c == q || c == '\n' || c == '\r' || c == '\t' || IsPrintable(c) {
      var s := Escape(c, q) + rest;
      assert |Escape(c, q)| == 2 ==> s[1..][1..] == rest;
      assert |Escape(c, q)| == 1 ==> s[1..] == rest;
    } else if c as int < 0x100 {
      EscapeIsRead('x', 2, c, rest);
    } else if c as int < 0x10000 {
      EscapeIsRead('u', 4, c, rest);
    } else {
      EscapeIsRead('U', 8, c, rest);
    }
  }

  lemma CharacterThenBody(first: string, more: string, c: char, tail: string, q: char, rest: string)
    requires first != "" && first[0] != q
    requires ReadCharacter(first + more) == Some((c, more)) && ReadBody(more, q) == Some((tail, rest))
    ensures ReadBody(first + more, q) == Some(([c] + tail, rest))
  {
  }

  lemma Rebracket(a: string, b: string, c: string, d: string)
    ensures a + b + c + d == a + (b + c + d)
  {
  }

  lemma {:induction false} BodyIsRead(s: string, q: char, rest: string)
    requires q == '\'' || q == '"'
    ensures ReadBody(EscapeAll(s, q) + [q] + rest, q) == Some((s, rest))
  {
    if s == "" {
      assert EscapeAll(s, q) + [q] + rest == [q] + rest;
      assert ([q] + rest)[1..] == rest;
    } else {
      BodyIsRead(s[1..], q, rest);
      var more := EscapeAll(s[1..], q) + [q] + rest;
      CharacterIsRead(s[0], q, more);
      CharacterThenBody(Escape(s[0], q), more, s[0], s[1..], q, rest);
      Rebracket(Escape(s[0], q), EscapeAll(s[1..], q), [q], rest);
      assert [s[0]] + s[1..] == s;
    }
  }

  lemma QuoteThenBody(q: char, body: string, s: string, rest: string)
    requires (q == '\'' || q == '"') && ReadBody(body, q) == Some((s, rest))
    ensures ReadLiteral([q] + body) == Some((s, rest))
  {
    assert ([q] + body)[1..] == body;
  }

  /** Whatever the string, its literal is read back, and the reader stops where the literal ends. */
  lemma LiteralRoundTrip(s: string, rest: string)
    ensures ReadLiteral(Repr(s) + rest) == Some((s, rest))
  {
    var q := QuoteFor(s);
    BodyIsRead(s, q, rest);
    QuoteThenBody(q, EscapeAll(s, q) + [q] + rest, s, rest);
    Rebracket([q], EscapeAll(s, q), [q], rest);
  }

  /** Characters of ASCII that need no escape between the quotes. */
  ghost predicate NeedsNoEscape(s: string, q: char) {
    forall c :: c in s ==> ' ' <= c <= '~' && c != '\\' && c != q
  }

  lemma {:induction false} PlainIsKept(s: string, q: char)
    requires (q == '\'' || q == '"') && NeedsNoEscape(s, q)
    ensures EscapeAll(s, q) == s
  {
    if s != "" {
      assert s[0] in s && forall c :: c in s[1..] ==> c in s;
      PlainIsKept(s[1..], q);
      assert [s[0]] + s[1..] == s;
    }
  }

  /** Text without a backslash is written as it is, between double quotes if only single ones are in it. */
  lemma PlainLiteral(s: string)
    ensures NeedsNoEscape(s, '\'') ==> Repr(s) == "'" + s + "'"
    ensures NeedsNoEscape(s, '"') && '\'' in s ==> Repr(s) == "\"" + s + "\""
  {
    if NeedsNoEscape(s, '\'') {
      PlainIsKept(s, '\'');
    }
    if NeedsNoEscape(s, '"') {
      PlainIsKept(s, '"');
    }
  }

  // ----- Reading a rule -----

  function After(s: string, prefix: string): Option<string> {
    if prefix <= s then Some(s[|prefix|..]) else None
  }

  /** Two literals between the three fixed parts of a rule, and nothing more. */
  function ReadPair(s: string, opening: string, comma: string, closing: string): Option<(string, string)> {
    match After(s, opening)
    case None => None
    case Some(first) =>
      match ReadLiteral(first)
      case None => None
      case Some((script, gap)) =>
        match After(gap, comma)
        case None => None
        case Some(second) =>
          match ReadLiteral(second)
          case None => None
          case Some((command, end)) => if end == closing then Some((script, command)) else None
  }

  /** The script and the command that a line allows. */
  function ReadRule(line: string): Option<(string, string)> {
    ReadPair(line, "prefix_rule(pattern=[", ", ", "], decision=\"allow\")")
  }

  lemma AfterPrefix(prefix: string, rest: string)
    ensures After(prefix + rest, prefix) == Some(rest)
  {
  }

  lemma PartsRegrouped(a: string, b: string, c: string, d: string, e: string)
    ensures a + b + c + d + e == a + (b + (c + (d + e)))
  {
  }

  lemma PairRead(first: string, script: string, second: string, command: string, opening: string, comma: string,
    closing: string)
    requires ReadLiteral(first) == Some((script, comma + second)) && ReadLiteral(second) == Some((command, closing))
    ensures ReadPair(opening + first, opening, comma, closing) == Some((script, command))
  {
    AfterPrefix(opening, first);
    AfterPrefix(comma, second);
  }

  lemma PairRoundTrip(script: string, command: string, opening: string, comma: string, closing: string)
    ensures ReadPair(opening + Repr(script) + comma + Repr(command) + closing, opening, comma, closing) ==
      Some((script, command))
  {
    var second := Repr(command) + closing;
    LiteralRoundTrip(script, comma + second);
    LiteralRoundTrip(command, closing);
    PairRead(Repr(script) + (comma + second), script, second, command, opening, comma, closing);
    PartsRegrouped(opening, Repr(script), comma, Repr(command), closing);
  }

  /** A written rule allows this script this command, whatever characters they hold. */
  lemma RuleRoundTrip(script: string, command: string)
    ensures ReadRule(Rule(script, command)) == Some((script, command))
  {
    PairRoundTrip(script, command, PATTERN, ", ", ALLOW);
    assert PATTERN == "prefix_rule(pattern=[" && ALLOW == "], decision=\"allow\")";
  }

  /** What a line allows, if anything. */
  function AllowedBy(line: string): seq<(string, string)> {
    match ReadRule(line)
    case None => []
    case Some(pair) => [pair]
  }

  function Flat<T>(parts: seq<seq<T>>): seq<T> {
    if parts == [] then [] else Flat(parts[..|parts| - 1]) + parts[|parts| - 1]
  }

  lemma {:induction false} FlatAppends<T>(a: seq<seq<T>>, b: seq<seq<T>>)
    ensures Flat(a + b) == Flat(a) + Flat(b)
  {
    if b == [] {
      assert a + b == a;
    } else {
      FlatAppends(a, b[..|b| - 1]);
      assert (a + b)[..|a + b| - 1] == a + b[..|b| - 1];
    }
  }

  lemma {:induction false} FlatSingles<T>(parts: seq<seq<T>>, items: seq<T>)
    requires |parts| == |items| && forall i :: 0 <= i < |parts| ==> parts[i] == [items[i]]
    ensures Flat(parts) == items
  {
    if parts != [] {
      FlatSingles(parts[..|parts| - 1], items[..|items| - 1]);
      assert items == items[..|items| - 1] + [items[|items| - 1]];
    }
  }

  lemma FlatOne<T>(part: seq<T>)
    ensures Flat([part]) == part
  {
    assert [part][..0] == [];
  }

  function ByLine(lines: seq<string>): (r: seq<seq<(string, string)>>)
    ensures |r| == |lines| && forall i :: 0 <= i < |r| ==> r[i] == AllowedBy(lines[i])
  {
    seq(|lines|, i requires 0 <= i < |lines| => AllowedBy(lines[i]))
  }

  /** What a file allows, line by line. */
  function Allowed(lines: seq<string>): seq<(string, string)> {
    Flat(ByLine(lines))
  }

  lemma AllowedAppends(a: seq<string>, b: seq<string>)
    ensures Allowed(a + b) == Allowed(a) + Allowed(b)
  {
    assert ByLine(a + b) == ByLine(a) + ByLine(b);
    FlatAppends(ByLine(a), ByLine(b));
  }

  function Pairs(script: string, commands: seq<string>): seq<(string, string)> {
    seq(|commands|, i requires 0 <= i < |commands| => (script, commands[i]))
  }

  lemma RuleAllows(script: string, command: string)
    ensures AllowedBy(Rule(script, command)) == [(script, command)]
  {
    RuleRoundTrip(script, command);
  }

  lemma RulesAllow(script: string, commands: seq<string>)
    ensures Allowed(Rules(script, commands)) == Pairs(script, commands)
  {
    forall i | 0 <= i < |commands|
      ensures ByLine(Rules(script, commands))[i] == [Pairs(script, commands)[i]]
    {
      RuleAllows(script, commands[i]);
    }
    FlatSingles(ByLine(Rules(script, commands)), Pairs(script, commands));
  }

  lemma OtherLineAllowsNothing(line: string)
    requires line == "" || line[0] != 'p'
    ensures Allowed([line]) == []
  {
    assert After(line, "prefix_rule(pattern=[").None?;
    assert AllowedBy(line) == [];
    assert ByLine([line]) == [[]];
    FlatOne<(string, string)>([]);
  }

  lemma MarkerAllowsNothing()
    ensures Allowed([MARKER]) == []
  {
    MarkersStart();
    OtherLineAllowsNothing(MARKER);
  }

  lemma SplitOfStripped(text: string)
    ensures SplitLines(Strip(text)) == Left(text)
  {
    LeftLines(text);
    if Left(text) != [] {
      SplitWithoutEnd(Left(text));
    }
  }

  lemma EmptyLineAllowsNothing(lines: seq<string>)
    ensures Allowed(lines + [""]) == Allowed(lines)
  {
    AllowedAppends(lines, [""]);
    OtherLineAllowsNothing("");
  }

  lemma LeadAllows(text: string)
    ensures Allowed(ManagedBlock.Lead(text)) == Allowed(Left(text))
  {
    EmptyLineAllowsNothing(Left(text));
  }

  lemma BlockAllows(script: string, commands: seq<string>)
    ensures Allowed(Block(script, commands)) == Pairs(script, commands)
  {
    AllowedAppends([MARKER], Rules(script, commands));
    MarkerAllowsNothing();
    RulesAllow(script, commands);
  }

  /**
    After a registration the file allows what its own lines outside the managed blocks
    allowed, and the script each listed command, in order; nothing else.
   */
  lemma RegistrationAllows(text: string, script: string, commands: seq<string>)
    ensures Allowed(SplitLines(Registered(text, script, commands))) ==
      Allowed(SplitLines(Strip(text))) + Pairs(script, commands)
  {
    RegisteredLines(text, script, commands);
    AllowedAppends(ManagedBlock.Lead(text), Block(script, commands));
    BlockAllows(script, commands);
    LeadAllows(text);
    SplitOfStripped(text);
  }
}
