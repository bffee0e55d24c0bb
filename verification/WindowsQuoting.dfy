/**
 Windows command lines: the quoting of `apps/desktop/src-tauri/src/launcher.rs` against the rules by
 which the Microsoft C runtime splits a command line into arguments.

 All characters with a meaning here are ASCII, so text is a sequence of characters, not of UTF-16 units.
 */
module WindowsQuoting {
  import opened Sequences

  const BACKSLASH := '\\'
  const QUOTE := '\"'
  const SPACE := ' '
  const TAB := '\t'
  const NUL := '\0'

  /** The characters for which `char::is_whitespace` holds. */
  predicate IsWhitespace(c: char) {
    var u := c as int;
    || 0x9 <= u <= 0xD || u == 0x20 || u == 0x85 || u == 0xA0 || u == 0x1680
    || 0x2000 <= u <= 0x200A || u == 0x2028 || u == 0x2029 || u == 0x202F || u == 0x205F || u == 0x3000
  }

  function Backslashes(n: nat): string {
    if n == 0 then "" else [BACKSLASH] + Backslashes(n - 1)
  }

  /** What the loop still appends when `pending` backslashes have been read but not written. */
  function QuotedRest(s: string, pending: nat): string
    decreases |s|
  {
    if s == "" then Backslashes(2 * pending) + [QUOTE]
    else if s[0] == BACKSLASH then QuotedRest(s[1..], pending + 1)
    else if s[0] == QUOTE then Backslashes(2 * pending + 1) + [QUOTE] + QuotedRest(s[1..], 0)
    else Backslashes(pending) + [s[0]] + QuotedRest(s[1..], 0)
  }

  predicate NeedsQuotes(argument: string) {
    argument == "" || exists i :: 0 <= i < |argument| && (IsWhitespace(argument[i]) || argument[i] == QUOTE)
  }

  function Quoted(argument: string): string {
    if NeedsQuotes(argument) then [QUOTE] + QuotedRest(argument, 0) else argument
  }

  lemma {:induction false} QuotedRestIsLonger(s: string, pending: nat)
    ensures |QuotedRest(s, pending)| > |s| + pending
    decreases |s|
  {
    BackslashesLength(2 * pending);
    BackslashesLength(2 * pending + 1);
    BackslashesLength(pending);
    if s != "" {
      QuotedRestIsLonger(s[1..], if s[0] == BACKSLASH then pending + 1 else 0);
    }
  }

  lemma {:induction false} BackslashesLength(n: nat)
    ensures |Backslashes(n)| == n
  {
    if n > 0 {
      BackslashesLength(n - 1);
    }
  }

  /** The characters of the Unicode property White_Space. */
  const WHITE_SPACE: set<int> :=
    {0x9, 0xA, 0xB, 0xC, 0xD, 0x20, 0x85, 0xA0, 0x1680, 0x2000, 0x2001, 0x2002, 0x2003, 0x2004, 0x2005, 0x2006,
     0x2007, 0x2008, 0x2009, 0x200A, 0x2028, 0x2029, 0x202F, 0x205F, 0x3000}

  /** An argument is left alone exactly when it is not empty and has no white space and no quote. */
  lemma LeftAloneIff(argument: string)
    ensures Quoted(argument) == argument <==>
            argument != "" &&
            forall i :: 0 <= i < |argument| ==> argument[i] as int !in WHITE_SPACE && argument[i] != '\"'
  {
    QuotedRestIsLonger(argument, 0);
    forall i | 0 <= i < |argument| ensures IsWhitespace(argument[i]) <==> argument[i] as int in WHITE_SPACE {
      WhiteSpaceTable(argument[i]);
    }
  }

  lemma WhiteSpaceTable(c: char)
    ensures IsWhitespace(c) <==> c as int in WHITE_SPACE
  {
  }

  /** A quote is escaped: the backslashes in front of it are doubled, and one more is put before it. */
  lemma {:induction false} QuoteRule(n: nat, rest: string, pending: nat)
    ensures QuotedRest(Backslashes(n) + ([QUOTE] + rest), pending)
         == Backslashes(2 * (pending + n) + 1) + [QUOTE] + QuotedRest(rest, 0)
  {
    var s := Backslashes(n) + ([QUOTE] + rest);
    if n == 0 {
      assert s == [QUOTE] + rest && s[1..] == rest;
    } else {
      assert s[1..] == Backslashes(n - 1) + ([QUOTE] + rest);
      QuoteRule(n - 1, rest, pending + 1);
    }
  }

  /** Backslashes in front of anything else, and the character itself, are copied. */
  lemma {:induction false} CopyRule(n: nat, c: char, rest: string, pending: nat)
    requires c != BACKSLASH && c != QUOTE
    ensures QuotedRest(Backslashes(n) + ([c] + rest), pending)
         == Backslashes(pending + n) + [c] + QuotedRest(rest, 0)
  {
    var s := Backslashes(n) + ([c] + rest);
    if n == 0 {
      assert s == [c] + rest && s[1..] == rest;
    } else {
      assert s[1..] == Backslashes(n - 1) + ([c] + rest);
      CopyRule(n - 1, c, rest, pending + 1);
    }
  }

  /** Backslashes at the end are doubled, because the closing quote follows them. */
  lemma {:induction false} EndRule(n: nat, pending: nat)
    ensures QuotedRest(Backslashes(n), pending) == Backslashes(2 * (pending + n)) + [QUOTE]
  {
    if n > 0 {
      assert Backslashes(n)[1..] == Backslashes(n - 1);
      EndRule(n - 1, pending + 1);
    }
  }

  method QuoteWindowsArgument(argument: string) returns (quoted: string)
    ensures quoted == Quoted(argument)
  {
    if !NeedsQuotes(argument) {
      return argument;
    }
    quoted := [QUOTE];
    var backslashes := 0;
    for i := 0 to |argument|
      invariant backslashes >= 0
      invariant quoted + QuotedRest(argument[i..], backslashes) == [QUOTE] + QuotedRest(argument, 0)
    {
      assert argument[i..][1..] == argument[i + 1..];
      var character := argument[i];
      if character == BACKSLASH {
        backslashes := backslashes + 1;
      } else if character == QUOTE {
        quoted := quoted + Backslashes(backslashes * 2 + 1) + [QUOTE];
        backslashes := 0;
      } else {
        quoted := quoted + Backslashes(backslashes) + [character];
        backslashes := 0;
      }
    }
    quoted := quoted + Backslashes(backslashes * 2) + [QUOTE];
  }

  /** The quoted arguments joined by spaces. */
  function CommandLine(arguments: seq<string>): string {
    if arguments == [] then ""
    else if |arguments| == 1 then Quoted(arguments[0])
    else Quoted(arguments[0]) + [SPACE] + CommandLine(arguments[1..])
  }

  method JoinArguments(arguments: seq<string>) returns (parameters: string)
    ensures parameters == CommandLine(arguments)
  {
    parameters := "";
    for i := 0 to |arguments|
      invariant i == 0 ==> parameters == ""
      invariant 0 < i < |arguments| ==> parameters + [SPACE] + CommandLine(arguments[i..]) == CommandLine(arguments)
      invariant 0 < i == |arguments| ==> parameters == CommandLine(arguments)
    {
      assert arguments[i..][1..] == arguments[i + 1..];
      var quoted := QuoteWindowsArgument(arguments[i]);
      parameters := if i == 0 then quoted else parameters + [SPACE] + quoted;
    }
  }

  /** Between two groups of arguments stands one space. */
  lemma {:induction false} JoinAppend(first: seq<string>, second: seq<string>)
    requires first != [] && second != []
    ensures CommandLine(first + second) == CommandLine(first) + ([SPACE] + CommandLine(second))
    ensures |first| == 1 ==> CommandLine(first) == Quoted(first[0])
    decreases |first|
  {
    var all := first + second;
    assert all[1..] == first[1..] + second && all[0] == first[0];
    if |first| > 1 {
      JoinAppend(first[1..], second);
      var head := Quoted(first[0]) + [SPACE];
      Assoc(head, CommandLine(first[1..]), [SPACE] + CommandLine(second));
    } else {
      assert first[1..] + second == second;
      Assoc(Quoted(first[0]), [SPACE], CommandLine(second));
    }
  }

  // ----- The runtime's rules

  predicate EndsCommandLine(s: string) {
    s == "" || s[0] == NUL
  }

  predicate IsSeparator(c: char) {
    c == SPACE || c == TAB
  }

  /**
   One argument and the rest of the line, with `pending` backslashes read. Before a quote, two
   backslashes stand for one and an odd one makes the quote literal; elsewhere backslashes stand for
   themselves. A bare quote opens or closes quoting; two of them inside quotes stand for one.
   */
  function ScanArgument(s: string, inQuotes: bool, pending: nat): (result: (string, string))
    ensures |result.1| <= |s|
    ensures pending == 0 && !EndsCommandLine(s) && !IsSeparator(s[0]) ==> |result.1| < |s|
    decreases |s|
  {
    if EndsCommandLine(s) then (Backslashes(pending), s)
    else if s[0] == BACKSLASH then ScanArgument(s[1..], inQuotes, pending + 1)
    else if s[0] == QUOTE then
      if pending % 2 == 1 then Prepend(Backslashes(pending / 2) + [QUOTE], ScanArgument(s[1..], inQuotes, 0))
      else if inQuotes && |s| > 1 && s[1] == QUOTE then
        Prepend(Backslashes(pending / 2) + [QUOTE], ScanArgument(s[2..], inQuotes, 0))
      else Prepend(Backslashes(pending / 2), ScanArgument(s[1..], !inQuotes, 0))
    else if !inQuotes && IsSeparator(s[0]) then (Backslashes(pending), s)
    else Prepend(Backslashes(pending) + [s[0]], ScanArgument(s[1..], inQuotes, 0))
  }

  function Prepend(text: string, result: (string, string)): (string, string) {
    (text + result.0, result.1)
  }

  function ParseCommandLine(s: string): seq<string>
    decreases |s|
  {
    if EndsCommandLine(s) then []
    else if IsSeparator(s[0]) then ParseCommandLine(s[1..])
    else
      var (argument, rest) := ScanArgument(s, false, 0);
      [argument] + ParseCommandLine(rest)
  }

  // ----- Quoting and splitting are inverse

  predicate NulFree(s: string) {
    NUL !in s
  }

  /** The next argument's separator, or the end of the line. */
  predicate Boundary(tail: string) {
    tail == "" || tail[0] == SPACE
  }

  lemma {:induction false} BackslashesAppend(m: nat, n: nat)
    ensures Backslashes(m) + Backslashes(n) == Backslashes(m + n)
  {
    if m > 0 {
      BackslashesAppend(m - 1, n);
      assert Backslashes(m) + Backslashes(n) == [BACKSLASH] + (Backslashes(m - 1) + Backslashes(n));
    } else {
      assert Backslashes(0) + Backslashes(n) == Backslashes(n);
    }
  }

  lemma {:induction false} ScanBackslashes(n: nat, s: string, inQuotes: bool, pending: nat)
    ensures ScanArgument(Backslashes(n) + s, inQuotes, pending) == ScanArgument(s, inQuotes, pending + n)
  {
    if n == 0 {
      assert Backslashes(0) + s == s;
    } else {
      assert (Backslashes(n) + s)[1..] == Backslashes(n - 1) + s;
      ScanBackslashes(n - 1, s, inQuotes, pending + 1);
    }
  }

  lemma ClosingQuote(pending: nat, tail: string)
    requires Boundary(tail)
    ensures ScanArgument([QUOTE] + tail, true, 2 * pending) == (Backslashes(pending), tail)
  {
    ScanBoundary(tail);
    var s := [QUOTE] + tail;
    assert s[1..] == tail && (|s| > 1 ==> s[1] == SPACE);
    assert (2 * pending) % 2 == 0 && (2 * pending) / 2 == pending;
    assert ScanArgument(s, true, 2 * pending) == Prepend(Backslashes(pending), ScanArgument(tail, false, 0));
    assert Backslashes(pending) + "" == Backslashes(pending);
  }

  lemma ScanBoundary(tail: string)
    requires Boundary(tail)
    ensures ScanArgument(tail, false, 0) == ("", tail)
  {
  }

  lemma LiteralQuote(pending: nat, rest: string)
    ensures ScanArgument([QUOTE] + rest, true, 2 * pending + 1)
         == Prepend(Backslashes(pending) + [QUOTE], ScanArgument(rest, true, 0))
  {
    var s := [QUOTE] + rest;
    assert s[0] == QUOTE && s[1..] == rest;
    assert (2 * pending + 1) % 2 == 1 && (2 * pending + 1) / 2 == pending;
  }

  lemma PlainCharacter(c: char, rest: string, inQuotes: bool, pending: nat)
    requires c != BACKSLASH && c != QUOTE && c != NUL && (inQuotes || !IsSeparator(c))
    ensures ScanArgument([c] + rest, inQuotes, pending)
         == Prepend(Backslashes(pending) + [c], ScanArgument(rest, inQuotes, 0))
  {
    assert ([c] + rest)[1..] == rest;
  }

  lemma ConsBackslash(pending: nat, s: string)
    requires s != "" && s[0] == BACKSLASH
    ensures Backslashes(pending + 1) + s[1..] == Backslashes(pending) + s
  {
    BackslashesAppend(pending, 1);
    assert Backslashes(1) == [BACKSLASH];
    assert s == [BACKSLASH] + s[1..];
  }

  /** A quote after `pending` backslashes, as the loop writes it, is read back as it was. */
  lemma ScanEscapedQuote(pending: nat, rest: string, body: string, tail: string)
    requires ScanArgument(rest, true, 0) == (body, tail)
    ensures ScanArgument(Backslashes(2 * pending + 1) + ([QUOTE] + rest), true, 0)
         == (Backslashes(pending) + ([QUOTE] + body), tail)
  {
    ScanBackslashes(2 * pending + 1, [QUOTE] + rest, true, 0);
    LiteralQuote(pending, rest);
    Assoc(Backslashes(pending), [QUOTE], body);
  }

  /** So is any other character. */
  lemma ScanCopiedCharacter(c: char, pending: nat, rest: string, body: string, tail: string)
    requires c != BACKSLASH && c != QUOTE && c != NUL
    requires ScanArgument(rest, true, 0) == (body, tail)
    ensures ScanArgument(Backslashes(pending) + ([c] + rest), true, 0) == (Backslashes(pending) + ([c] + body), tail)
  {
    ScanBackslashes(pending, [c] + rest, true, 0);
    PlainCharacter(c, rest, true, pending);
    Assoc(Backslashes(pending), [c], body);
  }

  /** Inside quotes the scanner reads back the text, pending backslashes first, up to the closing quote. */
  lemma {:induction false} ScanQuoted(s: string, pending: nat, tail: string)
    requires NulFree(s) && Boundary(tail)
    ensures ScanArgument(QuotedRest(s, pending) + tail, true, 0) == (Backslashes(pending) + s, tail)
    decreases |s|
  {
    if s == "" {
      Assoc(Backslashes(2 * pending), [QUOTE], tail);
      ScanBackslashes(2 * pending, [QUOTE] + tail, true, 0);
      ClosingQuote(pending, tail);
      assert Backslashes(pending) + s == Backslashes(pending);
    } else if s[0] == BACKSLASH {
      ScanQuoted(s[1..], pending + 1, tail);
      ConsBackslash(pending, s);
    } else {
      var c, more := s[0], s[1..];
      assert s == [c] + more;
      ScanQuoted(more, 0, tail);
      assert Backslashes(0) + more == more;
      var copied := Backslashes(if c == QUOTE then 2 * pending + 1 else pending);
      Assoc(copied + [c], QuotedRest(more, 0), tail);
      Assoc(copied, [c], QuotedRest(more, 0) + tail);
      if c == QUOTE {
        ScanEscapedQuote(pending, QuotedRest(more, 0) + tail, more, tail);
      } else {
        ScanCopiedCharacter(c, pending, QuotedRest(more, 0) + tail, more, tail);
      }
    }
  }

  /** Text that needs no quotes is read back as it stands. */
  lemma {:induction false} ScanBare(s: string, pending: nat, tail: string)
    requires NulFree(s) && Boundary(tail)
    requires forall i :: 0 <= i < |s| ==> !IsWhitespace(s[i]) && s[i] != QUOTE
    ensures ScanArgument(s + tail, false, pending) == (Backslashes(pending) + s, tail)
    decreases |s|
  {
    if s == "" {
      assert s + tail == tail;
      assert Backslashes(pending) + s == Backslashes(pending);
    } else {
      var c, more := s[0], s[1..];
      assert s == [c] + more;
      Assoc([c], more, tail);
      if c == BACKSLASH {
        ScanBare(more, pending + 1, tail);
        ScanBackslashes(1, more + tail, false, pending);
        assert Backslashes(1) == [BACKSLASH];
        ConsBackslash(pending, s);
      } else {
        ScanBare(more, 0, tail);
        assert Backslashes(0) + more == more;
        PlainCharacter(c, more + tail, false, pending);
        Assoc(Backslashes(pending), [c], more);
      }
    }
  }

  lemma OpeningQuote(s: string, body: string, tail: string)
    requires ScanArgument(s, true, 0) == (body, tail)
    ensures ScanArgument([QUOTE] + s, false, 0) == (body, tail)
  {
    var line := [QUOTE] + s;
    assert line[0] == QUOTE && line[1..] == s;
    assert Backslashes(0) + body == body;
  }

  lemma ScanOne(argument: string, tail: string)
    requires NulFree(argument) && Boundary(tail)
    ensures ScanArgument(Quoted(argument) + tail, false, 0) == (argument, tail)
  {
    assert Backslashes(0) + argument == argument;
    if NeedsQuotes(argument) {
      ScanQuoted(argument, 0, tail);
      OpeningQuote(QuotedRest(argument, 0) + tail, argument, tail);
      Assoc([QUOTE], QuotedRest(argument, 0), tail);
    } else {
      ScanBare(argument, 0, tail);
    }
  }

  /** A quoted argument starts an argument, so the splitter does not skip it. */
  lemma StartsArgument(argument: string, tail: string)
    requires NulFree(argument)
    ensures var line := Quoted(argument) + tail;
            !EndsCommandLine(line) && !IsSeparator(line[0])
  {
  }

  lemma {:induction false} RoundTrip(arguments: seq<string>)
    requires forall i :: 0 <= i < |arguments| ==> NulFree(arguments[i])
    ensures ParseCommandLine(CommandLine(arguments)) == arguments
  {
    if |arguments| == 1 {
      ScanOne(arguments[0], "");
      StartsArgument(arguments[0], "");
      assert Quoted(arguments[0]) + "" == Quoted(arguments[0]);
    } else if |arguments| > 1 {
      var rest := CommandLine(arguments[1..]);
      ScanOne(arguments[0], [SPACE] + rest);
      StartsArgument(arguments[0], [SPACE] + rest);
      Assoc(Quoted(arguments[0]), [SPACE], rest);
      assert ([SPACE] + rest)[1..] == rest;
      RoundTrip(arguments[1..]);
    }
  }

  lemma {:induction false} BackslashesNulFree(n: nat)
    ensures NulFree(Backslashes(n))
  {
    if n > 0 {
      BackslashesNulFree(n - 1);
    }
  }

  lemma {:induction false} ScannedNulFree(s: string, inQuotes: bool, pending: nat)
    ensures NulFree(ScanArgument(s, inQuotes, pending).0)
    decreases |s|
  {
    BackslashesNulFree(pending);
    BackslashesNulFree(pending / 2);
    if !EndsCommandLine(s) {
      ScannedNulFree(s[1..], inQuotes, if s[0] == BACKSLASH then pending + 1 else 0);
      ScannedNulFree(s[1..], !inQuotes, 0);
      if |s| > 1 {
        ScannedNulFree(s[2..], inQuotes, 0);
      }
    }
  }

  lemma {:induction false} ParsedNulFree(s: string)
    ensures forall i :: 0 <= i < |ParseCommandLine(s)| ==> NulFree(ParseCommandLine(s)[i])
    decreases |s|
  {
    if !EndsCommandLine(s) {
      if IsSeparator(s[0]) {
        ParsedNulFree(s[1..]);
      } else {
        ScannedNulFree(s, false, 0);
        ParsedNulFree(ScanArgument(s, false, 0).1);
      }
    }
  }

  /** The started program sees exactly the given arguments if and only if none of them contains a NUL. */
  lemma RoundTripIffNulFree(arguments: seq<string>)
    ensures ParseCommandLine(CommandLine(arguments)) == arguments <==>
            forall i :: 0 <= i < |arguments| ==> NulFree(arguments[i])
  {
    if forall i :: 0 <= i < |arguments| ==> NulFree(arguments[i]) {
      RoundTrip(arguments);
    }
    ParsedNulFree(CommandLine(arguments));
  }
}
