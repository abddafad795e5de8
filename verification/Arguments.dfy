/** Quoting argument lists for a Windows command line (model/action.rs), against the parser that will
    split it again: the backslash-and-quote state machine of CommandLineToArgvW and the C runtime. */
module Arguments {
  import opened Text

  // ---- the parser ---------------------------------------------------------------------------

  /** What a doubled quote inside quotes means; the parsers in use differ here and nowhere else. */
  datatype DoubledQuote = Plain | LiteralInside | LiteralLeaving

  predicate IsDelimiter(c: char) { c == ' ' || c == '\t' }

  function Slashes(n: nat): string { seq(n, i => '\\') }

  /** One argument from here on, and the text after it; `slashes` backslashes have been read and not yet
      decided: before a quote two of them stand for one, elsewhere each stands for itself. */
  function ParseArgument(text: string, slashes: nat, quoted: bool, rule: DoubledQuote): (r: (string, string))
    ensures |r.1| <= |text|
    ensures text != "" && (quoted || !IsDelimiter(text[0])) ==> |r.1| < |text|
  {
    if text == "" then (Slashes(slashes), "")
    else if text[0] == '\\' then ParseArgument(text[1..], slashes + 1, quoted, rule)
    else if text[0] == '"' then
      if slashes % 2 == 1 then Before(Slashes(slashes / 2) + "\"", ParseArgument(text[1..], 0, quoted, rule))
      else if quoted && !rule.Plain? && |text| > 1 && text[1] == '"' then
        Before(Slashes(slashes / 2) + "\"", ParseArgument(text[2..], 0, rule.LiteralInside?, rule))
      else Before(Slashes(slashes / 2), ParseArgument(text[1..], 0, !quoted, rule))
    else if IsDelimiter(text[0]) && !quoted then (Slashes(slashes), text)
    else Before(Slashes(slashes) + [text[0]], ParseArgument(text[1..], 0, quoted, rule))
  }

  function Before(head: string, parsed: (string, string)): (r: (string, string))
    ensures r.1 == parsed.1
  {
    (head + parsed.0, parsed.1)
  }

  /** The argument list of a command-line tail. */
  function ParseArguments(text: string, rule: DoubledQuote): seq<string>
    decreases |text|
  {
    if text == "" then []
    else if IsDelimiter(text[0]) then ParseArguments(text[1..], rule)
    else
      var (argument, rest) := ParseArgument(text, 0, false, rule);
      [argument] + ParseArguments(rest, rule)
  }

  /** Blanks and tabs end an argument that is not quoted, and no other character does. */
  lemma SeparatorsExactly(c: char, rest: string, rule: DoubledQuote)
    requires c != '\\' && c != '"'
    ensures ParseArgument([c] + rest, 0, false, rule) == ("", [c] + rest) <==> c in " \t"
  {
    assert ([c] + rest)[1..] == rest;
    assert c in " \t" <==> c == ' ' || c == '\t';
  }

  /** Two quotes inside quotes: nothing, a quote that leaves the argument quoted, or one that does not. */
  lemma DoubledQuoteReads(rest: string, rule: DoubledQuote)
    ensures ParseArgument("\"\"" + rest, 0, true, rule)
            == match rule
               case Plain => ParseArgument(rest, 0, true, rule)
               case LiteralInside => Before("\"", ParseArgument(rest, 0, true, rule))
               case LiteralLeaving => Before("\"", ParseArgument(rest, 0, false, rule))
  {
    var text := "\"\"" + rest;
    assert text[2..] == rest && text[1..] == "\"" + rest && ("\"" + rest)[1..] == rest;
    assert Slashes(0) + "\"" == "\"";
    Unchanged(ParseArgument(rest, 0, true, rule));
  }

  lemma Unchanged(parsed: (string, string))
    ensures Before(Slashes(0), parsed) == parsed
  {
    assert Slashes(0) + parsed.0 == parsed.0;
  }

  // ---- the printer ---------------------------------------------------------------------------

  /** char::is_ascii_whitespace. */
  predicate IsAsciiWhitespace(c: char) { c == ' ' || c == '\t' || c == '\n' || c == '\U{000C}' || c == '\r' }

  predicate StaysPlain(argument: string) {
    argument != "" && forall c <- argument :: !IsAsciiWhitespace(c) && c != '"'
  }

  /** What follows the opening quote when `slashes` backslashes are pending. */
  function QuotedBody(argument: string, slashes: nat): string {
    if argument == "" then Slashes(2 * slashes) + "\""
    else if argument[0] == '\\' then QuotedBody(argument[1..], slashes + 1)
    else if argument[0] == '"' then Slashes(2 * slashes + 1) + "\"" + QuotedBody(argument[1..], 0)
    else Slashes(slashes) + [argument[0]] + QuotedBody(argument[1..], 0)
  }

  function Quoted(argument: string): string {
    if StaysPlain(argument) then argument else "\"" + QuotedBody(argument, 0)
  }

  /** quote_windows_argument. */
  method QuoteWindowsArgument(argument: string) returns (quoted: string)
    ensures quoted == Quoted(argument)
  {
    if StaysPlain(argument) {
      return argument;
    }
    quoted := "\"";
    var backslashes := 0;
    for i := 0 to |argument|
      invariant quoted + QuotedBody(argument[i..], backslashes) == "\"" + QuotedBody(argument, 0)
    {
      var character := argument[i];
      assert argument[i..][1..] == argument[i + 1..];
      if character == '\\' {
        backslashes := backslashes + 1;
      } else {
        if character == '"' {
          quoted := quoted + Slashes(backslashes * 2 + 1) + "\"";
        } else {
          quoted := quoted + Slashes(backslashes) + [character];
        }
        backslashes := 0;
      }
    }
    quoted := quoted + Slashes(backslashes * 2) + "\"";
  }

  /** Quotes are put around an argument only where they are needed. */
  lemma QuotedExactly(argument: string)
    ensures Quoted(argument) == argument <==> argument != "" && forall c <- argument :: c !in " \t\n\U{C}\r\""
  {
    assert forall c :: c in " \t\n\U{C}\r\"" <==> IsAsciiWhitespace(c) || c == '"';
    QuotesAreLonger(argument, 0);
  }

  lemma {:induction false} QuotesAreLonger(argument: string, slashes: nat)
    ensures |QuotedBody(argument, slashes)| > slashes + |argument|
    decreases |argument|
  {
    if argument != "" {
      QuotesAreLonger(argument[1..], if argument[0] == '\\' then slashes + 1 else 0);
    }
  }

  function QuotedAll(arguments: seq<string>): seq<string> {
    seq(|arguments|, i requires 0 <= i < |arguments| => Quoted(arguments[i]))
  }

  /** ExecAction::args. */
  function Tail(arguments: seq<string>): string { Join(QuotedAll(arguments), ' ') }

  // ---- the round trip ---------------------------------------------------------------------------

  /** What may follow an argument. */
  predicate Ends(rest: string) { rest == "" || IsDelimiter(rest[0]) }

  lemma {:induction false} SlashesAreCounted(n: nat, rest: string, slashes: nat, quoted: bool, rule: DoubledQuote)
    ensures ParseArgument(Slashes(n) + rest, slashes, quoted, rule) == ParseArgument(rest, slashes + n, quoted, rule)
  {
    if n == 0 {
      assert Slashes(0) + rest == rest;
    } else {
      assert (Slashes(n) + rest)[1..] == Slashes(n - 1) + rest;
      SlashesAreCounted(n - 1, rest, slashes + 1, quoted, rule);
    }
  }

  lemma ClosingQuoteParses(slashes: nat, rest: string, rule: DoubledQuote)
    requires Ends(rest)
    ensures ParseArgument("\"" + rest, 2 * slashes, true, rule) == (Slashes(slashes), rest)
  {
    assert ("\"" + rest)[1..] == rest;
    assert Slashes(slashes) + Slashes(0) == Slashes(slashes);
  }

  lemma InnerQuoteParses(slashes: nat, rest: string, rule: DoubledQuote)
    ensures ParseArgument("\"" + rest, 2 * slashes + 1, true, rule)
            == Before(Slashes(slashes) + "\"", ParseArgument(rest, 0, true, rule))
  {
    assert ("\"" + rest)[1..] == rest;
  }

  lemma InnerCharacterParses(c: char, slashes: nat, rest: string, rule: DoubledQuote)
    requires c != '\\' && c != '"'
    ensures ParseArgument([c] + rest, slashes, true, rule)
            == Before(Slashes(slashes) + [c], ParseArgument(rest, 0, true, rule))
  {
    assert ([c] + rest)[1..] == rest;
  }

  lemma QuoteBody(tail: string, slashes: nat, rest: string)
    ensures QuotedBody("\"" + tail, slashes) + rest
            == Slashes(2 * slashes + 1) + ("\"" + (QuotedBody(tail, 0) + rest))
  {
    assert ("\"" + tail)[1..] == tail;
  }

  lemma CharacterBody(c: char, tail: string, slashes: nat, rest: string)
    requires c != '\\' && c != '"'
    ensures QuotedBody([c] + tail, slashes) + rest == Slashes(slashes) + ([c] + (QuotedBody(tail, 0) + rest))
  {
    assert ([c] + tail)[1..] == tail;
    var body := QuotedBody(tail, 0);
    assert QuotedBody([c] + tail, slashes) == Slashes(slashes) + [c] + body;
    hide QuotedBody;
    assert Slashes(slashes) + [c] + body + rest == Slashes(slashes) + ([c] + (body + rest));
  }

  lemma QuoteStep(tail: string, slashes: nat, rest: string, rule: DoubledQuote)
    requires ParseArgument(QuotedBody(tail, 0) + rest, 0, true, rule) == (Slashes(0) + tail, rest)
    ensures ParseArgument(QuotedBody("\"" + tail, slashes) + rest, 0, true, rule) == (Slashes(slashes) + ("\"" + tail), rest)
  {
    hide ParseArgument, QuotedBody;
    var after := QuotedBody(tail, 0) + rest;
    QuoteBody(tail, slashes, rest);
    SlashesAreCounted(2 * slashes + 1, "\"" + after, 0, true, rule);
    InnerQuoteParses(slashes, after, rule);
    assert Slashes(slashes) + "\"" + (Slashes(0) + tail) == Slashes(slashes) + ("\"" + tail);
  }

  lemma CharacterStep(c: char, tail: string, slashes: nat, rest: string, rule: DoubledQuote)
    requires c != '\\' && c != '"'
    requires ParseArgument(QuotedBody(tail, 0) + rest, 0, true, rule) == (Slashes(0) + tail, rest)
    ensures ParseArgument(QuotedBody([c] + tail, slashes) + rest, 0, true, rule) == (Slashes(slashes) + ([c] + tail), rest)
  {
    hide ParseArgument, QuotedBody;
    var after := QuotedBody(tail, 0) + rest;
    CharacterBody(c, tail, slashes, rest);
    SlashesAreCounted(slashes, [c] + after, 0, true, rule);
    InnerCharacterParses(c, slashes, after, rule);
    assert Slashes(slashes) + [c] + (Slashes(0) + tail) == Slashes(slashes) + ([c] + tail);
  }

  lemma EndStep(slashes: nat, rest: string, rule: DoubledQuote)
    requires Ends(rest)
    ensures ParseArgument(QuotedBody("", slashes) + rest, 0, true, rule) == (Slashes(slashes) + "", rest)
  {
    hide ParseArgument;
    assert QuotedBody("", slashes) + rest == Slashes(2 * slashes) + ("\"" + rest);
    SlashesAreCounted(2 * slashes, "\"" + rest, 0, true, rule);
    ClosingQuoteParses(slashes, rest, rule);
    assert Slashes(slashes) + "" == Slashes(slashes);
  }

  lemma {:induction false} BodyParses(argument: string, slashes: nat, rest: string, rule: DoubledQuote)
    requires Ends(rest)
    ensures ParseArgument(QuotedBody(argument, slashes) + rest, 0, true, rule) == (Slashes(slashes) + argument, rest)
    decreases |argument|
  {
    hide ParseArgument;
    if argument == "" {
      EndStep(slashes, rest, rule);
    } else {
      var c, tail := argument[0], argument[1..];
      assert argument == [c] + tail;
      if c == '\\' {
        BodyParses(tail, slashes + 1, rest, rule);
        assert Slashes(slashes + 1) + tail == Slashes(slashes) + argument;
      } else {
        BodyParses(tail, 0, rest, rule);
        if c == '"' {
          QuoteStep(tail, slashes, rest, rule);
        } else {
          CharacterStep(c, tail, slashes, rest, rule);
        }
      }
    }
  }

  lemma {:induction false} PlainParses(argument: string, slashes: nat, rest: string, rule: DoubledQuote)
    requires Ends(rest) && forall c <- argument :: !IsAsciiWhitespace(c) && c != '"'
    ensures ParseArgument(argument + rest, slashes, false, rule) == (Slashes(slashes) + argument, rest)
    decreases |argument|
  {
    if argument == "" {
      assert argument + rest == rest;
      assert Slashes(slashes) + argument == Slashes(slashes);
    } else {
      var tail := argument[1..];
      assert (argument + rest)[1..] == tail + rest;
      assert argument[0] in argument;
      if argument[0] == '\\' {
        PlainParses(tail, slashes + 1, rest, rule);
        assert Slashes(slashes + 1) + tail == Slashes(slashes) + argument;
      } else {
        PlainParses(tail, 0, rest, rule);
        assert Slashes(slashes) + [argument[0]] + (Slashes(0) + tail) == Slashes(slashes) + argument;
      }
    }
  }

  /** A quoted argument is read back as itself, whatever backslashes and quotes it holds. */
  lemma QuotedArgumentParses(argument: string, rest: string, rule: DoubledQuote)
    requires Ends(rest)
    ensures Quoted(argument) != "" && !IsDelimiter(Quoted(argument)[0])
    ensures ParseArgument(Quoted(argument) + rest, 0, false, rule) == (argument, rest)
  {
    if StaysPlain(argument) {
      PlainParses(argument, 0, rest, rule);
      assert argument[0] in argument;
      assert Slashes(0) + argument == argument;
    } else {
      BodyParses(argument, 0, rest, rule);
      var body := QuotedBody(argument, 0) + rest;
      assert Quoted(argument) + rest == "\"" + body;
      assert ("\"" + body)[1..] == body;
      assert Slashes(0) + (Slashes(0) + argument) == argument;
    }
  }

  /** The round trip: for every argument list and every reading of doubled quotes, splitting the
      command-line tail gives the list back. */
  lemma {:induction false} ArgumentsRoundTrip(arguments: seq<string>, rule: DoubledQuote)
    ensures ParseArguments(Tail(arguments), rule) == arguments
  {
    hide ParseArgument, Quoted;
    if arguments != [] {
      var first, others := arguments[0], arguments[1..];
      ArgumentsRoundTrip(others, rule);
      assert QuotedAll(arguments) == [Quoted(first)] + QuotedAll(others);
      assert QuotedAll(arguments)[1..] == QuotedAll(others);
      if others == [] {
        QuotedArgumentParses(first, "", rule);
        assert Quoted(first) + "" == Quoted(first);
      } else {
        var rest := " " + Tail(others);
        QuotedArgumentParses(first, rest, rule);
        assert Tail(arguments) == Quoted(first) + rest;
        assert rest[1..] == Tail(others);
      }
    }
  }
}
