/** Windows command-line quoting, and the parsing rules it has to survive. */
module WindowsCommandLine {

  function Slashes(n: nat): string {
    seq(n, _ => '\\')
  }

  predicate Blank(c: char) {
    c == ' ' || c == '\t'
  }

  // ----- Quoting -----

  predicate NeedsQuotes(argument: string) {
    argument == "" || ' ' in argument || '\t' in argument || '"' in argument
  }

  /** The rest of a quoted argument, with `pending` backslashes read and not yet written. */
  function Escape(text: string, pending: nat): string
    decreases text
  {
    if text == "" then Slashes(2 * pending) + "\""
    else if text[0] == '\\' then Escape(text[1..], pending + 1)
    else if text[0] == '"' then Slashes(2 * pending + 1) + "\"" + Escape(text[1..], 0)
    else Slashes(pending) + [text[0]] + Escape(text[1..], 0)
  }

  function Quoted(argument: string): string {
    if NeedsQuotes(argument) then "\"" + Escape(argument, 0) else argument
  }

  function Joined(arguments: seq<string>): string {
    if arguments == [] then ""
    else if |arguments| == 1 then Quoted(arguments[0])
    else Quoted(arguments[0]) + " " + Joined(arguments[1..])
  }

  method QuoteArgument(argument: string) returns (output: string)
    ensures output == Quoted(argument)
  {
    if argument != "" && ' ' !in argument && '\t' !in argument && '"' !in argument {
      return argument;
    }
    output := "\"";
    var backslashes := 0;
    for i := 0 to |argument|
      invariant "\"" + Escape(argument, 0) == output + Escape(argument[i..], backslashes)
    {
      assert argument[i..][1..] == argument[i + 1..];
      match argument[i] {
        case '\\' =>
          backslashes := backslashes + 1;
        case '"' =>
          output := output + Slashes(backslashes * 2 + 1);
          output := output + "\"";
          backslashes := 0;
        case _ =>
          output := output + Slashes(backslashes);
          output := output + [argument[i]];
          backslashes := 0;
      }
    }
    output := output + Slashes(backslashes * 2);
    output := output + "\"";
  }

  method CommandLine(arguments: seq<string>) returns (line: string)
    ensures line == Joined(arguments)
  {
    line := "";
    for i := 0 to |arguments|
      invariant i == 0 ==> line == ""
      invariant i == |arguments| > 0 ==> line == Joined(arguments)
      invariant 0 < i < |arguments| ==> Joined(arguments) == line + " " + Joined(arguments[i..])
    {
      var argument := QuoteArgument(arguments[i]);
      assert arguments[i..][1..] == arguments[i + 1..];
      assert i == 0 ==> arguments[i..] == arguments;
      line := if i == 0 then argument else line + " " + argument;
    }
  }

  // ----- Parsing, by the documented rules -----

  /** Reads one argument. `pending` backslashes have been read: a quote after an even number of them opens or
      closes quoting and keeps half of them; after an odd number it is literal; otherwise they are literal. */
  function ReadArgument(text: string, quoting: bool, pending: nat, argument: string): (string, string)
    decreases text
  {
    if text == "" then (argument + Slashes(pending), "")
    else if text[0] == '\\' then ReadArgument(text[1..], quoting, pending + 1, argument)
    else if text[0] == '"' then
      if pending % 2 == 0 then ReadArgument(text[1..], !quoting, 0, argument + Slashes(pending / 2))
      else ReadArgument(text[1..], quoting, 0, argument + Slashes(pending / 2) + "\"")
    else if Blank(text[0]) && !quoting then (argument + Slashes(pending), text)
    else ReadArgument(text[1..], quoting, 0, argument + Slashes(pending) + [text[0]])
  }

  lemma ReadArgumentConsumes(text: string, quoting: bool, pending: nat, argument: string)
    ensures |ReadArgument(text, quoting, pending, argument).1| <= |text|
    ensures text != "" && !Blank(text[0]) ==> |ReadArgument(text, quoting, pending, argument).1| < |text|
    decreases text
  {
  }

  function Parse(text: string): seq<string>
    decreases |text|
  {
    if text == "" then []
    else if Blank(text[0]) then Parse(text[1..])
    else
      ReadArgumentConsumes(text, false, 0, "");
      var (argument, rest) := ReadArgument(text, false, 0, "");
      [argument] + Parse(rest)
  }

  // ----- Round trip -----

  /** What may follow an argument on the line. */
  predicate Separated(rest: string) {
    rest == "" || Blank(rest[0])
  }

  lemma SlashesAdd(m: nat, n: nat)
    ensures Slashes(m) + Slashes(n) == Slashes(m + n)
  {
  }

  lemma {:induction false} ReadSlashes(n: nat, rest: string, quoting: bool, pending: nat, argument: string)
    ensures ReadArgument(Slashes(n) + rest, quoting, pending, argument)
      == ReadArgument(rest, quoting, pending + n, argument)
  {
    if n == 0 {
      assert Slashes(0) + rest == rest;
    } else {
      var text := Slashes(n) + rest;
      assert text[0] == '\\';
      assert text[1..] == Slashes(n - 1) + rest;
      ReadSlashes(n - 1, rest, quoting, pending + 1, argument);
    }
  }

  /** Twice as many backslashes before a quote come out as that many, and the quote switches quoting. */
  lemma ReadSwitch(n: nat, rest: string, quoting: bool, argument: string)
    ensures ReadArgument(Slashes(2 * n) + ("\"" + rest), quoting, 0, argument) ==
            ReadArgument(rest, !quoting, 0, argument + Slashes(n))
  {
    ReadSlashes(2 * n, "\"" + rest, quoting, 0, argument);
    assert ("\"" + rest)[1..] == rest;
  }

  /** One more backslash makes the quote a literal one. */
  lemma ReadLiteralQuote(n: nat, rest: string, quoting: bool, argument: string)
    ensures ReadArgument(Slashes(2 * n + 1) + ("\"" + rest), quoting, 0, argument) ==
            ReadArgument(rest, quoting, 0, argument + Slashes(n) + "\"")
  {
    ReadSlashes(2 * n + 1, "\"" + rest, quoting, 0, argument);
    assert ("\"" + rest)[1..] == rest;
  }

  /** Backslashes before any other character are literal. */
  lemma ReadOther(n: nat, c: char, rest: string, argument: string)
    requires c != '"' && c != '\\'
    ensures ReadArgument(Slashes(n) + ([c] + rest), true, 0, argument) ==
            ReadArgument(rest, true, 0, argument + Slashes(n) + [c])
  {
    ReadSlashes(n, [c] + rest, true, 0, argument);
    assert ([c] + rest)[1..] == rest;
  }

  lemma ReadEnd(argument: string, rest: string)
    requires Separated(rest)
    ensures ReadArgument(rest, false, 0, argument) == (argument, rest)
  {
    assert argument + Slashes(0) == argument;
  }

  lemma {:induction false} ReadEscaped(text: string, pending: nat, argument: string, rest: string)
    requires Separated(rest)
    ensures ReadArgument(Escape(text, pending) + rest, true, 0, argument) == (argument + Slashes(pending) + text, rest)
    decreases text
  {
    hide ReadArgument;
    if text == "" {
      assert Escape(text, pending) + rest == Slashes(2 * pending) + ("\"" + rest);
      ReadSwitch(pending, rest, true, argument);
      ReadEnd(argument + Slashes(pending), rest);
      assert argument + Slashes(pending) + text == argument + Slashes(pending);
    } else if text[0] == '\\' {
      ReadEscaped(text[1..], pending + 1, argument, rest);
      assert text == Slashes(1) + text[1..];
      SlashesAdd(pending, 1);
      assert argument + Slashes(pending) + text == argument + Slashes(pending + 1) + text[1..];
    } else {
      var tail := Escape(text[1..], 0) + rest;
      var argument' := argument + Slashes(pending) + [text[0]];
      if text[0] == '"' {
        assert Escape(text, pending) + rest == Slashes(2 * pending + 1) + ("\"" + tail);
        ReadLiteralQuote(pending, tail, true, argument);
      } else {
        assert Escape(text, pending) + rest == Slashes(pending) + ([text[0]] + tail);
        ReadOther(pending, text[0], tail, argument);
      }
      ReadEscaped(text[1..], 0, argument', rest);
      assert argument' + Slashes(0) + text[1..] == argument + Slashes(pending) + text;
    }
  }

  lemma {:induction false} ReadPlain(text: string, pending: nat, argument: string, rest: string)
    requires '"' !in text && ' ' !in text && '\t' !in text && Separated(rest)
    ensures ReadArgument(text + rest, false, pending, argument) == (argument + Slashes(pending) + text, rest)
    decreases text
  {
    if text == "" {
      assert text + rest == rest;
      assert argument + Slashes(pending) + text == argument + Slashes(pending);
    } else {
      assert (text + rest)[1..] == text[1..] + rest;
      if text[0] == '\\' {
        ReadPlain(text[1..], pending + 1, argument, rest);
        assert text == Slashes(1) + text[1..];
        SlashesAdd(pending, 1);
        assert argument + Slashes(pending) + text == argument + Slashes(pending + 1) + text[1..];
      } else {
        var argument' := argument + Slashes(pending) + [text[0]];
        ReadPlain(text[1..], 0, argument', rest);
        assert argument' + Slashes(0) + text[1..] == argument + Slashes(pending) + text;
      }
    }
  }

  lemma ReadQuoted(argument: string, rest: string)
    requires Separated(rest)
    ensures var text := Quoted(argument) + rest;
            && text != "" && !Blank(text[0])
            && ReadArgument(text, false, 0, "") == (argument, rest)
  {
    hide ReadArgument, Escape;
    if NeedsQuotes(argument) {
      var escaped := Escape(argument, 0) + rest;
      assert Quoted(argument) + rest == Slashes(0) + ("\"" + escaped);
      ReadSwitch(0, escaped, false, "");
      ReadEscaped(argument, 0, "", rest);
      assert "" + Slashes(0) == "" && "" + Slashes(0) + argument == argument;
    } else {
      ReadPlain(argument, 0, "", rest);
      assert "" + Slashes(0) + argument == argument;
    }
  }

  lemma ParseArgument(text: string)
    requires text != "" && !Blank(text[0])
    ensures var (argument, rest) := ReadArgument(text, false, 0, ""); Parse(text) == [argument] + Parse(rest)
  {
  }

  lemma ParseBlank(text: string)
    ensures Parse(" " + text) == Parse(text)
  {
    assert (" " + text)[1..] == text;
  }

  /** Parsing the command line returns exactly the arguments: empty ones, embedded quotes, trailing
      backslashes and blanks included. */
  lemma {:induction false} ParseOfJoined(arguments: seq<string>)
    ensures Parse(Joined(arguments)) == arguments
  {
    hide ReadArgument, Quoted, Parse;
    ParseEmpty();
    if |arguments| == 1 {
      assert arguments == [arguments[0]] && Quoted(arguments[0]) + "" == Quoted(arguments[0]);
      ReadQuoted(arguments[0], "");
      ParseArgument(Quoted(arguments[0]));
    } else if arguments != [] {
      var first, rest := arguments[0], " " + Joined(arguments[1..]);
      assert Joined(arguments) == Quoted(first) + rest;
      ReadQuoted(first, rest);
      ParseArgument(Quoted(first) + rest);
      ParseBlank(Joined(arguments[1..]));
      ParseOfJoined(arguments[1..]);
      assert arguments == [first] + arguments[1..];
    }
  }

  lemma ParseEmpty()
    ensures Parse("") == []
  {
  }

  /** Different argument lists never share a command line. */
  lemma JoinedIsInjective(a: seq<string>, b: seq<string>)
    requires Joined(a) == Joined(b)
    ensures a == b
  {
    ParseOfJoined(a);
    ParseOfJoined(b);
  }

  /** An argument is passed as it is exactly when it is not empty and has no blank and no quote. */
  lemma PlainArgumentsStayPlain(argument: string)
    ensures Quoted(argument) == argument <==>
            argument != "" && ' ' !in argument && '\t' !in argument && '"' !in argument
  {
    if NeedsQuotes(argument) {
      EscapeIsLonger(argument, 0);
    }
  }

  lemma {:induction false} EscapeIsLonger(text: string, pending: nat)
    ensures |Escape(text, pending)| > |text| + pending
    decreases text
  {
    if text != "" {
      EscapeIsLonger(text[1..], if text[0] == '\\' then pending + 1 else 0);
    }
  }

  /** Quoting adds nothing but the two quotes to an argument without quotes and without trailing backslash. */
  lemma QuotingIsVerbatim(argument: string)
    requires NeedsQuotes(argument) && '"' !in argument
    requires argument != "" ==> argument[|argument| - 1] != '\\'
    ensures Quoted(argument) == "\"" + argument + "\""
  {
    EscapeIsVerbatim(argument, 0);
    assert Slashes(0) + argument + "\"" == argument + "\"";
    assert "\"" + (argument + "\"") == "\"" + argument + "\"";
  }

  lemma {:induction false} EscapeIsVerbatim(text: string, pending: nat)
    requires '"' !in text && if text == "" then pending == 0 else text[|text| - 1] != '\\'
    ensures Escape(text, pending) == Slashes(pending) + text + "\""
    decreases text
  {
    if text != "" {
      var rest := text[1..];
      if text[0] == '\\' {
        EscapeIsVerbatim(rest, pending + 1);
        SlashesAdd(pending, 1);
        assert text == Slashes(1) + rest;
        assert Slashes(pending + 1) + rest + "\"" == Slashes(pending) + text + "\"";
      } else {
        EscapeIsVerbatim(rest, 0);
        assert text == [text[0]] + rest;
        assert Slashes(pending) + [text[0]] + (Slashes(0) + rest + "\"") == Slashes(pending) + text + "\"";
      }
    }
  }
}
