/** Quoting a command line for `/bin/sh`, and a word splitter after section 2.2
    ("Quoting") of POSIX.1-2017 XCU. */
module Shell {
  import opened Basics
  import opened Text

  /** Every quote closes the quotes, stands escaped, and opens them again. */
  function Replaced(value: string): string {
    if value == "" then ""
    else (if value[0] == '\'' then "'\\''" else [value[0]]) + Replaced(value[1..])
  }

  function ShellQuote(value: string): string {
    "'" + Replaced(value) + "'"
  }

  function CommandLine(words: seq<string>): string {
    if words == [] then ""
    else if |words| == 1 then ShellQuote(words[0])
    else ShellQuote(words[0]) + " " + CommandLine(words[1..])
  }

  // --- the shell's side -----------------------------------------------------------

  datatype Mode =
    | Between                 // no word begun
    | Word(text: string)      // in a word, outside quotes
    | Single(text: string)    // inside single quotes
    | Double(text: string)    // inside double quotes

  /** Characters that mean something to the shell unless they are quoted. */
  predicate IsSpecial(c: char) {
    c in "|&;<>()$`\n*?[#~=%"
  }

  /** The words of a simple command; `None` where the shell would do anything
      but split words. */
  function Split(s: string, mode: Mode): (r: Option<seq<string>>)
    decreases |s|
  {
    if s == "" then
      match mode
      case Between => Some([])
      case Word(w) => Some([w])
      case _ => None
    else
      match mode
      case Single(w) => Split(s[1..], if s[0] == '\'' then Word(w) else Single(w + [s[0]]))
      case Double(w) => SplitDouble(s, w)
      case Between => if IsBlank(s[0]) then Split(s[1..], Between) else SplitWord(s, "", mode)
      case Word(w) =>
        if IsBlank(s[0]) then
          match Split(s[1..], Between)
          case None => None
          case Some(words) => Some([w] + words)
        else SplitWord(s, w, mode)
  }

  /** One character of a word that so far reads `w`; `mode` tells an empty word
      from no word when a line is continued. */
  function SplitWord(s: string, w: string, mode: Mode): (r: Option<seq<string>>)
    requires s != "" && !IsBlank(s[0])
    decreases |s|, 0
  {
    if s[0] == '\'' then Split(s[1..], Single(w))
    else if s[0] == '"' then Split(s[1..], Double(w))
    else if s[0] == '\\' then
      if |s| == 1 then None
      else if s[1] == '\n' then Split(s[2..], mode)
      else Split(s[2..], Word(w + [s[1]]))
    else if IsSpecial(s[0]) then None
    else Split(s[1..], Word(w + [s[0]]))
  }

  function SplitDouble(s: string, w: string): (r: Option<seq<string>>)
    requires s != ""
    decreases |s|, 0
  {
    if s[0] == '"' then Split(s[1..], Word(w))
    else if s[0] == '$' || s[0] == '`' then None
    else if s[0] == '\\' && |s| > 1 && s[1] == '\n' then Split(s[2..], Double(w))
    else if s[0] == '\\' && |s| > 1 && s[1] in "$`\"\\" then Split(s[2..], Double(w + [s[1]]))
    else Split(s[1..], Double(w + [s[0]]))
  }

  /** What a process started with this command line receives. An argument
      holding a NUL cannot be passed to a process at all. */
  function Received(line: string): Option<seq<string>> {
    if 0 as char in line then None else Split(line, Between)
  }

  // --- the round trip ----------------------------------------------------------------

  lemma {:induction false} QuotedTextIsLiteral(value: string, w: string, rest: string)
    ensures Split(Replaced(value) + "'" + rest, Single(w)) == Split(rest, Word(w + value))
  {
    var text := Replaced(value) + "'" + rest;
    if value == "" {
      assert text == "'" + rest && text[1..] == rest && w + value == w;
    } else {
      var more := Replaced(value[1..]) + "'" + rest;
      assert w + value == (w + [value[0]]) + value[1..];
      QuotedTextIsLiteral(value[1..], w + [value[0]], rest);
      if value[0] == '\'' {
        EscapedQuoteIsOneQuote(w, more);
        assert text == "'\\''" + more;
      } else {
        assert text == [value[0]] + more && text[1..] == more;
      }
    }
  }

  lemma EscapedQuoteIsOneQuote(w: string, more: string)
    ensures Split("'\\''" + more, Single(w)) == Split(more, Single(w + "'"))
  {
    var text := "'\\''" + more;
    var afterClose := text[1..];
    assert text[0] == '\'' && afterClose[0] == '\\' && afterClose[1] == '\'';
    var afterEscape := afterClose[2..];
    assert afterEscape == "'" + more;
    assert afterEscape[0] == '\'' && afterEscape[1..] == more;
    assert Split(text, Single(w)) == Split(afterClose, Word(w));
    assert Split(afterClose, Word(w)) == Split(afterEscape, Word(w + "'"));
  }

  lemma QuotedIsOneWord(value: string, rest: string)
    ensures Split(ShellQuote(value) + rest, Between) == Split(rest, Word(value))
  {
    var text := ShellQuote(value) + rest;
    assert text[0] == '\'' && text[1..] == Replaced(value) + "'" + rest;
    QuotedTextIsLiteral(value, "", rest);
    assert "" + value == value;
  }

  lemma {:induction false} LinesSplit(words: seq<string>)
    ensures Split(CommandLine(words), Between) == Some(words)
  {
    if |words| == 1 {
      QuotedIsOneWord(words[0], "");
      assert CommandLine(words) + "" == CommandLine(words);
      assert words == [words[0]];
    } else if |words| > 1 {
      var rest := " " + CommandLine(words[1..]);
      QuotedIsOneWord(words[0], rest);
      assert CommandLine(words) == ShellQuote(words[0]) + rest;
      assert rest[1..] == CommandLine(words[1..]);
      LinesSplit(words[1..]);
      assert words == [words[0]] + words[1..];
    }
  }

  lemma {:induction false} ReplacedHasNul(value: string)
    ensures 0 as char in Replaced(value) <==> 0 as char in value
  {
    if value != "" {
      ReplacedHasNul(value[1..]);
      assert value == [value[0]] + value[1..];
    }
  }

  predicate AnyNul(words: seq<string>) {
    exists i :: 0 <= i < |words| && 0 as char in words[i]
  }

  lemma {:induction false} LineHasNul(words: seq<string>)
    ensures 0 as char in CommandLine(words) <==> AnyNul(words)
  {
    if words != [] {
      ReplacedHasNul(words[0]);
      LineHasNul(words[1..]);
      assert AnyNul(words[1..]) ==> AnyNul(words) by {
        if AnyNul(words[1..]) {
          var i :| 0 <= i < |words[1..]| && 0 as char in words[1..][i];
          assert 0 as char in words[i + 1];
        }
      }
      if AnyNul(words) {
        var i :| 0 <= i < |words| && 0 as char in words[i];
        assert i > 0 ==> words[1..][i - 1] == words[i];
      }
    }
  }

  /** MAIN. The program and arguments are received as they were given, one word
      each, exactly when none of them holds a NUL; nothing in them is ever seen
      by the shell outside quotes. */
  lemma CommandLinesSplitBack(words: seq<string>)
    ensures Received(CommandLine(words)) == Some(words) <==> !AnyNul(words)
  {
    LinesSplit(words);
    LineHasNul(words);
  }
}
