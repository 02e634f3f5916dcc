/** shellQuote of pkg/zun/logs.go against the shell it is written for: quoting an
    argument list and splitting it again, by the rules of the POSIX.1-2017 Shell
    Command Language (sections 2.2.1 to 2.2.3 and 2.3), is the identity. */
module ShellQuote {
  import opened Wrappers

  // ----- the quoter -----

  /** Every single quote becomes: close, a quoted quote, open again. */
  function Escaped(arg: string): string {
    if arg == [] then []
    else if arg[0] == '\'' then "'\"'\"'" + Escaped(arg[1..])
    else [arg[0]] + Escaped(arg[1..])
  }

  function QuoteArg(arg: string): string {
    "'" + (Escaped(arg) + "'")
  }

  function QuoteAll(cmd: seq<string>): (r: seq<string>)
    ensures |r| == |cmd|
  {
    seq(|cmd|, i requires 0 <= i < |cmd| => QuoteArg(cmd[i]))
  }

  function Join(parts: seq<string>): string {
    if parts == [] then ""
    else if |parts| == 1 then parts[0]
    else parts[0] + (" " + Join(parts[1..]))
  }

  method Quote(cmd: seq<string>) returns (r: string)
    ensures r == Join(QuoteAll(cmd))
    ensures Split(r) == Some(cmd)
  {
    var quoted: seq<string> := [];
    for i := 0 to |cmd|
      invariant quoted == QuoteAll(cmd[..i])
    {
      quoted := quoted + [QuoteArg(cmd[i])];
    }
    assert cmd[..|cmd|] == cmd;
    RoundTrip(cmd);
    r := Join(quoted);
  }

  // ----- the splitter -----

  datatype Mode = Between | Word | Single | Double

  predicate IsBlank(c: char) {
    c == ' ' || c == '\t' || c == '\n'
  }

  /** Characters the shell gives a meaning of its own outside quotes; a text
      using one unquoted is outside this reading. */
  predicate IsSpecial(c: char) {
    c in {'|', '&', ';', '<', '>', '(', ')', '$', '`', '*', '?', '[', '#', '~'}
  }

  /** Reads on from a place in the text: the mode there, the words finished and
      the one being read. Nothing when a quote is left open. */
  function Read(s: string, mode: Mode, words: seq<string>, word: string): Option<seq<string>>
    decreases |s|
  {
    if s == [] then
      if mode.Between? then Some(words) else if mode.Word? then Some(words + [word]) else None
    else if mode.Single? then
      // Section 2.2.2: everything up to the next single quote is itself.
      if s[0] == '\'' then Read(s[1..], Word, words, word) else Read(s[1..], Single, words, word + [s[0]])
    else if mode.Double? then
      // Section 2.2.3: likewise, but for $, ` and \.
      if s[0] == '"' then Read(s[1..], Word, words, word)
      else if s[0] == '$' || s[0] == '`' then None
      else if s[0] == '\\' && |s| > 1 && s[1] in {'$', '`', '"', '\\'} then Read(s[2..], Double, words, word + [s[1]])
      else Read(s[1..], Double, words, word + [s[0]])
    // Section 2.3: a blank ends a word; a quote opens inside one.
    else if IsBlank(s[0]) then
      Read(s[1..], Between, if mode.Word? then words + [word] else words, "")
    else if s[0] == '\'' then Read(s[1..], Single, words, word)
    else if s[0] == '"' then Read(s[1..], Double, words, word)
    // Section 2.2.1: a backslash keeps the next character as it is.
    else if s[0] == '\\' then if |s| == 1 then None else Read(s[2..], Word, words, word + [s[1]])
    else if IsSpecial(s[0]) then None
    else Read(s[1..], Word, words, word + [s[0]])
  }

  function Split(s: string): Option<seq<string>> {
    Read(s, Between, [], "")
  }

  // ----- the round trip -----

  lemma Step(c: char, rest: string)
    ensures ([c] + rest)[0] == c && ([c] + rest)[1..] == rest
  {
  }

  /** One single quote opens a quotation outside one, and closes one inside. */
  lemma SingleReads(rest: string, words: seq<string>, word: string)
    ensures Read("'" + rest, Word, words, word) == Read(rest, Single, words, word)
    ensures Read("'" + rest, Between, words, word) == Read(rest, Single, words, word)
    ensures Read("'" + rest, Single, words, word) == Read(rest, Word, words, word)
    ensures Read("'" + rest, Double, words, word) == Read(rest, Double, words, word + ['\''])
  {
    Step('\'', rest);
  }

  lemma DoubleReads(rest: string, words: seq<string>, word: string)
    ensures Read("\"" + rest, Word, words, word) == Read(rest, Double, words, word)
    ensures Read("\"" + rest, Double, words, word) == Read(rest, Word, words, word)
  {
    Step('"', rest);
  }

  /** The five characters standing for one quote read as that quote. */
  lemma QuoteReads(rest: string, words: seq<string>, word: string)
    ensures Read("'\"'\"'" + rest, Single, words, word) == Read(rest, Single, words, word + ['\''])
  {
    hide Read;
    var s4 := "'" + rest;
    var s3 := "\"" + s4;
    var s2 := "'" + s3;
    var s1 := "\"" + s2;
    assert "'" + s1 == "'\"'\"'" + rest;
    SingleReads(s1, words, word);
    DoubleReads(s2, words, word);
    SingleReads(s3, words, word);
    DoubleReads(s4, words, word + ['\'']);
    SingleReads(rest, words, word + ['\'']);
  }

  /** The inside of a quoted argument, and its closing quote, read as the
      argument. */
  lemma {:induction false} InsideReads(arg: string, rest: string, words: seq<string>, word: string)
    ensures Read(Escaped(arg) + "'" + rest, Single, words, word) == Read(rest, Word, words, word + arg)
    decreases |arg|
  {
    if arg == [] {
      Step('\'', rest);
      assert Escaped(arg) + "'" + rest == "'" + rest;
      assert word + arg == word;
    } else {
      var tail := Escaped(arg[1..]) + "'" + rest;
      assert word + arg == word + [arg[0]] + arg[1..];
      if arg[0] == '\'' {
        assert Escaped(arg) + "'" + rest == "'\"'\"'" + tail;
        QuoteReads(tail, words, word);
      } else {
        assert Escaped(arg) + "'" + rest == [arg[0]] + tail;
        Step(arg[0], tail);
      }
      InsideReads(arg[1..], rest, words, word + [arg[0]]);
    }
  }

  lemma ArgReads(arg: string, rest: string, words: seq<string>)
    ensures Read(QuoteArg(arg) + rest, Between, words, "") == Read(rest, Word, words, arg)
  {
    var inside := Escaped(arg) + "'" + rest;
    assert QuoteArg(arg) + rest == "'" + inside;
    hide Read;
    SingleReads(inside, words, "");
    InsideReads(arg, rest, words, "");
    assert "" + arg == arg;
  }

  lemma {:induction false} AllRead(cmd: seq<string>, words: seq<string>)
    ensures Read(Join(QuoteAll(cmd)), Between, words, "") == Some(words + cmd)
    decreases |cmd|
  {
    var parts := QuoteAll(cmd);
    if cmd == [] {
      assert words + cmd == words;
    } else if |cmd| == 1 {
      assert Join(parts) == QuoteArg(cmd[0]) + "";
      ArgReads(cmd[0], "", words);
      assert cmd == [cmd[0]];
    } else {
      var rest := Join(parts[1..]);
      assert parts[1..] == QuoteAll(cmd[1..]);
      ArgReads(cmd[0], " " + rest, words);
      Step(' ', rest);
      AllRead(cmd[1..], words + [cmd[0]]);
      assert words + [cmd[0]] + cmd[1..] == words + cmd;
    }
  }

  /** Splitting what was quoted gives back the argument list - empty arguments,
      blanks, quotes and all. */
  lemma RoundTrip(cmd: seq<string>)
    ensures Split(Join(QuoteAll(cmd))) == Some(cmd)
  {
    AllRead(cmd, []);
    assert [] + cmd == cmd;
  }

  /** So no two argument lists are sent as one text. */
  lemma QuoteInjective(a: seq<string>, b: seq<string>)
    requires Join(QuoteAll(a)) == Join(QuoteAll(b))
    ensures a == b
  {
    RoundTrip(a);
    RoundTrip(b);
  }
}
