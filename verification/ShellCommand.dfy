/** The command line of a task summary (`shell_quote`), read back by the shell's own rules. */
module ShellCommand {
  import opened Wrappers

  /** The characters `shell_quote` leaves bare. */
  predicate Bare(c: char) {
    'A' <= c <= 'Z' || 'a' <= c <= 'z' || '0' <= c <= '9' || c in "-_./:=+"
  }

  function EscapeQuotes(value: string): string {
    if value == "" then ""
    else (if value[0] == '\'' then "'\\''" else [value[0]]) + EscapeQuotes(value[1..])
  }

  function ShellQuote(value: string): string {
    if forall c :: c in value ==> Bare(c) then value else "'" + EscapeQuotes(value) + "'"
  }

  function Render(args: seq<string>): string {
    if args == [] then ""
    else if |args| == 1 then ShellQuote(args[0])
    else ShellQuote(args[0]) + " " + Render(args[1..])
  }

  /** Inside which quotes the tokenizer is. */
  datatype Mode = Unquoted | InSingle | InDouble

  /** Characters that, unquoted, end a simple list of words or start an expansion. */
  predicate Special(c: char) {
    c in "|&;<>()$`*?[~\n"
  }

  function Flush(word: Option<string>): seq<string> {
    if word.Some? then [word.value] else []
  }

  function Grow(word: Option<string>, more: string): Option<string> {
    Some(word.GetOr("") + more)
  }

  /**
   * Token recognition and quote removal by sections 2.2.1, 2.2.2, 2.2.3 and 2.3 of the
   * POSIX.1-2017 Shell Command Language. The result is the list of words, or None when the text
   * is not a plain list of literal words: an operator, a newline, an expansion, a pattern, or an
   * unterminated quotation.
   */
  function Words(text: string, mode: Mode, word: Option<string>): Option<seq<string>>
    decreases |text|
  {
    if text == "" then
      if mode == Unquoted then Some(Flush(word)) else None
    else
      var c, rest := text[0], text[1..];
      match mode
      case InSingle =>
        if c == '\'' then Words(rest, Unquoted, word) else Words(rest, InSingle, Grow(word, [c]))
      case InDouble =>
        if c == '"' then Words(rest, Unquoted, word)
        else if c == '$' || c == '`' then None
        else if c == '\\' && rest != "" && rest[0] == '\n' then Words(rest[1..], InDouble, word)
        else if c == '\\' && rest != "" && rest[0] in "$`\"\\" then Words(rest[1..], InDouble, Grow(word, [rest[0]]))
        else Words(rest, InDouble, Grow(word, [c]))
      case Unquoted =>
        if c == ' ' || c == '\t' then
          match Words(rest, Unquoted, None)
          case Some(words) => Some(Flush(word) + words)
          case None => None
        else if c == '\'' then Words(rest, InSingle, Grow(word, ""))
        else if c == '"' then Words(rest, InDouble, Grow(word, ""))
        else if c == '\\' then
          if rest == "" then None
          else if rest[0] == '\n' then Words(rest[1..], Unquoted, word)
          else Words(rest[1..], Unquoted, Grow(word, [rest[0]]))
        else if Special(c) || (c == '#' && word.None?) then None
        else Words(rest, Unquoted, Grow(word, [c]))
  }

  lemma BareIsOrdinary(c: char)
    requires Bare(c)
    ensures c != ' ' && c != '\t' && c != '\'' && c != '"' && c != '\\' && c != '#' && !Special(c)
  {
    assert forall d :: d in "|&;<>()$`*?[~\n" ==>
      d in ['|', '&', ';', '<', '>', '(', ')', '$', '`', '*', '?', '[', '~', '\n'];
    assert forall d :: d in "-_./:=+" ==> d in ['-', '_', '.', '/', ':', '=', '+'];
  }

  lemma {:induction false} BareWord(value: string, rest: string, word: Option<string>)
    requires forall c :: c in value ==> Bare(c)
    requires value != ""
    ensures Words(value + rest, Unquoted, word) == Words(rest, Unquoted, Grow(word, value))
  {
    BareIsOrdinary(value[0]);
    assert (value + rest)[1..] == value[1..] + rest;
    var grown := Grow(word, [value[0]]);
    if |value| > 1 {
      BareWord(value[1..], rest, grown);
      assert word.GetOr("") + [value[0]] + value[1..] == word.GetOr("") + value;
    } else {
      assert value == [value[0]] && value[1..] + rest == rest;
    }
  }

  /** An escaped quote leaves the quotation, adds the quote and enters the next quotation. */
  lemma EscapedQuote(tail: string, word: string)
    ensures Words("'\\''" + tail, InSingle, Some(word)) == Words(tail, InSingle, Some(word + "'"))
  {
    var text := "'\\''" + tail;
    assert text[1..] == "\\''" + tail;
    assert text[1..][1..] == "''" + tail;
    assert text[1..][1..][1..] == "'" + tail;
    assert text[1..][1..][1..][1..] == tail;
    assert word + "'" + "" == word + "'";
    assert Words(text, InSingle, Some(word)) == Words("\\''" + tail, Unquoted, Some(word));
    assert Words("\\''" + tail, Unquoted, Some(word)) == Words("'" + tail, Unquoted, Some(word + "'"));
  }

  lemma {:induction false} QuotedWord(value: string, rest: string, word: string)
    ensures Words(EscapeQuotes(value) + "'" + rest, InSingle, Some(word)) == Words(rest, Unquoted, Some(word + value))
  {
    var text := EscapeQuotes(value) + "'" + rest;
    if value == "" {
      assert text[1..] == rest && word + value == word;
    } else {
      var tail := EscapeQuotes(value[1..]) + "'" + rest;
      QuotedWord(value[1..], rest, word + [value[0]]);
      assert word + [value[0]] + value[1..] == word + value;
      if value[0] == '\'' {
        assert text == "'\\''" + tail;
        EscapedQuote(tail, word);
      } else {
        assert text == [value[0]] + tail;
        assert text[1..] == tail;
      }
    }
  }

  /** One printed argument reads back as that argument, whatever follows it. */
  lemma OneArgument(value: string, rest: string)
    requires value != ""
    ensures Words(ShellQuote(value) + rest, Unquoted, None) == Words(rest, Unquoted, Some(value))
  {
    if forall c :: c in value ==> Bare(c) {
      BareWord(value, rest, None);
      assert "" + value == value;
    } else {
      var text := ShellQuote(value) + rest;
      assert text[1..] == EscapeQuotes(value) + "'" + rest;
      var nothing: string := "";
      assert nothing + nothing == nothing;
      QuotedWord(value, rest, "");
      assert "" + value == value;
    }
  }

  /** An argument is printed bare if and only if it has letters, digits and the seven bare signs only. */
  lemma QuotedIff(value: string)
    ensures ShellQuote(value) == value <==>
              forall i :: 0 <= i < |value| ==>
                || 'a' <= value[i] <= 'z' || 'A' <= value[i] <= 'Z' || '0' <= value[i] <= '9'
                || value[i] in {'-', '_', '.', '/', ':', '=', '+'}
    ensures ShellQuote(value) != value ==>
              var shown := ShellQuote(value); |shown| >= 2 && shown[0] == '\'' && shown[|shown| - 1] == '\''
  {
    forall i | 0 <= i < |value|
      ensures Bare(value[i]) <==>
                || 'a' <= value[i] <= 'z' || 'A' <= value[i] <= 'Z' || '0' <= value[i] <= '9'
                || value[i] in {'-', '_', '.', '/', ':', '=', '+'}
    {
      BareSign(value[i]);
    }
    EscapedLength(value);
  }

  lemma BareSign(c: char)
    ensures c in "-_./:=+" <==> c in {'-', '_', '.', '/', ':', '=', '+'}
  {
    var signs := "-_./:=+";
    assert signs[0] == '-' && signs[1] == '_' && signs[2] == '.' && signs[3] == '/' && signs[4] == ':'
        && signs[5] == '=' && signs[6] == '+';
  }

  lemma {:induction false} EscapedLength(value: string)
    ensures |EscapeQuotes(value)| >= |value|
  {
    if value != "" {
      EscapedLength(value[1..]);
    }
  }

  function NonEmpty(args: seq<string>): seq<string> {
    if args == [] then [] else (if args[0] == "" then [] else [args[0]]) + NonEmpty(args[1..])
  }

  /** Whatever the arguments, reading the printed command gives them all back but the empty ones. */
  lemma {:induction false} ReadsBack(args: seq<string>)
    ensures Words(Render(args), Unquoted, None) == Some(NonEmpty(args))
  {
    if args != [] {
      var tail := if |args| == 1 then "" else " " + Render(args[1..]);
      assert Render(args) == ShellQuote(args[0]) + tail;
      ReadsBack(args[1..]);
      if |args| > 1 {
        assert tail[1..] == Render(args[1..]);
      }
      if args[0] == "" {
        assert Render(args) == tail;
      } else {
        OneArgument(args[0], tail);
        assert [args[0]] + [] == [args[0]];
      }
    }
  }

  lemma {:induction false} NonEmptyIsIdentity(args: seq<string>)
    ensures |NonEmpty(args)| <= |args|
    ensures NonEmpty(args) == args <==> "" !in args
  {
    if args != [] {
      NonEmptyIsIdentity(args[1..]);
      assert args == [args[0]] + args[1..];
      if args[0] != "" {
        assert NonEmpty(args)[1..] == NonEmpty(args[1..]);
      }
    }
  }

  /** The printed command is exact precisely when no argument is empty. */
  lemma ExactUnlessEmpty(args: seq<string>)
    ensures Words(Render(args), Unquoted, None) == Some(args) <==> "" !in args
  {
    ReadsBack(args);
    NonEmptyIsIdentity(args);
  }

  lemma RenderInjective(a: seq<string>, b: seq<string>)
    requires "" !in a && "" !in b
    requires Render(a) == Render(b)
    ensures a == b
  {
    ExactUnlessEmpty(a);
    ExactUnlessEmpty(b);
  }
}
