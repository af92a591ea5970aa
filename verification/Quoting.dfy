/**
  Quoting a value for a POSIX shell. The reader follows sections 2.2.1 to 2.2.3 and 2.3 of the Shell Command
  Language in POSIX.1-2017 on text made of words and the operator &&: any other unquoted operator or expansion
  character ends the reading without a result.
*/
module Quoting {
  import opened Prelude

  datatype Quote = Bare | InSingle | InDouble

  datatype Token = Word(text: string) | AndIf

  /** `word` is None between words. */
  datatype Reader = Reader(quote: Quote, word: Option<string>)

  const BETWEEN := Reader(Bare, None)

  function Extend(reader: Reader, text: string): Reader {
    reader.(word := Some((if reader.word.None? then "" else reader.word.value) + text))
  }

  function Finished(reader: Reader): seq<Token> {
    if reader.word.None? then [] else [Word(reader.word.value)]
  }

  function Prefixed(tokens: seq<Token>, rest: Option<seq<Token>>): Option<seq<Token>> {
    if rest.None? then None else Some(tokens + rest.value)
  }

  predicate IsBlank(c: char) {
    c == ' ' || c == '\t'
  }

  /** Characters that mean something else than themselves outside quotes. */
  predicate IsSpecial(c: char) {
    c in "|&;<>()$`*?[#~=%\n\0"
  }

  /** The tokens of `text`, read on from `reader`; None if a quote stays open or something is not a plain word. */
  function Tokens(text: string, reader: Reader): Option<seq<Token>> {
    if text == "" then
      if reader.quote == Bare then Some(Finished(reader)) else None
    else
      var c := text[0];
      match reader.quote
      case InSingle =>
        if c == '\'' then Tokens(text[1..], reader.(quote := Bare)) else Tokens(text[1..], Extend(reader, [c]))
      case InDouble =>
        if c == '"' then Tokens(text[1..], reader.(quote := Bare))
        else if c == '$' || c == '`' then None
        else if c == '\\' && |text| > 1 && text[1] in "$`\"\\" then Tokens(text[2..], Extend(reader, [text[1]]))
        else if c == '\\' && |text| > 1 && text[1] == '\n' then Tokens(text[2..], reader)
        else Tokens(text[1..], Extend(reader, [c]))
      case Bare =>
        if c == '\'' then Tokens(text[1..], Extend(reader, "").(quote := InSingle))
        else if c == '"' then Tokens(text[1..], Extend(reader, "").(quote := InDouble))
        else if c == '\\' then
          if |text| == 1 then None
          else if text[1] == '\n' then Tokens(text[2..], reader)
          else Tokens(text[2..], Extend(reader, [text[1]]))
        else if IsBlank(c) then Prefixed(Finished(reader), Tokens(text[1..], BETWEEN))
        else if c == '&' && |text| > 1 && text[1] == '&' then
          Prefixed(Finished(reader) + [AndIf], Tokens(text[2..], BETWEEN))
        else if IsSpecial(c) then None
        else Tokens(text[1..], Extend(reader, [c]))
  }

  // ---- The two quoters

  /** `str::replace` of every single quote. */
  function ReplaceQuotes(value: string, escape: string): string {
    if value == "" then ""
    else (if value[0] == '\'' then escape else [value[0]]) + ReplaceQuotes(value[1..], escape)
  }

  const DOUBLE_QUOTED_ESCAPE := "'\"'\"'"
  const BACKSLASH_ESCAPE := "'\\''"

  function QuoteWith(value: string, escape: string): string {
    "'" + ReplaceQuotes(value, escape) + "'"
  }

  /** The quoter of workspace scripts. */
  function WorkspaceShellQuote(value: string): string {
    QuoteWith(value, DOUBLE_QUOTED_ESCAPE)
  }

  /** The quoter of the Codex launch command. */
  function CodexShellQuote(value: string): string {
    QuoteWith(value, BACKSLASH_ESCAPE)
  }

  /** Inside single quotes, an escape adds one single quote and leaves the reader inside single quotes. */
  ghost predicate EscapesQuote(escape: string) {
    forall reader: Reader, rest: string :: reader.quote == InSingle && reader.word.Some? ==>
      Tokens(escape + rest, reader) == Tokens(rest, Extend(reader, "'"))
  }

  lemma DoubleQuotedEscape()
    ensures EscapesQuote(DOUBLE_QUOTED_ESCAPE)
  {
    forall reader: Reader, rest: string | reader.quote == InSingle && reader.word.Some?
      ensures Tokens(DOUBLE_QUOTED_ESCAPE + rest, reader) == Tokens(rest, Extend(reader, "'"))
    {
      var text := DOUBLE_QUOTED_ESCAPE + rest;
      var w := reader.word.value;
      assert w + "" == w;
      assert text[1..][0] == '"' && text[1..][1..] == text[2..] && text[2..][0] == '\'';
      assert text[2..][1..] == text[3..] && text[3..][0] == '"';
      assert text[3..][1..] == text[4..] && text[4..][0] == '\'' && text[4..][1..] == rest;
      var grown := w + "'";
      assert grown + "" == grown;
      calc {
        Tokens(text, reader);
        Tokens(text[1..], Reader(Bare, Some(w)));
        Tokens(text[2..], Reader(InDouble, Some(w)));
        Tokens(text[3..], Reader(InDouble, Some(grown)));
        Tokens(text[4..], Reader(Bare, Some(grown)));
        Tokens(rest, Reader(InSingle, Some(grown)));
      }
    }
  }

  lemma BackslashEscape()
    ensures EscapesQuote(BACKSLASH_ESCAPE)
  {
    forall reader: Reader, rest: string | reader.quote == InSingle && reader.word.Some?
      ensures Tokens(BACKSLASH_ESCAPE + rest, reader) == Tokens(rest, Extend(reader, "'"))
    {
      var text := BACKSLASH_ESCAPE + rest;
      var w := reader.word.value;
      assert text[1..][0] == '\\' && text[1..][1] == '\'' && text[1..][2..] == text[3..];
      assert text[3..][0] == '\'' && text[3..][1..] == rest;
      var grown := w + "'";
      assert grown + "" == grown;
      calc {
        Tokens(text, reader);
        Tokens(text[1..], Reader(Bare, Some(w)));
        Tokens(text[3..], Reader(Bare, Some(grown)));
        Tokens(rest, Reader(InSingle, Some(grown)));
      }
    }
  }

  lemma {:induction false} ReadsReplaced(value: string, escape: string, rest: string, reader: Reader)
    requires EscapesQuote(escape)
    requires reader.quote == InSingle && reader.word.Some?
    ensures Tokens(ReplaceQuotes(value, escape) + rest, reader) == Tokens(rest, Extend(reader, value))
  {
    if value == "" {
      assert ReplaceQuotes(value, escape) + rest == rest;
      assert reader.word.value + "" == reader.word.value;
    } else {
      var head := if value[0] == '\'' then escape else [value[0]];
      var tail := ReplaceQuotes(value[1..], escape) + rest;
      assert ReplaceQuotes(value, escape) + rest == head + tail;
      var next := Extend(reader, [value[0]]);
      assert Tokens(head + tail, reader) == Tokens(tail, next) by {
        if value[0] != '\'' {
          assert (head + tail)[1..] == tail;
        }
      }
      ReadsReplaced(value[1..], escape, rest, next);
      assert reader.word.value + [value[0]] + value[1..] == reader.word.value + value;
    }
  }

  /** A quoted value read between words becomes exactly one word under way, whatever follows. */
  lemma ReadsQuoted(value: string, escape: string, rest: string)
    requires EscapesQuote(escape)
    ensures Tokens(QuoteWith(value, escape) + rest, BETWEEN) == Tokens(rest, Reader(Bare, Some(value)))
  {
    var text := QuoteWith(value, escape) + rest;
    var inside := Reader(InSingle, Some(""));
    assert text[1..] == ReplaceQuotes(value, escape) + ("'" + rest);
    assert Extend(BETWEEN, "").(quote := InSingle) == inside by { assert "" + "" == ""; }
    assert Tokens(text, BETWEEN) == Tokens(text[1..], inside);
    ReadsReplaced(value, escape, "'" + rest, inside);
    assert "" + value == value;
    assert ("'" + rest)[1..] == rest;
  }

  /** Both quoters give the shell exactly one word, equal to the value. */
  lemma QuoteRoundTrip(value: string)
    ensures Tokens(WorkspaceShellQuote(value), BETWEEN) == Some([Word(value)])
    ensures Tokens(CodexShellQuote(value), BETWEEN) == Some([Word(value)])
  {
    DoubleQuotedEscape();
    BackslashEscape();
    ReadsQuoted(value, DOUBLE_QUOTED_ESCAPE, "");
    ReadsQuoted(value, BACKSLASH_ESCAPE, "");
    assert WorkspaceShellQuote(value) + "" == WorkspaceShellQuote(value);
    assert CodexShellQuote(value) + "" == CodexShellQuote(value);
  }

  /** Quoted values separated by blanks, from either quoter. */
  function CommandLine(values: seq<string>, escape: string): string {
    if values == [] then "" else QuoteWith(values[0], escape) + " " + CommandLine(values[1..], escape)
  }

  function WordTokens(values: seq<string>): seq<Token> {
    seq(|values|, i requires 0 <= i < |values| => Word(values[i]))
  }

  /** A command line of quoted values reads back as the list of values: no value leaks into another. */
  lemma {:induction false} CommandLineRoundTrip(values: seq<string>, escape: string)
    requires escape == DOUBLE_QUOTED_ESCAPE || escape == BACKSLASH_ESCAPE
    ensures Tokens(CommandLine(values, escape), BETWEEN) == Some(WordTokens(values))
  {
    if values == [] {
      assert WordTokens(values) == [];
    } else {
      ReadsQuotedWord(values[0], escape, CommandLine(values[1..], escape));
      CommandLineRoundTrip(values[1..], escape);
      assert CommandLine(values, escape) == QuoteWith(values[0], escape) + (" " + CommandLine(values[1..], escape));
      assert [Word(values[0])] + WordTokens(values[1..]) == WordTokens(values);
    }
  }

  lemma ReadsQuotedWord(value: string, escape: string, rest: string)
    requires escape == DOUBLE_QUOTED_ESCAPE || escape == BACKSLASH_ESCAPE
    ensures Tokens(QuoteWith(value, escape) + (" " + rest), BETWEEN) == Prefixed([Word(value)], Tokens(rest, BETWEEN))
  {
    DoubleQuotedEscape();
    BackslashEscape();
    ReadsQuoted(value, escape, " " + rest);
    assert (" " + rest)[1..] == rest;
  }

  // ---- The launch command on a remote host

  /** A character that stands for itself outside quotes. */
  predicate IsPlain(c: char) {
    !IsBlank(c) && !IsSpecial(c) && c != '\'' && c != '"' && c != '\\'
  }

  lemma {:induction false} ReadsPlain(word: string, rest: string, reader: Reader)
    requires reader.quote == Bare && reader.word.Some? && forall i :: 0 <= i < |word| ==> IsPlain(word[i])
    ensures Tokens(word + rest, reader) == Tokens(rest, Extend(reader, word))
  {
    if word == "" {
      assert word + rest == rest && reader.word.value + "" == reader.word.value;
    } else {
      assert (word + rest)[1..] == word[1..] + rest;
      ReadsPlain(word[1..], rest, Extend(reader, [word[0]]));
      assert reader.word.value + [word[0]] + word[1..] == reader.word.value + word;
    }
  }

  /** A plain word and the blank behind it. */
  lemma ReadsPlainWord(word: string, rest: string)
    requires word != "" && forall i :: 0 <= i < |word| ==> IsPlain(word[i])
    ensures Tokens(word + (" " + rest), BETWEEN) == Prefixed([Word(word)], Tokens(rest, BETWEEN))
  {
    var text := word + (" " + rest);
    assert text[1..] == word[1..] + (" " + rest);
    var first := Reader(Bare, Some([word[0]]));
    assert Extend(BETWEEN, [word[0]]) == first by { assert "" + [word[0]] == [word[0]]; }
    ReadsPlain(word[1..], " " + rest, first);
    assert [word[0]] + word[1..] == word;
    assert (" " + rest)[1..] == rest;
  }

  lemma ReadsAndIf(rest: string)
    ensures Tokens("&&" + (" " + rest), BETWEEN) == Prefixed([AndIf], Tokens(rest, BETWEEN))
  {
    var text := "&&" + (" " + rest);
    assert text[2..] == " " + rest && (" " + rest)[1..] == rest;
    assert Finished(BETWEEN) + [AndIf] == [AndIf];
    PrefixedNothing(Tokens(rest, BETWEEN));
  }

  lemma PrefixedNothing(rest: Option<seq<Token>>)
    ensures Prefixed([], rest) == rest
  {
    if rest.Some? {
      assert [] + rest.value == rest.value;
    }
  }

  /** Changes into the workspace and runs the command there. */
  function RemoteCodexCommand(workspace: string, command: string): Result<string, string> {
    if workspace == "" then Err("remote Codex workspace path is empty")
    else Ok("cd -- " + CodexShellQuote(workspace) + " && exec bash -lc " + CodexShellQuote(command))
  }

  /** The line from its pieces, each up to the blank that ends it. */
  lemma RemoteCommandPieces(workspace: string, command: string)
    requires workspace != ""
    ensures RemoteCodexCommand(workspace, command).value ==
            "cd" + (" " + ("--" + (" " + (CodexShellQuote(workspace) + (" " + ("&&" + (" " +
            LaunchText(CodexShellQuote(command)))))))))
  {
    hide CodexShellQuote;
    var quoted := CodexShellQuote(command);
    assert "exec bash -lc " + quoted == LaunchText(quoted);
    assert " && exec bash -lc " + quoted == " " + ("&&" + (" " + ("exec bash -lc " + quoted)));
  }

  /**
    On the remote host the shell reads exactly two commands, the second only if the first succeeds: `cd` to the
    workspace and `bash` with the command as one argument, whatever characters either contains.
  */
  lemma RemoteCommandRoundTrip(workspace: string, command: string)
    ensures workspace == "" <==> RemoteCodexCommand(workspace, command).Err?
    ensures workspace != "" ==>
              Tokens(RemoteCodexCommand(workspace, command).value, BETWEEN) ==
              Some([Word("cd"), Word("--"), Word(workspace), AndIf, Word("exec"), Word("bash"), Word("-lc"),
                    Word(command)])
  {
    hide Tokens, CodexShellQuote, LaunchText;
    if workspace != "" {
      RemoteCommandPieces(workspace, command);
      LaunchTokens(CodexShellQuote(command), command);
      ChangeDirectoryTokens(workspace, LaunchText(CodexShellQuote(command)));
      assert [Word("cd"), Word("--"), Word(workspace), AndIf] +
             [Word("exec"), Word("bash"), Word("-lc"), Word(command)] ==
             [Word("cd"), Word("--"), Word(workspace), AndIf, Word("exec"), Word("bash"), Word("-lc"), Word(command)];
    }
  }

  function LaunchText(quoted: string): string {
    "exec" + (" " + ("bash" + (" " + ("-lc" + (" " + quoted)))))
  }

  lemma LaunchTokens(quoted: string, command: string)
    requires quoted == CodexShellQuote(command)
    ensures Tokens(LaunchText(quoted), BETWEEN) == Some([Word("exec"), Word("bash"), Word("-lc"), Word(command)])
  {
    hide Tokens, CodexShellQuote;
    QuoteRoundTrip(command);
    ReadsPlainWord("-lc", quoted);
    ReadsPlainWord("bash", "-lc" + (" " + quoted));
    ReadsPlainWord("exec", "bash" + (" " + ("-lc" + (" " + quoted))));
    assert [Word("-lc")] + [Word(command)] == [Word("-lc"), Word(command)];
    assert [Word("bash")] + [Word("-lc"), Word(command)] == [Word("bash"), Word("-lc"), Word(command)];
    assert [Word("exec")] + [Word("bash"), Word("-lc"), Word(command)] ==
           [Word("exec"), Word("bash"), Word("-lc"), Word(command)];
  }

  lemma ChangeDirectoryTokens(workspace: string, next: string)
    ensures Tokens("cd" + (" " + ("--" + (" " + (CodexShellQuote(workspace) + (" " + ("&&" + (" " + next))))))),
                   BETWEEN) ==
            Prefixed([Word("cd"), Word("--"), Word(workspace), AndIf], Tokens(next, BETWEEN))
  {
    hide Tokens, CodexShellQuote;
    var second := "&&" + (" " + next);
    ReadsAndIf(next);
    ReadsCodexWord(workspace, second);
    var first := CodexShellQuote(workspace) + (" " + second);
    ReadsPlainWord("--", first);
    ReadsPlainWord("cd", "--" + (" " + first));
    PrefixedTwice([Word(workspace)], [AndIf], Tokens(next, BETWEEN));
    PrefixedTwice([Word("--")], [Word(workspace)] + [AndIf], Tokens(next, BETWEEN));
    PrefixedTwice([Word("cd")], [Word("--")] + ([Word(workspace)] + [AndIf]), Tokens(next, BETWEEN));
    assert [Word("cd")] + ([Word("--")] + ([Word(workspace)] + [AndIf])) ==
           [Word("cd"), Word("--"), Word(workspace), AndIf];
  }

  lemma PrefixedTwice(a: seq<Token>, b: seq<Token>, rest: Option<seq<Token>>)
    ensures Prefixed(a, Prefixed(b, rest)) == Prefixed(a + b, rest)
  {
    if rest.Some? {
      assert a + (b + rest.value) == a + b + rest.value;
    }
  }

  lemma ReadsCodexWord(value: string, rest: string)
    ensures Tokens(CodexShellQuote(value) + (" " + rest), BETWEEN) == Prefixed([Word(value)], Tokens(rest, BETWEEN))
  {
    ReadsQuotedWord(value, BACKSLASH_ESCAPE, rest);
  }
}
