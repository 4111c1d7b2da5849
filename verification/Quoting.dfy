/** Quoting a launch command twice: for the shell that runs it and for the AppleScript text that types it. */
module Quoting {
  import opened Basics

  /** Every occurrence of `c` replaced by `w`. */
  function ReplaceAll(s: string, c: char, w: string): string {
    if s == "" then "" else (if s[0] == c then w else [s[0]]) + ReplaceAll(s[1..], c, w)
  }

  function ShellQuote(value: string): string {
    "'" + ReplaceAll(value, '\'', "'\"'\"'") + "'"
  }

  function EscapeAppleScript(s: string): string {
    ReplaceAll(ReplaceAll(s, '\\', "\\\\"), '"', "\\\"")
  }

  function LaunchCommand(workspace: Option<string>, command: string): string {
    if workspace.Some? && workspace.value != "" then "cd -- " + ShellQuote(workspace.value) + " && " + command
    else command
  }

  // ----- reading an AppleScript string literal -----

  /** What a backslash and the given character stand for. */
  function Unescape(c: char): Option<char> {
    match c
    case '\\' => Some('\\')
    case '"' => Some('"')
    case 'n' => Some('\n')
    case 'r' => Some('\r')
    case 't' => Some('\t')
    case _ => None
  }

  /** The text right after an opening quote: the literal's value and what follows its closing quote. */
  function ReadLiteral(s: string): Option<(string, string)> {
    if s == "" then None
    else if s[0] == '"' then Some(("", s[1..]))
    else if s[0] == '\\' then
      if |s| == 1 || Unescape(s[1]).None? then None
      else
        var rest := ReadLiteral(s[2..]);
        if rest.None? then None else Some(([Unescape(s[1]).value] + rest.value.0, rest.value.1))
    else
      var rest := ReadLiteral(s[1..]);
      if rest.None? then None else Some(([s[0]] + rest.value.0, rest.value.1))
  }

  /** Escaping seen one character at a time, although it is done in two passes. */
  function EscapeChar(c: char): string {
    if c == '\\' then "\\\\" else if c == '"' then "\\\"" else [c]
  }

  lemma {:induction false} ReplaceAppend(a: string, b: string, c: char, w: string)
    ensures ReplaceAll(a + b, c, w) == ReplaceAll(a, c, w) + ReplaceAll(b, c, w)
  {
    if a == "" {
      assert a + b == b;
    } else {
      assert (a + b)[0] == a[0] && (a + b)[1..] == a[1..] + b;
      ReplaceAppend(a[1..], b, c, w);
    }
  }

  lemma EscapeStep(s: string)
    requires s != ""
    ensures EscapeAppleScript(s) == EscapeChar(s[0]) + EscapeAppleScript(s[1..])
  {
    var head := if s[0] == '\\' then "\\\\" else [s[0]];
    ReplaceAppend(head, ReplaceAll(s[1..], '\\', "\\\\"), '"', "\\\"");
    assert head[1..] == "" || (head[1..] == "\\" && "\\"[1..] == "");
  }

  /** Reading the escaped text back gives the text, whatever follows the closing quote. */
  lemma {:induction false} LiteralRoundTrip(s: string, rest: string)
    ensures ReadLiteral(EscapeAppleScript(s) + "\"" + rest) == Some((s, rest))
  {
    if s == "" {
      assert EscapeAppleScript(s) + "\"" + rest == "\"" + rest;
    } else {
      var tail := EscapeAppleScript(s[1..]) + "\"" + rest;
      LiteralRoundTrip(s[1..], rest);
      EscapeStep(s);
      var all := EscapeAppleScript(s) + "\"" + rest;
      assert all == EscapeChar(s[0]) + tail;
      assert s == [s[0]] + s[1..];
      if s[0] == '\\' || s[0] == '"' {
        assert all[0] == '\\' && all[1] == s[0] && all[2..] == tail;
      } else {
        assert all[0] == s[0] && all[1..] == tail;
      }
    }
  }

  // ----- reading a shell command line -----

  datatype Token = Word(text: string) | AndIf | Background | Newline

  /** Section 2.2 of the POSIX Shell Command Language; `Unmodelled` when an unquoted character would start an expansion,
      a pattern, a comment or an operator not listed here. */
  datatype Mode = Unquoted | Escaped | Single | Double | DoubleEscaped | Ampersand | Unmodelled

  /** The word being built, if any, and the tokens finished so far. */
  datatype Lexer = Lexer(mode: Mode, word: Option<string>, tokens: seq<Token>)

  const START := Lexer(Unquoted, None, [])

  function Grow(l: Lexer, mode: Mode, s: string): Lexer {
    Lexer(mode, Some((if l.word.Some? then l.word.value else "") + s), l.tokens)
  }

  function Flush(l: Lexer): Lexer {
    if l.word.Some? then Lexer(Unquoted, None, l.tokens + [Word(l.word.value)]) else l.(mode := Unquoted)
  }

  predicate Special(c: char) {
    || c == '$' || c == '`' || c == '|' || c == ';' || c == '<' || c == '>' || c == '(' || c == ')'
    || c == '*' || c == '?' || c == '[' || c == '#' || c == '~'
  }

  function ReadUnquoted(l: Lexer, c: char): Lexer {
    if c == '\'' then Grow(l, Single, "")
    else if c == '"' then Grow(l, Double, "")
    else if c == '\\' then l.(mode := Escaped)
    else if c == ' ' || c == '\t' then Flush(l)
    else if c == '\n' then var f := Flush(l); f.(tokens := f.tokens + [Newline])
    else if c == '&' then Flush(l).(mode := Ampersand)
    else if Special(c) then l.(mode := Unmodelled)
    else Grow(l, Unquoted, [c])
  }

  function Read(l: Lexer, c: char): Lexer {
    match l.mode
    case Unquoted => ReadUnquoted(l, c)
    case Escaped => if c == '\n' then l.(mode := Unquoted) else Grow(l, Unquoted, [c])
    case Single => if c == '\'' then l.(mode := Unquoted) else Grow(l, Single, [c])
    case Double =>
      if c == '"' then l.(mode := Unquoted)
      else if c == '\\' then l.(mode := DoubleEscaped)
      else if c == '$' || c == '`' then l.(mode := Unmodelled)
      else Grow(l, Double, [c])
    case DoubleEscaped =>
      if c == '\n' then l.(mode := Double)
      else if c == '$' || c == '`' || c == '"' || c == '\\' then Grow(l, Double, [c])
      else Grow(l, Double, ['\\', c])
    case Ampersand =>
      if c == '&' then Lexer(Unquoted, None, l.tokens + [AndIf])
      else ReadUnquoted(Lexer(Unquoted, None, l.tokens + [Background]), c)
    case Unmodelled => l
  }

  function ReadAll(l: Lexer, s: string): Lexer
    decreases s
  {
    if s == "" then l else ReadAll(Read(l, s[0]), s[1..])
  }

  lemma {:induction false} ReadAppend(l: Lexer, a: string, b: string)
    ensures ReadAll(l, a + b) == ReadAll(ReadAll(l, a), b)
    decreases a
  {
    if a == "" {
      assert a + b == b;
    } else {
      assert (a + b)[0] == a[0] && (a + b)[1..] == a[1..] + b;
      ReadAppend(Read(l, a[0]), a[1..], b);
    }
  }

  /** A quote character inside single quotes: leave them, write it in double quotes, and enter them again. */
  lemma ReadQuoteTrick(word: string, tokens: seq<Token>)
    ensures ReadAll(Lexer(Single, Some(word), tokens), "'\"'\"'") == Lexer(Single, Some(word + "'"), tokens)
  {
    var s := "'\"'\"'";
    assert s[1..] == "\"'\"'" && s[1..][1..] == "'\"'" && s[1..][1..][1..] == "\"'" && s[1..][1..][1..][1..] == "'";
    assert word + "" == word && word + "'" + "" == word + "'";
    var l := Lexer(Single, Some(word), tokens);
    assert ReadAll(l, s) == ReadAll(Lexer(Unquoted, Some(word), tokens), "\"'\"'");
    assert ReadAll(l, s) == ReadAll(Lexer(Double, Some(word), tokens), "'\"'");
    assert ReadAll(l, s) == ReadAll(Lexer(Double, Some(word + "'"), tokens), "\"'");
    assert ReadAll(l, s) == ReadAll(Lexer(Unquoted, Some(word + "'"), tokens), "'");
  }

  lemma {:induction false} ReadQuotedBody(word: string, value: string, tokens: seq<Token>)
    ensures ReadAll(Lexer(Single, Some(word), tokens), ReplaceAll(value, '\'', "'\"'\"'")) ==
            Lexer(Single, Some(word + value), tokens)
    decreases value
  {
    if value == "" {
      assert word + value == word;
    } else {
      var head := if value[0] == '\'' then "'\"'\"'" else [value[0]];
      ReadAppend(Lexer(Single, Some(word), tokens), head, ReplaceAll(value[1..], '\'', "'\"'\"'"));
      if value[0] == '\'' {
        ReadQuoteTrick(word, tokens);
      } else {
        assert head[1..] == "";
      }
      ReadQuotedBody(word + [value[0]], value[1..], tokens);
      assert word + [value[0]] + value[1..] == word + value;
    }
  }

  /** A quoted value is read as one word with exactly that value, from any place between words. */
  lemma ReadQuoted(value: string, tokens: seq<Token>)
    ensures ReadAll(Lexer(Unquoted, None, tokens), ShellQuote(value)) == Lexer(Unquoted, Some(value), tokens)
  {
    var body := ReplaceAll(value, '\'', "'\"'\"'");
    var l := Lexer(Unquoted, None, tokens);
    assert "'"[1..] == "" && "" + "" == "" && "" + value == value;
    ReadAppend(l, "'", body);
    ReadAppend(l, "'" + body, "'");
    ReadQuotedBody("", value, tokens);
  }

  predicate Ordinary(c: char) {
    !Special(c) && c != '\'' && c != '"' && c != '\\' && c != ' ' && c != '\t' && c != '\n' && c != '&'
  }

  lemma {:induction false} ReadOrdinary(word: string, s: string, tokens: seq<Token>)
    requires forall i | 0 <= i < |s| :: Ordinary(s[i])
    ensures ReadAll(Lexer(Unquoted, Some(word), tokens), s) == Lexer(Unquoted, Some(word + s), tokens)
    decreases s
  {
    if s == "" {
      assert word + s == word;
    } else {
      ReadOrdinary(word + [s[0]], s[1..], tokens);
      assert word + [s[0]] + s[1..] == word + s;
    }
  }

  lemma ReadFirst(c: char, tokens: seq<Token>)
    requires Ordinary(c)
    ensures Read(Lexer(Unquoted, None, tokens), c) == Lexer(Unquoted, Some([c]), tokens)
  {
    assert "" + [c] == [c];
  }

  lemma ReadOne(l: Lexer, c: char)
    ensures ReadAll(l, [c]) == Read(l, c)
  {
    assert [c][1..] == "" && [c][0] == c;
    assert ReadAll(Read(l, c), "") == Read(l, c);
  }

  lemma ReadBlank(w: string, tokens: seq<Token>)
    ensures ReadAll(Lexer(Unquoted, Some(w), tokens), [' ']) == Lexer(Unquoted, None, tokens + [Word(w)])
  {
    ReadOne(Lexer(Unquoted, Some(w), tokens), ' ');
  }

  /** A word without special characters and the blank after it. */
  lemma ReadWord(w: string, tokens: seq<Token>)
    requires w != "" && forall i | 0 <= i < |w| :: Ordinary(w[i])
    ensures ReadAll(Lexer(Unquoted, None, tokens), w + [' ']) == Lexer(Unquoted, None, tokens + [Word(w)])
  {
    var l := Lexer(Unquoted, None, tokens);
    ReadFirst(w[0], tokens);
    ReadOrdinary([w[0]], w[1..], tokens);
    assert [w[0]] + w[1..] == w;
    assert ReadAll(l, w) == Lexer(Unquoted, Some(w), tokens);
    ReadAppend(l, w, [' ']);
    ReadBlank(w, tokens);
  }

  lemma ReadChangeDirectory()
    ensures ReadAll(START, "cd -- ") == Lexer(Unquoted, None, [Word("cd"), Word("--")])
  {
    ReadWord("cd", []);
    ReadWord("--", [Word("cd")]);
    ReadAppend(START, "cd" + [' '], "--" + [' ']);
    assert "cd -- " == ("cd" + [' ']) + ("--" + [' ']);
    assert [] + [Word("cd")] == [Word("cd")] && [Word("cd")] + [Word("--")] == [Word("cd"), Word("--")];
  }

  lemma ReadAnd(word: string, tokens: seq<Token>)
    ensures ReadAll(Lexer(Unquoted, Some(word), tokens), " && ") == Lexer(Unquoted, None, tokens + [Word(word), AndIf])
  {
    var s := " && ";
    assert s[1..] == "&& " && "&& "[1..] == "& " && "& "[1..] == " " && " "[1..] == "";
    var flushed := tokens + [Word(word)];
    var l := Lexer(Unquoted, Some(word), tokens);
    assert ReadAll(l, s) == ReadAll(Lexer(Unquoted, None, flushed), "&& ");
    assert ReadAll(l, s) == ReadAll(Lexer(Ampersand, None, flushed), "& ");
    assert ReadAll(l, s) == ReadAll(Lexer(Unquoted, None, flushed + [AndIf]), " ");
    assert flushed + [AndIf] == tokens + [Word(word), AndIf];
  }

  /** Whatever the workspace contains, the shell reads the words `cd`, `--` and the workspace, then `&&`, and goes on
      with the command as if at the start of a line. */
  lemma LaunchReadsWorkspace(workspace: string, command: string)
    requires workspace != ""
    ensures ReadAll(START, LaunchCommand(Some(workspace), command)) ==
            ReadAll(Lexer(Unquoted, None, [Word("cd"), Word("--"), Word(workspace), AndIf]), command)
  {
    ReadAppend(START, "cd -- ", ShellQuote(workspace));
    ReadAppend(START, "cd -- " + ShellQuote(workspace), " && ");
    ReadAppend(START, "cd -- " + ShellQuote(workspace) + " && ", command);
    ReadChangeDirectory();
    ReadQuoted(workspace, [Word("cd"), Word("--")]);
    ReadAnd(workspace, [Word("cd"), Word("--")]);
    assert [Word("cd"), Word("--")] + [Word(workspace), AndIf] == [Word("cd"), Word("--"), Word(workspace), AndIf];
  }

  // ----- the script -----

  const OPENING := "tell application \"iTerm2\"\n  activate\n  create window with default profile\n"
  const TYPING := "  tell current session of current window to write text \""

  /** No command, no script; otherwise the literal that is typed reads back as the launch command and closes exactly
      before the script's last line. */
  method BuildAppleScript(command: Option<string>, workspace: Option<string>) returns (r: Option<string>)
    ensures r.None? <==> command.None? || command.value == ""
    ensures r.Some? ==>
              && OPENING + TYPING <= r.value
              && ReadLiteral(r.value[|OPENING + TYPING|..]) ==
                 Some((LaunchCommand(workspace, command.value), "\nend tell"))
  {
    if command.None? || command.value == "" {
      return None;
    }
    var launch := command.value;
    if workspace.Some? && workspace.value != "" {
      launch := "cd -- " + ShellQuote(workspace.value) + " && " + command.value;
    }
    var script := OPENING;
    script := script + Typed(launch);
    script := script + "end tell";
    ScriptReads(launch);
    return Some(script);
  }

  /** The line that types a command. */
  function Typed(launch: string): string {
    TYPING + EscapeAppleScript(launch) + "\"\n"
  }

  lemma ScriptReads(launch: string)
    ensures var script := OPENING + Typed(launch) + "end tell";
            OPENING + TYPING <= script && ReadLiteral(script[|OPENING + TYPING|..]) == Some((launch, "\nend tell"))
  {
    var head, script := OPENING + TYPING, OPENING + Typed(launch) + "end tell";
    Regroup(OPENING, TYPING, EscapeAppleScript(launch), "\"", "\n", "end tell");
    assert "\"" + "\n" == "\"\n" && "\n" + "end tell" == "\nend tell";
    LiteralRoundTrip(launch, "\nend tell");
    var body := EscapeAppleScript(launch) + "\"" + "\nend tell";
    assert script == head + body;
    assert script[|head|..] == body;
  }

  lemma Regroup(a: string, b: string, c: string, d: string, e: string, f: string)
    ensures a + (b + c + (d + e)) + f == (a + b) + (c + d + (e + f))
  {
  }
}
