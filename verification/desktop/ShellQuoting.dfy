/** How a command line travels: argv, quoted for a POSIX shell, put into an AppleScript string
    literal, handed to a terminal. The readers below are written from the standards, not from the
    quoting code: word recognition follows sections 2.2.1, 2.2.2 and 2.3 of the POSIX.1-2017 Shell
    Command Language, literals follow AppleScript's string escapes.
 */
module ShellQuoting {
  import opened Values

  // --- The quoting code ---

  predicate IsAsciiAlphanumeric(c: char) {
    'a' <= c <= 'z' || 'A' <= c <= 'Z' || '0' <= c <= '9'
  }

  predicate IsSafe(c: char) {
    IsAsciiAlphanumeric(c) || c in "_-./:@%+=,"
  }

  function Replace(s: string, c: char, with: string): string {
    if s == "" then "" else (if s[0] == c then with else [s[0]]) + Replace(s[1..], c, with)
  }

  /** Nothing in it needs quoting. */
  predicate IsBare(arg: string) {
    arg != "" && forall i :: 0 <= i < |arg| ==> IsSafe(arg[i])
  }

  function ShellQuote(arg: string): string {
    if IsBare(arg) then arg else "'" + Replace(arg, '\'', "'\\''") + "'"
  }

  function ShellJoin(argv: seq<string>): string {
    if argv == [] then ""
    else if |argv| == 1 then ShellQuote(argv[0])
    else ShellQuote(argv[0]) + " " + ShellJoin(argv[1..])
  }

  function AppleScriptEscape(s: string): string {
    Replace(Replace(s, '\\', "\\\\"), '"', "\\\"")
  }

  // --- POSIX word recognition ---

  /** Where the reader is: between words, in a word, inside single quotes, or right after an
      unquoted backslash (with a word begun or not). */
  datatype Mode = Between | InWord | Quoted | Escaped(begun: bool)

  /** A word as written, and after quote removal. */
  datatype Word = Word(raw: string, text: string)

  predicate IsBlank(c: char) {
    c == ' ' || c == '\t'
  }

  /** Characters that do something when they are not quoted: operators, newlines, expansions,
      patterns and double quotes. */
  predicate IsActive(c: char) {
    c in "|&;<>()$`\"*?[\n"
  }

  /** These do something only at the start of a word: comments and tilde expansion. */
  predicate IsActiveFirst(c: char) {
    c in "#~"
  }

  /** The words of a command line, after the part w of one, or nothing when it ends inside a
      quotation or when some unquoted character is an operator, an expansion or a pattern. */
  function Words(s: string, mode: Mode, w: Word): Option<seq<Word>>
    decreases |s|
  {
    if s == "" then
      if mode.Between? then Some([]) else if mode.InWord? then Some([w]) else None
    else
      var c, rest := s[0], s[1..];
      if mode.Quoted? then
        if c == '\'' then Words(rest, InWord, Word(w.raw + [c], w.text))
        else Words(rest, Quoted, Word(w.raw + [c], w.text + [c]))
      else if mode.Escaped? then
        if c == '\n' then Words(rest, if mode.begun then InWord else Between, w)
        else Words(rest, InWord, Word(w.raw + ['\\', c], w.text + [c]))
      else if IsBlank(c) then
        var more := Words(rest, Between, Word("", ""));
        if mode.Between? || more.None? then more else Some([w] + more.value)
      else if c == '\'' then Words(rest, Quoted, Word(w.raw + [c], w.text))
      else if c == '\\' then Words(rest, Escaped(mode.InWord?), w)
      else if IsActive(c) || (mode.Between? && IsActiveFirst(c)) then None
      else Words(rest, InWord, Word(w.raw + [c], w.text + [c]))
  }

  function Texts(words: seq<Word>): seq<string> {
    seq(|words|, i requires 0 <= i < |words| => words[i].text)
  }

  function ShellWords(s: string): Option<seq<string>> {
    var words := Words(s, Between, Word("", ""));
    if words.None? then None else Some(Texts(words.value))
  }

  lemma Regroup(a: string, b: string, c: string)
    ensures a + (b + c) == a + b + c
  {
  }

  lemma {:induction false} SafeIsRead(arg: string, rest: string, w: Word, mode: Mode)
    requires IsBare(arg) && (mode.InWord? || (mode.Between? && w == Word("", "")))
    ensures Words(arg + rest, mode, w) == Words(rest, InWord, Word(w.raw + arg, w.text + arg))
    decreases |arg|
  {
    assert IsSafe(arg[0]);
    assert (arg + rest)[1..] == arg[1..] + rest;
    var next := Word(w.raw + [arg[0]], w.text + [arg[0]]);
    assert [arg[0]] + arg[1..] == arg;
    if |arg| > 1 {
      SafeIsRead(arg[1..], rest, next, InWord);
      Regroup(w.raw, [arg[0]], arg[1..]);
      Regroup(w.text, [arg[0]], arg[1..]);
    } else {
      assert arg[1..] + rest == rest && [arg[0]] == arg;
    }
  }

  lemma {:induction false} QuotedIsRead(arg: string, rest: string, w: Word)
    ensures var body := Replace(arg, '\'', "'\\''") + "'";
            Words(body + rest, Quoted, w) == Words(rest, InWord, Word(w.raw + body, w.text + arg))
    decreases |arg|
  {
    var body := Replace(arg, '\'', "'\\''") + "'";
    var s := body + rest;
    if arg == "" {
      assert body == ['\''] && s[1..] == rest && w.text + arg == w.text;
    } else {
      var less := Replace(arg[1..], '\'', "'\\''") + "'";
      assert [arg[0]] + arg[1..] == arg;
      if arg[0] == '\'' {
        QuoteInside(less + rest, w);
        QuotedIsRead(arg[1..], rest, Word(w.raw + "'\\''", w.text + "'"));
        assert body == "'\\''" + less;
        assert s == "'\\''" + (less + rest);
        Regroup(w.raw, "'\\''", less);
        Regroup(w.text, "'", arg[1..]);
      } else {
        QuotedIsRead(arg[1..], rest, Word(w.raw + [arg[0]], w.text + [arg[0]]));
        assert body == [arg[0]] + less;
        assert s[1..] == less + rest;
        Regroup(w.raw, [arg[0]], less);
        Regroup(w.text, [arg[0]], arg[1..]);
      }
    }
  }

  lemma OpenQuote(rest: string, w: Word)
    ensures Words(['\''] + rest, InWord, w) == Words(rest, Quoted, Word(w.raw + ['\''], w.text))
  {
    assert (['\''] + rest)[1..] == rest;
  }

  lemma CloseQuote(rest: string, w: Word)
    ensures Words(['\''] + rest, Quoted, w) == Words(rest, InWord, Word(w.raw + ['\''], w.text))
  {
    assert (['\''] + rest)[1..] == rest;
  }

  lemma EscapedQuote(rest: string, w: Word)
    ensures Words(['\\'] + (['\''] + rest), InWord, w) ==
            Words(rest, InWord, Word(w.raw + ['\\', '\''], w.text + ['\'']))
  {
    var tail := ['\''] + rest;
    assert (['\\'] + tail)[1..] == tail && tail[1..] == rest;
    assert Words(['\\'] + tail, InWord, w) == Words(tail, Escaped(true), w);
  }

  lemma FourCharacters(tail: string)
    ensures "'\\''" + tail == ['\''] + (['\\'] + (['\''] + (['\''] + tail)))
  {
  }

  lemma FourMore(raw: string)
    ensures raw + ['\''] + ['\\', '\''] + ['\''] == raw + "'\\''"
  {
  }

  /** Leaving the quotation, an escaped quote, and entering it again. */
  lemma QuoteInside(tail: string, w: Word)
    ensures Words("'\\''" + tail, Quoted, w) == Words(tail, Quoted, Word(w.raw + "'\\''", w.text + "'"))
  {
    FourCharacters(tail);
    FourMore(w.raw);
    CloseQuote(['\\'] + (['\''] + (['\''] + tail)), w);
    EscapedQuote(['\''] + tail, Word(w.raw + ['\''], w.text));
    OpenQuote(tail, Word(w.raw + ['\''] + ['\\', '\''], w.text + ['\'']));
  }

  /** A quoted argument is read as one word, from the start of a word up to whatever follows. */
  lemma QuoteIsRead(arg: string, rest: string)
    ensures Words(ShellQuote(arg) + rest, Between, Word("", "")) == Words(rest, InWord, Word(ShellQuote(arg), arg))
  {
    if IsBare(arg) {
      SafeIsRead(arg, rest, Word("", ""), Between);
      assert "" + arg == arg;
    } else {
      var body := Replace(arg, '\'', "'\\''") + "'";
      assert ShellQuote(arg) == ['\''] + body;
      assert (ShellQuote(arg) + rest)[1..] == body + rest;
      assert "" + ['\''] == ['\''] && "" + arg == arg;
      QuotedIsRead(arg, rest, Word(['\''], ""));
    }
  }

  /** Each argument as it stands on the line. */
  function WordsOf(argv: seq<string>): seq<Word> {
    seq(|argv|, i requires 0 <= i < |argv| => Word(ShellQuote(argv[i]), argv[i]))
  }

  /** A blank ends a word. */
  lemma BlankIsRead(rest: string, w: Word)
    ensures var more := Words(rest, Between, Word("", ""));
            Words(" " + rest, InWord, w) == if more.None? then None else Some([w] + more.value)
  {
    assert (" " + rest)[1..] == rest;
  }

  lemma {:induction false} OneWordMore(arg: string, argv: seq<string>)
    requires argv != [] && Words(ShellJoin(argv), Between, Word("", "")) == Some(WordsOf(argv))
    ensures Words(ShellJoin([arg] + argv), Between, Word("", "")) == Some(WordsOf([arg] + argv))
  {
    QuoteIsRead(arg, " " + ShellJoin(argv));
    BlankIsRead(ShellJoin(argv), Word(ShellQuote(arg), arg));
    JoinOneMore(arg, argv);
    WordsOneMore(arg, argv);
  }

  lemma {:induction false} JoinOneMore(arg: string, argv: seq<string>)
    requires argv != []
    ensures ShellJoin([arg] + argv) == ShellQuote(arg) + (" " + ShellJoin(argv))
  {
    assert ([arg] + argv)[1..] == argv;
    Regroup(ShellQuote(arg), " ", ShellJoin(argv));
  }

  lemma WordsOneMore(arg: string, argv: seq<string>)
    ensures WordsOf([arg] + argv) == [Word(ShellQuote(arg), arg)] + WordsOf(argv)
  {
  }

  lemma {:induction false} JoinIsRead(argv: seq<string>)
    ensures Words(ShellJoin(argv), Between, Word("", "")) == Some(WordsOf(argv))
  {
    if argv == [] {
      assert WordsOf(argv) == [];
    } else if |argv| == 1 {
      QuoteIsRead(argv[0], "");
      assert ShellQuote(argv[0]) + "" == ShellQuote(argv[0]);
      assert WordsOf(argv) == [Word(ShellQuote(argv[0]), argv[0])];
    } else {
      JoinIsRead(argv[1..]);
      OneWordMore(argv[0], argv[1..]);
      assert [argv[0]] + argv[1..] == argv;
    }
  }

  /** Quoting round trip: POSIX word recognition gives back exactly argv from the joined line, for
      every argv, and no unquoted character of it is an operator, an expansion or a pattern. */
  lemma ShellRoundTrip(argv: seq<string>)
    ensures ShellWords(ShellJoin(argv)) == Some(argv)
  {
    JoinIsRead(argv);
    assert Texts(WordsOf(argv)) == argv;
  }

  /** A plain command needs no quoting at all. */
  lemma PlainStaysPlain()
    ensures ShellJoin(["ssh", "web"]) == "ssh web"
  {
    assert IsBare("ssh") && IsBare("web");
    assert ["ssh", "web"][1..] == ["web"];
  }

  /** Two command lines are the same only if the commands are. */
  lemma ShellJoinInjective(a: seq<string>, b: seq<string>)
    requires ShellJoin(a) == ShellJoin(b)
    ensures a == b
  {
    ShellRoundTrip(a);
    ShellRoundTrip(b);
  }

  // --- What a shell makes of the words ---

  /** The reserved words of section 2.4. */
  const RESERVED: set<string> :=
    {"!", "{", "}", "case", "do", "done", "elif", "else", "esac", "fi", "for", "if", "in", "then", "until", "while"}

  predicate IsName(s: string) {
    && s != "" && !('0' <= s[0] <= '9')
    && forall i :: 0 <= i < |s| ==> IsAsciiAlphanumeric(s[i]) || s[i] == '_'
  }

  /** As written, it starts with a name and an equals sign (rule 7 of section 2.10.2). */
  predicate IsAssignment(raw: string) {
    exists i :: 0 < i < |raw| && raw[i] == '=' && IsName(raw[..i])
  }

  datatype Command = Simple(assignments: seq<string>, argv: seq<string>) | Keyword(word: string)

  function Assignments(words: seq<Word>): (n: nat)
    ensures n <= |words|
  {
    if words == [] || !IsAssignment(words[0].raw) then 0 else 1 + Assignments(words[1..])
  }

  /** `keywords` are the words that mean something else to this shell when they come first and
      unquoted: reserved words, and perhaps aliases. */
  function Understood(words: seq<Word>, keywords: set<string>): Command {
    if words != [] && words[0].raw == words[0].text && words[0].text in keywords then Keyword(words[0].text)
    else Simple(Texts(words[..Assignments(words)]), Texts(words[Assignments(words)..]))
  }

  function ShellRuns(line: string, keywords: set<string>): Option<Command> {
    var words := Words(line, Between, Word("", ""));
    if words.None? then None else Some(Understood(words.value, keywords))
  }

  /** The first argument needs no quoting and is a keyword or looks like an assignment. */
  predicate Misread(argv: seq<string>, keywords: set<string>) {
    argv != [] && IsBare(argv[0]) && (argv[0] in keywords || IsAssignment(argv[0]))
  }

  lemma {:induction false} ReplaceGrows(s: string, c: char, with: string)
    requires |with| >= 1
    ensures |Replace(s, c, with)| >= |s|
  {
    if s != "" {
      ReplaceGrows(s[1..], c, with);
    }
  }

  /** A quoted argument is neither a keyword nor an assignment. */
  lemma QuotedIsNeither(arg: string)
    requires !IsBare(arg)
    ensures ShellQuote(arg) != arg && !IsAssignment(ShellQuote(arg))
  {
    var raw := ShellQuote(arg);
    ReplaceGrows(arg, '\'', "'\\''");
    assert |raw| >= |arg| + 2 && raw[0] == '\'';
    forall i | 0 < i < |raw| ensures !IsName(raw[..i]) {
      assert raw[..i][0] == '\'';
    }
  }

  /** What the shell runs is argv exactly unless its first argument is misread. */
  lemma ShellRunsIff(argv: seq<string>, keywords: set<string>)
    ensures ShellRuns(ShellJoin(argv), keywords) == Some(Simple([], argv)) <==> !Misread(argv, keywords)
  {
    var words := WordsOf(argv);
    var n := Assignments(words);
    JoinIsRead(argv);
    assert Texts(words) == argv;
    if argv != [] {
      assert words[0] == Word(ShellQuote(argv[0]), argv[0]);
      if !IsBare(argv[0]) {
        QuotedIsNeither(argv[0]);
      }
    }
    if n == 0 {
      assert words[..n] == [] && words[n..] == words && Texts(words[..n]) == [];
    } else {
      assert |Texts(words[..n])| > 0;
    }
  }

  /** A first argument like an assignment is assigned, and the rest is run. */
  lemma AssignmentIsNotRun(first: string, rest: seq<string>, keywords: set<string>)
    requires IsBare(first) && IsAssignment(first) && first !in keywords
    requires rest != [] ==> !IsAssignment(ShellQuote(rest[0]))
    ensures ShellRuns(ShellJoin([first] + rest), keywords) == Some(Simple([first], rest))
  {
    var argv := [first] + rest;
    var words := WordsOf(argv);
    JoinIsRead(argv);
    assert rest != [] ==> words[1..][0] == Word(ShellQuote(rest[0]), rest[0]);
    assert Assignments(words[1..]) == 0;
    assert Texts(words[..1]) == [first] && Texts(words[1..]) == rest;
  }

  lemma SomeAssignment()
    ensures IsBare("A=1") && IsAssignment("A=1") && "A=1" !in RESERVED
  {
    assert "A=1"[..1] == "A" && IsName("A");
  }

  lemma NoAssignment()
    ensures !IsAssignment(ShellQuote("ls"))
  {
    assert IsBare("ls");
  }

  /** For example, this sets A and runs ls. */
  lemma AssignmentExample()
    ensures ShellRuns(ShellJoin(["A=1", "ls"]), RESERVED) == Some(Simple(["A=1"], ["ls"]))
  {
    SomeAssignment();
    NoAssignment();
    AssignmentIsNotRun("A=1", ["ls"], RESERVED);
    assert ["A=1"] + ["ls"] == ["A=1", "ls"];
  }

  /** And this runs nothing. */
  lemma ReservedWordExample()
    ensures ShellRuns(ShellJoin(["if"]), RESERVED) == Some(Keyword("if"))
  {
    JoinIsRead(["if"]);
    assert IsBare("if");
  }

  // --- AppleScript literals ---

  /** The text of a string literal whose opening quote was just read, and what follows its closing
      quote. */
  function ReadLiteral(s: string): Option<(string, string)> {
    if s == "" then None
    else if s[0] == '"' then Some(("", s[1..]))
    else
      var escaped := s[0] == '\\';
      if escaped && |s| == 1 then None
      else
        var c := if !escaped then s[0] else
          match s[1] case 'n' => '\n' case 't' => '\t' case 'r' => '\r' case other => other;
        if escaped && s[1] !in "ntr\\\"" then None
        else
          var more := ReadLiteral(if escaped then s[2..] else s[1..]);
          if more.None? then None else Some(([c] + more.value.0, more.value.1))
  }

  lemma {:induction false} ReplaceAppend(a: string, b: string, c: char, with: string)
    ensures Replace(a + b, c, with) == Replace(a, c, with) + Replace(b, c, with)
  {
    if a == "" {
      assert a + b == b;
    } else {
      ReplaceAppend(a[1..], b, c, with);
      assert (a + b)[1..] == a[1..] + b;
      var first := if a[0] == c then with else [a[0]];
      Regroup(first, Replace(a[1..], c, with), Replace(b, c, with));
      assert Replace(a + b, c, with) == first + Replace(a[1..] + b, c, with);
    }
  }

  /** Escaping, character by character: the two passes do not disturb each other. */
  lemma EscapeOfFirst(s: string)
    requires s != ""
    ensures AppleScriptEscape(s) ==
            (if s[0] == '\\' then "\\\\" else if s[0] == '"' then "\\\"" else [s[0]]) + AppleScriptEscape(s[1..])
  {
    var first := if s[0] == '\\' then "\\\\" else [s[0]];
    ReplaceAppend(first, Replace(s[1..], '\\', "\\\\"), '"', "\\\"");
    if s[0] == '\\' {
      ReplaceAppend("\\", "\\", '"', "\\\"");
      assert first == "\\" + "\\";
    }
  }

  /** The literal around an escaped string reads back as that string, and ends exactly at its own
      closing quote. */
  lemma {:induction false} LiteralRoundTrip(s: string, rest: string)
    ensures ReadLiteral(AppleScriptEscape(s) + "\"" + rest) == Some((s, rest))
    decreases |s|
  {
    var t := AppleScriptEscape(s) + "\"" + rest;
    if s == "" {
      assert t == "\"" + rest && t[1..] == rest;
    } else {
      EscapeOfFirst(s);
      var tail := AppleScriptEscape(s[1..]) + "\"" + rest;
      LiteralRoundTrip(s[1..], rest);
      assert [s[0]] + s[1..] == s;
      if s[0] == '\\' {
        assert t == "\\\\" + tail && t[2..] == tail;
      } else if s[0] == '"' {
        assert t == "\\\"" + tail && t[2..] == tail;
      } else {
        assert t == [s[0]] + tail && t[1..] == tail;
      }
    }
  }

  // --- Launching ---

  datatype LaunchSpec = LaunchSpec(program: string, args: seq<string>)

  datatype LaunchError = EmptyCommand | UnknownTerminal(id: string)

  function LinuxArgs(id: string, argv: seq<string>): Option<seq<string>> {
    if id == "ptyxis" || id == "gnome-terminal" then Some(["--"] + argv)
    else if id == "konsole" || id == "alacritty" || id == "xterm" then Some(["-e"] + argv)
    else if id == "kitty" || id == "foot" then Some(argv)
    else if id == "wezterm" then Some(["start", "--"] + argv)
    else if id == "xfce4-terminal" then Some(["-e", ShellJoin(argv)])
    else None
  }

  const DO_SCRIPT := "tell application \"Terminal\" to do script \""
  const ITERM_WINDOW := "tell application \"iTerm2\" to create window with default profile command \""
  const ITERM_TAB := "tell current window to create tab with default profile command \""
  const ITERM_TAB_WINDOW := "create window with default profile command \""

  /** A script in lines: a tab of the current window, or a window when there is none. */
  function ItermTabArgs(literal: string): seq<string> {
    ["-e", "tell application \"iTerm2\"", "-e", "activate", "-e", "if (count of windows) > 0 then",
     "-e", ITERM_TAB + literal, "-e", "else", "-e", ITERM_TAB_WINDOW + literal, "-e", "end if", "-e", "end tell"]
  }

  /** `term` and `base` are $TERMINAL and its last path component. */
  function BuildLaunchCommand(id: string, argv: seq<string>, newTab: bool, term: string, base: string)
    : Result<LaunchSpec, LaunchError>
  {
    var literal := AppleScriptEscape(ShellJoin(argv)) + "\"";
    if argv == [] then Err(EmptyCommand)
    else if id == "terminal" then
      Ok(LaunchSpec("osascript", ["-e", "tell application \"Terminal\" to activate", "-e", DO_SCRIPT + literal]))
    else if id == "iterm2" && newTab then
      Ok(LaunchSpec("osascript", ItermTabArgs(literal)))
    else if id == "iterm2" then
      Ok(LaunchSpec("osascript", ["-e", "tell application \"iTerm2\" to activate", "-e", ITERM_WINDOW + literal]))
    else if id == "env" then
      var args := LinuxArgs(base, argv);
      Ok(LaunchSpec(if base == "" then term else base, if args.Some? then args.value else ["-e"] + argv))
    else if id == "wt" then
      Ok(LaunchSpec("wt.exe", (if newTab then ["-w", "0", "nt"] else []) + argv))
    else if id == "cmd" then
      Ok(LaunchSpec("cmd", ["/c", "start", "", "cmd", "/k"] + argv))
    else
      var args := LinuxArgs(id, argv);
      if args.Some? then Ok(LaunchSpec(id, args.value)) else Err(UnknownTerminal(id))
  }

  /** What one script line hands to the shell: the text of the literal that ends the line. */
  function ScriptText(line: string, before: string): Option<string> {
    if !(before <= line) then None else
      var literal := ReadLiteral(line[|before|..]);
      if literal.None? || literal.value.1 != "" then None else Some(literal.value.0)
  }

  lemma ScriptDelivers(before: string, argv: seq<string>)
    ensures ScriptText(before + (AppleScriptEscape(ShellJoin(argv)) + "\""), before) == Some(ShellJoin(argv))
  {
    var line := before + (AppleScriptEscape(ShellJoin(argv)) + "\"");
    LiteralRoundTrip(ShellJoin(argv), "");
    assert line[|before|..] == AppleScriptEscape(ShellJoin(argv)) + "\"" + "";
  }

  /** The script line hands over a command line whose words are argv; a shell runs it as argv
      exactly unless the first argument is misread. */
  predicate ScriptCarries(line: string, before: string, argv: seq<string>, keywords: set<string>) {
    var text := ScriptText(line, before);
    && text.Some? && ShellWords(text.value) == Some(argv)
    && (ShellRuns(text.value, keywords) == Some(Simple([], argv)) <==> !Misread(argv, keywords))
  }

  /** The arguments after the first one that is this word. */
  function Following(args: seq<string>, word: string): Option<seq<string>> {
    if args == [] then None else if args[0] == word then Some(args[1..]) else Following(args[1..], word)
  }

  /** A dash alone is an operand to foot, which reads its options with getopt. */
  predicate LooksLikeOption(name: string, arg: string) {
    arg != "" && arg[0] == '-' && (name == "foot" ==> |arg| > 1)
  }

  /** What an emulator of this name executes, as its own command line is read: all that follows `--`
      or `-e`, or everything from the first argument that is no option on. */
  function EmulatorRuns(name: string, args: seq<string>): Option<seq<string>> {
    if name == "ptyxis" || name == "gnome-terminal" then Following(args, "--")
    else if name == "wezterm" then (if args == [] || args[0] != "start" then None else Following(args[1..], "--"))
    else if name == "kitty" || name == "foot" then
      if args == [] || LooksLikeOption(name, args[0]) then None else Some(args)
    else if name == "xfce4-terminal" then
      var line := Following(args, "-e");
      if line.None? || |line.value| != 1 then None else ShellWords(line.value[0])
    else Following(args, "-e")
  }

  /** These emulators are given the command with nothing before it. */
  predicate TakenForOption(name: string, argv: seq<string>) {
    (name == "kitty" || name == "foot") && argv != [] && LooksLikeOption(name, argv[0])
  }

  predicate EndsWith(args: seq<string>, argv: seq<string>) {
    |argv| <= |args| && args[|args| - |argv|..] == argv
  }

  /** Both branches of the script carry argv. */
  predicate TabCarries(args: seq<string>, argv: seq<string>, keywords: set<string>) {
    && |args| == 16 && args[5] == "if (count of windows) > 0 then" && args[9] == "else" && args[13] == "end if"
    && ScriptCarries(args[7], "tell current window to create tab with default profile command \"", argv, keywords)
    && ScriptCarries(args[11], "create window with default profile command \"", argv, keywords)
  }

  lemma TabArgsCarry(argv: seq<string>, keywords: set<string>)
    ensures TabCarries(ItermTabArgs(AppleScriptEscape(ShellJoin(argv)) + "\""), argv, keywords)
  {
    LineCarries(ITERM_TAB, argv, keywords);
    LineCarries(ITERM_TAB_WINDOW, argv, keywords);
  }

  /** The arguments of a launch carry argv: through both layers of quoting where there is a script,
      and as the emulator reads its own arguments otherwise. */
  predicate Delivers(
    id: string, newTab: bool, base: string, args: seq<string>, argv: seq<string>, keywords: set<string>)
  {
    var name := if id == "env" then base else id;
    if id == "terminal" then
      && |args| == 4 && args[1] == "tell application \"Terminal\" to activate" && args[0] == args[2] == "-e"
      && ScriptCarries(args[3], "tell application \"Terminal\" to do script \"", argv, keywords)
    else if id == "iterm2" && newTab then TabCarries(args, argv, keywords)
    else if id == "iterm2" then
      && |args| == 4 && args[1] == "tell application \"iTerm2\" to activate" && args[0] == args[2] == "-e"
      && ScriptCarries(
           args[3], "tell application \"iTerm2\" to create window with default profile command \"", argv, keywords)
    else if id == "wt" || id == "cmd" then EndsWith(args, argv)
    else EmulatorRuns(name, args) == Some(argv) <==> !TakenForOption(name, argv)
  }

  lemma EmulatorGetsArgv(name: string, argv: seq<string>)
    requires argv != []
    ensures var args := LinuxArgs(name, argv);
            EmulatorRuns(name, if args.Some? then args.value else ["-e"] + argv) == Some(argv) <==>
            !TakenForOption(name, argv)
  {
    ShellRoundTrip(argv);
    assert (["start", "--"] + argv)[1..] == ["--"] + argv;
  }

  /** For example, both take this command for an option of their own. */
  lemma OptionExample(name: string, newTab: bool, term: string, base: string)
    requires name == "kitty" || name == "foot"
    ensures var r := BuildLaunchCommand(name, ["-v"], newTab, term, base);
            r.Ok? && EmulatorRuns(name, r.value.args).None?
  {
  }

  lemma LineCarries(before: string, argv: seq<string>, keywords: set<string>)
    ensures ScriptCarries(before + (AppleScriptEscape(ShellJoin(argv)) + "\""), before, argv, keywords)
  {
    ScriptDelivers(before, argv);
    ShellRoundTrip(argv);
    ShellRunsIff(argv, keywords);
  }

  lemma TerminalDelivers(argv: seq<string>, newTab: bool, term: string, base: string, keywords: set<string>)
    requires argv != []
    ensures var r := BuildLaunchCommand("terminal", argv, newTab, term, base);
            r.Ok? && Delivers("terminal", newTab, base, r.value.args, argv, keywords)
  {
    LineCarries(DO_SCRIPT, argv, keywords);
  }

  lemma WindowDelivers(argv: seq<string>, term: string, base: string, keywords: set<string>)
    requires argv != []
    ensures var r := BuildLaunchCommand("iterm2", argv, false, term, base);
            r.Ok? && Delivers("iterm2", false, base, r.value.args, argv, keywords)
  {
    LineCarries(ITERM_WINDOW, argv, keywords);
  }

  lemma TabDelivers(argv: seq<string>, term: string, base: string, keywords: set<string>)
    requires argv != []
    ensures var r := BuildLaunchCommand("iterm2", argv, true, term, base);
            r.Ok? && Delivers("iterm2", true, base, r.value.args, argv, keywords)
  {
    TabArgsCarry(argv, keywords);
  }

  lemma DirectLaunchDelivers(
    id: string, argv: seq<string>, newTab: bool, term: string, base: string, keywords: set<string>)
    requires argv != [] && id != "terminal" && id != "iterm2"
    ensures var r := BuildLaunchCommand(id, argv, newTab, term, base);
            if r.Ok? then Delivers(id, newTab, base, r.value.args, argv, keywords) else r.error == UnknownTerminal(id)
  {
    if id == "env" {
      EmulatorGetsArgv(base, argv);
    } else if id != "wt" && id != "cmd" {
      EmulatorGetsArgv(id, argv);
    }
  }

  /** Whatever the terminal, a launch that is built carries argv; an empty command, and only that,
      is refused as empty. */
  lemma LaunchDeliversArgv(
    id: string, argv: seq<string>, newTab: bool, term: string, base: string, keywords: set<string>)
    ensures argv == [] <==> BuildLaunchCommand(id, argv, newTab, term, base) == Err(EmptyCommand)
    ensures var r := BuildLaunchCommand(id, argv, newTab, term, base);
            r.Ok? ==> Delivers(id, newTab, base, r.value.args, argv, keywords)
  {
    if argv != [] {
      if id == "terminal" {
        TerminalDelivers(argv, newTab, term, base, keywords);
      } else if id == "iterm2" && newTab {
        TabDelivers(argv, term, base, keywords);
      } else if id == "iterm2" {
        WindowDelivers(argv, term, base, keywords);
      } else {
        DirectLaunchDelivers(id, argv, newTab, term, base, keywords);
      }
    }
  }

  const KNOWN_TERMINALS: set<string> :=
    {"terminal", "iterm2", "env", "wt", "cmd", "ptyxis", "gnome-terminal", "konsole", "kitty", "alacritty", "wezterm",
     "foot", "xfce4-terminal", "xterm"}

  /** A command is launched exactly in the known terminals, and by their own programs: the scripts by
      osascript, $TERMINAL by the last component of its path, any other by its own name. */
  lemma LaunchesIff(id: string, argv: seq<string>, newTab: bool, term: string, base: string)
    requires argv != []
    ensures var r := BuildLaunchCommand(id, argv, newTab, term, base);
            && (r.Ok? <==> id in KNOWN_TERMINALS)
            && (r.Err? ==> r.error == UnknownTerminal(id))
            && (r.Ok? ==>
                  r.value.program ==
                  if id == "terminal" || id == "iterm2" then "osascript"
                  else if id == "wt" then "wt.exe"
                  else if id == "env" then (if base == "" then term else base)
                  else id)
  {
  }
}
