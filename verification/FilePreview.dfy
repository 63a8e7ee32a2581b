/**
 Quoting for the remote shell (`rust-core/src/file_preview.rs:127-134`) against the word splitting
 rules of the POSIX Shell Command Language.
 */
module ShellWords {
  import opened Wrappers

  predicate Safe(c: char) {
    || 'a' <= c <= 'z' || 'A' <= c <= 'Z' || '0' <= c <= '9'
    || c == '-' || c == '_' || c == '.' || c == '/' || c == ':' || c == '~'
  }

  /** Every `'` replaced by `'\''`. */
  function Escaped(arg: string): string {
    if arg == [] then []
    else (if arg[0] == '\'' then ['\'', '\\', '\'', '\''] else [arg[0]]) + Escaped(arg[1..])
  }

  predicate LooksSafe(arg: string) {
    arg != [] && forall i :: 0 <= i < |arg| ==> Safe(arg[i])
  }

  function ShellQuote(arg: string): string {
    if LooksSafe(arg) then arg
    else ['\''] + Escaped(arg) + ['\'']
  }

  /** Arguments separated by single spaces. */
  function Joined(args: seq<string>): string {
    if args == [] then []
    else if |args| == 1 then args[0]
    else args[0] + [' '] + Joined(args[1..])
  }

  function QuotedLine(args: seq<string>): string {
    Joined(seq(|args|, i requires 0 <= i < |args| => ShellQuote(args[i])))
  }

  // ---- The shell ----

  /** Characters that a shell gives a meaning to when they are not quoted (section 2.2). */
  predicate Special(c: char) {
    c in {'|', '&', ';', '<', '>', '(', ')', '$', '`', '\"', '\n', '*', '?', '[', '#', '=', '%', '!', '{', '}'}
  }

  /** A character of a word, and whether it was quoted. */
  datatype Letter = Letter(letter: char, quoted: bool)

  type Word = seq<Letter>

  /**
   The words of a line by sections 2.2.1 (backslash), 2.2.2 (single quotes) and 2.3 (token
   recognition).  `word` is the word being read.  A line in which another construct of the shell
   appears has no words here.
   */
  function Words(line: string, word: Option<Word>): Option<seq<Word>>
    decreases |line|
  {
    if line == [] then Some(if word.Some? then [word.value] else [])
    else
      var sofar := if word.Some? then word.value else [];
      var c, rest := line[0], line[1..];
      if c == ' ' || c == '\t' then
        var words := Words(rest, None);
        if words.None? then None else Some((if word.Some? then [word.value] else []) + words.value)
      else if c == '\'' then InQuotes(rest, sofar)
      else if c == '\\' then
        if rest == [] then None
        else if rest[0] == '\n' then Words(rest[1..], word)
        else Words(rest[1..], Some(sofar + [Letter(rest[0], true)]))
      else if Special(c) then None
      else Words(rest, Some(sofar + [Letter(c, false)]))
  }

  /** Inside single quotes every character stands for itself. */
  function InQuotes(line: string, word: Word): Option<seq<Word>>
    decreases |line|
  {
    if line == [] then None
    else if line[0] == '\'' then Words(line[1..], Some(word))
    else InQuotes(line[1..], word + [Letter(line[0], true)])
  }

  function Text(word: Word): string {
    seq(|word|, i requires 0 <= i < |word| => word[i].letter)
  }

  /** The replacement of each tilde-prefix: the home directory it names, or itself. */
  type Homes = string -> string

  /** Length of the tilde-prefix: up to the first unquoted slash (section 2.6.1). */
  function PrefixLength(word: Word): (n: nat)
    ensures n <= |word|
  {
    if word == [] || word[0] == Letter('/', false) then 0 else 1 + PrefixLength(word[1..])
  }

  /** A word begins with a tilde-prefix if its first character is an unquoted tilde and none of the prefix is quoted. */
  predicate HasTildePrefix(word: Word) {
    word != [] && word[0] == Letter('~', false) && forall i :: 0 <= i < PrefixLength(word) ==> !word[i].quoted
  }

  /** Tilde expansion and quote removal (sections 2.6.1 and 2.6.7). */
  function Field(homes: Homes, word: Word): string {
    var n := PrefixLength(word);
    if HasTildePrefix(word) then homes(Text(word[..n])) + Text(word[n..]) else Text(word)
  }

  /** The fields that the shell makes of a line. */
  function Fields(homes: Homes, line: string): Option<seq<string>> {
    var words := Words(line, None);
    if words.None? then None
    else Some(seq(|words.value|, i requires 0 <= i < |words.value| => Field(homes, words.value[i])))
  }

  // ---- Splitting undoes quoting ----

  /** The argument as a word, all of it quoted or none. */
  function Letters(arg: string, quoted: bool): Word {
    seq(|arg|, i requires 0 <= i < |arg| => Letter(arg[i], quoted))
  }

  /** The word that the shell reads for an argument. */
  function WordOf(arg: string): Word {
    Letters(arg, !LooksSafe(arg))
  }

  lemma LettersAppend(word: Word, arg: string, quoted: bool)
    requires arg != []
    ensures word + [Letter(arg[0], quoted)] + Letters(arg[1..], quoted) == word + Letters(arg, quoted)
  {
  }

  lemma {:induction false} SafeCharactersAreLiteral(arg: string, rest: string, word: Word)
    requires forall i :: 0 <= i < |arg| ==> Safe(arg[i])
    ensures Words(arg + rest, Some(word)) == Words(rest, Some(word + Letters(arg, false)))
    decreases |arg|
  {
    if arg == [] {
      assert arg + rest == rest && word + Letters(arg, false) == word;
    } else {
      assert (arg + rest)[0] == arg[0] && (arg + rest)[1..] == arg[1..] + rest;
      SafeCharactersAreLiteral(arg[1..], rest, word + [Letter(arg[0], false)]);
      LettersAppend(word, arg, false);
    }
  }

  /** A closing quote, an escaped quote and an opening quote add one quoted quote to the word. */
  lemma EscapedQuote(rest: string, word: Word)
    ensures InQuotes(['\'', '\\', '\'', '\''] + rest, word) == InQuotes(rest, word + [Letter('\'', true)])
  {
    var l0 := ['\'', '\\', '\'', '\''] + rest;
    var l1 := ['\\', '\'', '\''] + rest;
    var l3 := ['\''] + rest;
    assert l0[1..] == l1 && l1[1..][1..] == l3 && l1[1..][0] == '\'' && l3[1..] == rest;
    assert InQuotes(l0, word) == Words(l1, Some(word));
    assert Words(l1, Some(word)) == Words(l3, Some(word + [Letter('\'', true)]));
  }

  lemma {:induction false} QuotedTextIsLiteral(arg: string, rest: string, word: Word)
    ensures InQuotes(Escaped(arg) + ['\''] + rest, word) == Words(rest, Some(word + Letters(arg, true)))
    decreases |arg|
  {
    var tail := Escaped(arg) + ['\''] + rest;
    if arg == [] {
      assert tail[1..] == rest && word + Letters(arg, true) == word;
    } else {
      var c, next := arg[0], Escaped(arg[1..]) + ['\''] + rest;
      QuotedTextIsLiteral(arg[1..], rest, word + [Letter(c, true)]);
      LettersAppend(word, arg, true);
      if c == '\'' {
        assert tail == ['\'', '\\', '\'', '\''] + next;
        EscapedQuote(next, word);
      } else {
        assert tail == [c] + next;
        assert tail[1..] == next;
      }
    }
  }

  lemma SafeArgumentIsLiteral(arg: string, rest: string)
    requires LooksSafe(arg)
    ensures Words(arg + rest, None) == Words(rest, Some(Letters(arg, false)))
  {
    var line := arg + rest;
    assert line[0] == arg[0] && line[1..] == arg[1..] + rest;
    var first := [Letter(arg[0], false)];
    assert [] + first == first;
    assert Words(line, None) == Words(line[1..], Some(first));
    SafeCharactersAreLiteral(arg[1..], rest, first);
    assert first + Letters(arg[1..], false) == Letters(arg, false);
  }

  lemma QuotedIsLiteral(arg: string, rest: string)
    ensures Words(['\''] + Escaped(arg) + ['\''] + rest, None) == Words(rest, Some(Letters(arg, true)))
  {
    var line := ['\''] + Escaped(arg) + ['\''] + rest;
    var none: Word := [];
    assert line[1..] == Escaped(arg) + ['\''] + rest;
    assert Words(line, None) == InQuotes(line[1..], none);
    QuotedTextIsLiteral(arg, rest, none);
    assert none + Letters(arg, true) == Letters(arg, true);
  }

  /** A quoted argument is read as one word with its characters, quoted unless it looks safe. */
  lemma QuotedArgumentIsLiteral(arg: string, rest: string)
    ensures Words(ShellQuote(arg) + rest, None) == Words(rest, Some(WordOf(arg)))
  {
    if LooksSafe(arg) {
      SafeArgumentIsLiteral(arg, rest);
    } else {
      QuotedIsLiteral(arg, rest);
    }
  }

  lemma QuotedLineStep(args: seq<string>)
    requires |args| > 1
    ensures QuotedLine(args) == ShellQuote(args[0]) + ([' '] + QuotedLine(args[1..]))
  {
    var quoted := seq(|args|, i requires 0 <= i < |args| => ShellQuote(args[i]));
    var tail := args[1..];
    assert quoted[1..] == seq(|tail|, i requires 0 <= i < |tail| => ShellQuote(tail[i]));
  }

  function WordsOf(args: seq<string>): seq<Word> {
    seq(|args|, i requires 0 <= i < |args| => WordOf(args[i]))
  }

  lemma OneQuotedWord(arg: string)
    ensures Words(QuotedLine([arg]), None) == Some(WordsOf([arg]))
  {
    var none: string := [];
    QuotedArgumentIsLiteral(arg, none);
    assert QuotedLine([arg]) == ShellQuote(arg) + none;
    assert WordsOf([arg]) == [WordOf(arg)];
  }

  lemma MoreQuotedWords(args: seq<string>)
    requires |args| > 1 && Words(QuotedLine(args[1..]), None) == Some(WordsOf(args[1..]))
    ensures Words(QuotedLine(args), None) == Some(WordsOf(args))
  {
    var rest := [' '] + QuotedLine(args[1..]);
    QuotedLineStep(args);
    QuotedArgumentIsLiteral(args[0], rest);
    assert rest[1..] == QuotedLine(args[1..]);
    assert Words(rest, Some(WordOf(args[0]))) == Some([WordOf(args[0])] + WordsOf(args[1..]));
    assert [WordOf(args[0])] + WordsOf(args[1..]) == WordsOf(args);
  }

  /** Splitting the quoted line gives back exactly the arguments, whatever characters they hold. */
  lemma {:induction false} SplittingUndoesQuoting(args: seq<string>)
    ensures Words(QuotedLine(args), None) == Some(WordsOf(args))
    ensures forall i :: 0 <= i < |args| ==> Text(WordsOf(args)[i]) == args[i]
    decreases |args|
  {
    if |args| == 1 {
      OneQuotedWord(args[0]);
      assert args == [args[0]];
    } else if |args| > 1 {
      SplittingUndoesQuoting(args[1..]);
      MoreQuotedWords(args);
    } else {
      assert WordsOf(args) == [];
    }
  }

  // ---- The tilde ----

  /** The tilde-prefix of an argument that is left unquoted. */
  function TildePrefix(arg: string): (prefix: string)
    ensures |prefix| <= |arg|
  {
    if arg == [] || arg[0] == '/' then [] else [arg[0]] + TildePrefix(arg[1..])
  }

  /** An argument whose leading tilde reaches the shell unquoted. */
  predicate TildeArgument(arg: string) {
    LooksSafe(arg) && arg[0] == '~'
  }

  /** What the program receives for an argument. */
  function Received(homes: Homes, arg: string): string {
    if TildeArgument(arg) then homes(TildePrefix(arg)) + arg[|TildePrefix(arg)|..] else arg
  }

  lemma {:induction false} UnquotedPrefix(arg: string)
    ensures PrefixLength(Letters(arg, false)) == |TildePrefix(arg)| && arg[..|TildePrefix(arg)|] == TildePrefix(arg)
    decreases |arg|
  {
    if arg != [] && arg[0] != '/' {
      assert Letters(arg, false)[1..] == Letters(arg[1..], false);
      UnquotedPrefix(arg[1..]);
    }
  }

  lemma FieldOfArgument(homes: Homes, arg: string)
    ensures Field(homes, WordOf(arg)) == Received(homes, arg)
  {
    var word := WordOf(arg);
    assert Text(word) == arg;
    if LooksSafe(arg) {
      UnquotedPrefix(arg);
      var n := PrefixLength(word);
      assert Text(word[..n]) == arg[..n] && Text(word[n..]) == arg[n..];
    }
  }

  function ReceivedAll(homes: Homes, args: seq<string>): seq<string> {
    seq(|args|, i requires 0 <= i < |args| => Received(homes, args[i]))
  }

  lemma ReceivedAppend(homes: Homes, a: seq<string>, b: seq<string>)
    ensures ReceivedAll(homes, a + b) == ReceivedAll(homes, a) + ReceivedAll(homes, b)
  {
  }

  /** The shell hands every argument over unchanged, up to the expansion of an unquoted leading tilde. */
  lemma ShellDelivers(homes: Homes, args: seq<string>)
    ensures Fields(homes, QuotedLine(args)) == Some(ReceivedAll(homes, args))
  {
    SplittingUndoesQuoting(args);
    forall i | 0 <= i < |args| ensures Field(homes, WordsOf(args)[i]) == Received(homes, args[i]) {
      FieldOfArgument(homes, args[i]);
    }
    assert Fields(homes, QuotedLine(args)).value == ReceivedAll(homes, args);
  }

  /** An argument arrives unchanged if and only if it has no expanded tilde. */
  lemma ReceivedUnchangedIff(homes: Homes, arg: string)
    ensures Received(homes, arg) == arg <==> TildeArgument(arg) ==> homes(TildePrefix(arg)) == TildePrefix(arg)
  {
    UnquotedPrefix(arg);
    var prefix := TildePrefix(arg);
    assert arg == prefix + arg[|prefix|..];
    if TildeArgument(arg) && Received(homes, arg) == arg {
      assert |homes(prefix)| == |prefix|;
      assert homes(prefix) == arg[..|prefix|];
    }
  }
}

/**
 File preview requests, from the command line the client builds
 (`rust-core/src/file_preview.rs:136-161`) to what the remote helper launches
 (`rust-core/isekai-pipe/src/ctl_file.rs:217-315`).
 */
module FilePreview {
  import opened Wrappers
  import opened Numerals
  import opened ShellWords

  datatype Request = Ls(path: string) | Cat(path: string, offset: U64, length: Option<U64>) | Info(path: string)

  function CatArgs(offset: U64, length: Option<U64>): seq<string> {
    ["--offset", ToString(offset)] + if length.Some? then ["--length", ToString(length.value)] else []
  }

  function RequestArgs(request: Request): seq<string> {
    match request
    case Ls(path) => ["ls", path]
    case Cat(path, offset, length) => ["cat", path] + CatArgs(offset, length)
    case Info(path) => ["info", path]
  }

  function CommandLine(request: Request): string {
    QuotedLine(["isekai-pipe", "ctl", "file"] + RequestArgs(request))
  }

  /** The command line, built by pushing arguments. */
  method BuildCommandLine(request: Request) returns (line: string)
    ensures line == CommandLine(request)
  {
    var args := ["isekai-pipe", "ctl", "file"];
    match request {
      case Ls(path) =>
        args := args + ["ls"];
        args := args + [path];
      case Cat(path, offset, length) =>
        args := args + ["cat"];
        args := args + [path];
        args := args + ["--offset"];
        args := args + [ToString(offset)];
        if length.Some? {
          args := args + ["--length"];
          args := args + [ToString(length.value)];
        }
      case Info(path) =>
        args := args + ["info"];
        args := args + [path];
    }
    assert args == ["isekai-pipe", "ctl", "file"] + RequestArgs(request);
    line := QuotedLine(args);
  }

  // ---- The remote helper ----

  datatype Launch =
    | LaunchLs(path: string)
    | LaunchCat(path: string, offset: U64, length: Option<U64>)
    | LaunchInfo(path: string)
    | LaunchCp(src: string, dst: string)
    | LaunchRm(path: string, recursive: bool)

  datatype Parsed = Help | UsageError | Run(launch: Launch)

  /** The arguments of `cat`, flags and path in any order. */
  function ParseCat(args: seq<string>, path: Option<string>, offset: U64, length: Option<U64>): Parsed
    decreases |args|
  {
    if args == [] then if path.Some? then Run(LaunchCat(path.value, offset, length)) else UsageError
    else if args[0] == "--offset" then
      if |args| == 1 then UsageError
      else
        var n := ParseU64(args[1]);
        if n.None? then UsageError else ParseCat(args[2..], path, n.value, length)
    else if args[0] == "--length" then
      if |args| == 1 then UsageError
      else
        var n := ParseU64(args[1]);
        if n.None? then UsageError else ParseCat(args[2..], path, offset, n)
    else if path.None? then ParseCat(args[1..], Some(args[0]), offset, length)
    else UsageError
  }

  function ParseRm(args: seq<string>, path: Option<string>, recursive: bool): Parsed
    decreases |args|
  {
    if args == [] then if path.Some? then Run(LaunchRm(path.value, recursive)) else UsageError
    else if args[0] == "--recursive" || args[0] == "-r" then ParseRm(args[1..], path, true)
    else if path.None? then ParseRm(args[1..], Some(args[0]), recursive)
    else UsageError
  }

  function ParseFile(args: seq<string>): Parsed {
    if args == [] || args[0] == "-h" || args[0] == "--help" then Help
    else if args[0] == "ls" then if |args| > 1 then Run(LaunchLs(args[1])) else UsageError
    else if args[0] == "cat" then ParseCat(args[1..], None, 0, None)
    else if args[0] == "info" then if |args| > 1 then Run(LaunchInfo(args[1])) else UsageError
    else if args[0] == "cp" then if |args| > 2 then Run(LaunchCp(args[1], args[2])) else UsageError
    else if args[0] == "rm" then ParseRm(args[1..], None, false)
    else UsageError
  }

  /** The loop over the arguments of `cat`. */
  method ParseCatArguments(args: seq<string>) returns (parsed: Parsed)
    ensures parsed == ParseCat(args, None, 0, None)
  {
    var rest := args;
    var path: Option<string> := None;
    var offset: U64 := 0;
    var length: Option<U64> := None;
    while rest != []
      invariant ParseCat(rest, path, offset, length) == ParseCat(args, None, 0, None)
      decreases |rest|
    {
      var arg := rest[0];
      rest := rest[1..];
      if arg == "--offset" || arg == "--length" {
        if rest == [] {
          return UsageError;
        }
        var n := ParseU64(rest[0]);
        if n.None? {
          return UsageError;
        }
        if arg == "--offset" {
          offset := n.value;
        } else {
          length := n;
        }
        rest := rest[1..];
      } else if path.None? {
        path := Some(arg);
      } else {
        return UsageError;
      }
    }
    parsed := if path.Some? then Run(LaunchCat(path.value, offset, length)) else UsageError;
  }

  /** What the remote shell and the helper make of a command line; nothing if it is not a file command. */
  function Launched(homes: Homes, line: string): Option<Parsed> {
    var argv := Fields(homes, line);
    if argv.Some? && |argv.value| >= 3 && argv.value[..3] == ["isekai-pipe", "ctl", "file"]
    then Some(ParseFile(argv.value[3..])) else None
  }

  // ---- The other subcommands ----

  predicate IsRecursiveFlag(arg: string) {
    arg == "--recursive" || arg == "-r"
  }

  /** The arguments that are not flags of `rm`, in order. */
  function PathsOf(args: seq<string>): seq<string> {
    if args == [] then [] else (if IsRecursiveFlag(args[0]) then [] else [args[0]]) + PathsOf(args[1..])
  }

  lemma {:induction false} RmReads(args: seq<string>, path: Option<string>, recursive: bool)
    ensures var paths := (if path.Some? then [path.value] else []) + PathsOf(args);
            ParseRm(args, path, recursive) ==
              if |paths| == 1 then
                Run(LaunchRm(paths[0], recursive || exists i :: 0 <= i < |args| && IsRecursiveFlag(args[i])))
              else UsageError
    decreases |args|
  {
    if args != [] {
      var rest := args[1..];
      if IsRecursiveFlag(args[0]) {
        RmReads(rest, path, true);
      } else if path.None? {
        RmReads(rest, Some(args[0]), recursive);
        assert (exists i :: 0 <= i < |args| && IsRecursiveFlag(args[i])) <==>
               exists i :: 0 <= i < |rest| && IsRecursiveFlag(rest[i]) by {
          if i :| 0 <= i < |args| && IsRecursiveFlag(args[i]) {
            assert IsRecursiveFlag(rest[i - 1]);
          }
          if i :| 0 <= i < |rest| && IsRecursiveFlag(rest[i]) {
            assert IsRecursiveFlag(args[i + 1]);
          }
        }
      }
    }
  }

  /**
   The other subcommands: `rm` removes its one path, recursively if a flag stands anywhere among its
   arguments, and rejects none or several; `cp` copies its first argument to its second.
   */
  lemma OtherSubcommands(args: seq<string>)
    ensures ParseFile(["rm"] + args) ==
            if |PathsOf(args)| == 1
            then Run(LaunchRm(PathsOf(args)[0], exists i :: 0 <= i < |args| && IsRecursiveFlag(args[i])))
            else UsageError
    ensures ParseFile(["cp"] + args) == if |args| >= 2 then Run(LaunchCp(args[0], args[1])) else UsageError
  {
    assert (["rm"] + args)[1..] == args;
    RmReads(args, None, false);
  }

  // ---- Round trip ----

  function LaunchOf(request: Request): Launch {
    match request
    case Ls(path) => LaunchLs(path)
    case Cat(path, offset, length) => LaunchCat(path, offset, length)
    case Info(path) => LaunchInfo(path)
  }

  /** A path that the argument loop of `cat` takes for one of its flags. */
  predicate PathReadAsFlag(request: Request) {
    request.Cat? && (request.path == "--offset" || request.path == "--length")
  }

  lemma FlagIsNotANumber()
    ensures ParseU64("--offset").None?
  {
    NonDigit("--offset");
  }

  lemma {:induction false} NonDigit(v: string)
    requires v != [] && v[0] == '-'
    ensures Digits(v).None?
    decreases |v|
  {
    if |v| > 1 {
      NonDigit(v[..|v| - 1]);
    }
  }

  lemma CatArgsParse(path: string, offset: U64, length: Option<U64>)
    ensures ParseCat(CatArgs(offset, length), Some(path), 0, None) == Run(LaunchCat(path, offset, length))
  {
    ToStringParses(offset);
    var args := CatArgs(offset, length);
    if length.Some? {
      ToStringParses(length.value);
      assert args[2..] == ["--length", ToString(length.value)];
      assert args[2..][2..] == [];
      assert ParseCat(args[2..], Some(path), offset, None) == Run(LaunchCat(path, offset, length));
    } else {
      assert args[2..] == [];
    }
  }

  /** The helper reads the client's arguments as the request they were made from, or rejects them. */
  lemma CatRequestParses(request: Request)
    requires request.Cat?
    ensures ParseFile(RequestArgs(request)) == if PathReadAsFlag(request) then UsageError else Run(LaunchOf(request))
  {
    var args := RequestArgs(request);
    var cat := CatArgs(request.offset, request.length);
    assert args[1..] == [request.path] + cat;
    assert args[1..][1..] == cat;
    if PathReadAsFlag(request) {
      FlagIsNotANumber();
      assert args[1..][1] == "--offset";
    } else {
      CatArgsParse(request.path, request.offset, request.length);
    }
  }

  /** The request with its path as the shell hands it over. */
  function Expanded(homes: Homes, request: Request): Request {
    request.(path := Received(homes, request.path))
  }

  lemma {:induction false} NumeralsAreNoTildes(n: nat)
    ensures ToString(n) != [] && ToString(n)[0] != '~'
  {
    if n >= 10 {
      NumeralsAreNoTildes(n / 10);
    }
  }

  lemma ArgumentsReceived(homes: Homes, request: Request)
    ensures ReceivedAll(homes, RequestArgs(request)) == RequestArgs(Expanded(homes, request))
  {
    if request.Cat? {
      NumeralsAreNoTildes(request.offset);
      if request.length.Some? {
        NumeralsAreNoTildes(request.length.value);
      }
    }
  }

  lemma ProgramReceived(homes: Homes)
    ensures ReceivedAll(homes, ["isekai-pipe", "ctl", "file"]) == ["isekai-pipe", "ctl", "file"]
  {
  }

  lemma HelperReceives(homes: Homes, request: Request)
    ensures Launched(homes, CommandLine(request)) == Some(ParseFile(RequestArgs(Expanded(homes, request))))
  {
    var program, args := ["isekai-pipe", "ctl", "file"], RequestArgs(Expanded(homes, request));
    ShellDelivers(homes, program + RequestArgs(request));
    ReceivedAppend(homes, program, RequestArgs(request));
    ProgramReceived(homes);
    ArgumentsReceived(homes, request);
    assert Fields(homes, CommandLine(request)) == Some(program + args);
    assert (program + args)[..3] == program && (program + args)[3..] == args;
  }

  /** What the helper does with a request whose path the shell may have expanded. */
  lemma HelperLaunches(homes: Homes, request: Request)
    ensures var expanded := Expanded(homes, request);
            Launched(homes, CommandLine(request)) ==
              Some(if PathReadAsFlag(expanded) then UsageError else Run(LaunchOf(expanded)))
  {
    HelperReceives(homes, request);
    if request.Cat? {
      CatRequestParses(Expanded(homes, request));
    }
  }

  /**
   The request that the client turns into a command line is the one that the helper launches, for
   every path, offset and length and every shell, if and only if the path of `cat` is not one of its
   two flags and the shell does not expand a leading tilde of the path that was left unquoted.  A
   path that is one of the flags is rejected.
   */
  lemma RequestArrivesIff(homes: Homes, request: Request)
    ensures Launched(homes, CommandLine(request)) == Some(Run(LaunchOf(request))) <==>
            && !PathReadAsFlag(request)
            && (TildeArgument(request.path) ==> homes(TildePrefix(request.path)) == TildePrefix(request.path))
    ensures PathReadAsFlag(request) ==> Launched(homes, CommandLine(request)) == Some(UsageError)
  {
    HelperLaunches(homes, request);
    ReceivedUnchangedIff(homes, request.path);
  }

  /** Different requests have different command lines. */
  lemma CommandLineIsInjective(a: Request, b: Request)
    requires CommandLine(a) == CommandLine(b)
    ensures a == b
  {
    var program := ["isekai-pipe", "ctl", "file"];
    var x, y := program + RequestArgs(a), program + RequestArgs(b);
    SplittingUndoesQuoting(x);
    SplittingUndoesQuoting(y);
    assert x == y by {
      assert |WordsOf(x)| == |x| && |WordsOf(y)| == |y|;
      assert forall i :: 0 <= i < |x| ==> x[i] == Text(WordsOf(x)[i]) == y[i];
    }
    assert RequestArgs(a) == x[3..] && RequestArgs(b) == y[3..];
    assert RequestArgs(a)[0] == RequestArgs(b)[0] && RequestArgs(a)[1] == RequestArgs(b)[1];
    if a.Cat? {
      var u, v := CatArgs(a.offset, a.length), CatArgs(b.offset, b.length);
      assert u == RequestArgs(a)[2..] && v == RequestArgs(b)[2..];
      CatArgsParse(a.path, a.offset, a.length);
      CatArgsParse(b.path, b.offset, b.length);
    }
  }
}
