/** The printer the tokenizer inverts: every byte of every argument behind a backslash. */
module CommandPrinter {
  import opened Text
  import opened CommandParser

  function Escape(arg: string): string {
    if arg == "" then "" else ['\\', arg[0]] + Escape(arg[1..])
  }

  /** An argument ready for the line; the empty one needs a pair of quotes to be seen. */
  function PrintArg(arg: string): string {
    if arg == "" then "\"\"" else Escape(arg)
  }

  function PrintArgs(args: seq<string>): string {
    if args == [] then "" else " " + PrintArg(args[0]) + PrintArgs(args[1..])
  }

  function Print(c: Command): string {
    c.command + PrintArgs(c.args)
  }

  predicate UpperCased(s: string) {
    forall i :: 0 <= i < |s| ==> ToUpper(s[i]) == s[i]
  }

  /** The commands the tokenizer can return. */
  predicate Canonical(c: Command) {
    && |c.command| < MAX_ARG_LEN && NoSpace(c.command) && UpperCased(c.command)
    && |c.args| <= MAX_ARGS
    && (forall i :: 0 <= i < |c.args| ==> |c.args[i]| < MAX_ARG_LEN)
    && (c.command == "" ==> c.args == [])
  }

  /** The text after a token: the end of the line or white space. */
  predicate EndsToken(rest: string) {
    rest == "" || IsSpace(rest[0])
  }

  // ---------------------------------------------------------------- printing, then parsing

  lemma {:induction false} TakePrinted(word: string, rest: string, room: nat)
    requires |word| <= room && NoSpace(word) && UpperCased(word) && EndsToken(rest)
    ensures TakeWord(word + rest, room) == (word, rest)
  {
    if word == "" {
      assert word + rest == rest;
    } else {
      assert (word + rest)[1..] == word[1..] + rest;
      TakePrinted(word[1..], rest, room - 1);
      assert word == [word[0]] + word[1..];
    }
  }

  lemma {:induction false} ScanEscaped(arg: string, rest: string, room: nat)
    requires |arg| <= room && EndsToken(rest)
    ensures ScanArg(Escape(arg) + rest, room, false) == (arg, rest)
  {
    if arg == "" {
      assert Escape(arg) + rest == rest;
    } else {
      assert Escape(arg) + rest == ['\\', arg[0]] + (Escape(arg[1..]) + rest);
      assert (Escape(arg) + rest)[2..] == Escape(arg[1..]) + rest;
      ScanEscaped(arg[1..], rest, room - 1);
      assert arg == [arg[0]] + arg[1..];
    }
  }

  lemma ScanPrinted(arg: string, rest: string)
    requires |arg| < MAX_ARG_LEN && EndsToken(rest)
    ensures ScanArg(PrintArg(arg) + rest, MAX_ARG_LEN - 1, false) == (arg, rest)
    ensures SkipSpace(PrintArg(arg) + rest) == PrintArg(arg) + rest != ""
  {
    if arg == "" {
      var s := "\"\"" + rest;
      assert s[1..] == "\"" + rest && s[1..][1..] == rest;
      ScanStops(rest, MAX_ARG_LEN - 1, false);
    } else {
      ScanEscaped(arg, rest, MAX_ARG_LEN - 1);
    }
  }

  lemma {:induction false} ParsePrintedArgs(args: seq<string>, post: string, room: nat)
    requires |args| <= room && AllSpace(post)
    requires forall i :: 0 <= i < |args| ==> |args[i]| < MAX_ARG_LEN
    ensures ParseArgs(PrintArgs(args) + post, room) == args
    ensures EndsToken(PrintArgs(args) + post)
  {
    hide ScanArg, ParseArgs, SkipSpace, PrintArg;
    if args == [] {
      assert PrintArgs(args) + post == post;
      SkipAllSpace(post);
      ParseArgsEnd(post, room);
    } else {
      var rest := PrintArgs(args[1..]) + post;
      var line := PrintArg(args[0]) + rest;
      ParsePrintedArgs(args[1..], post, room - 1);
      ScanPrinted(args[0], rest);
      assert PrintArgs(args) + post == " " + line;
      SkipSpacePrefix(" ", line);
      ParseArgsStep(" " + line, room);
      assert args == [args[0]] + args[1..];
    }
  }

  lemma PrintNothing(args: seq<string>)
    requires args == []
    ensures PrintArgs(args) == ""
  {
  }

  lemma ParseEmpty()
    ensures TakeWord("", MAX_ARG_LEN - 1) == ("", "") && ParseArgs("", MAX_ARGS) == []
  {
  }

  /** Printing a command and parsing the line gives the command back, whatever white space surrounds
      the line. */
  lemma ParseInvertsPrint(c: Command, pre: string, post: string)
    requires Canonical(c) && AllSpace(pre) && AllSpace(post)
    ensures Parse(pre + Print(c) + post) == c
  {
    hide SkipSpace, TakeWord, ParseArgs, PrintArgs;
    var line := Print(c) + post;
    assert pre + Print(c) + post == pre + line;
    SkipSpacePrefix(pre, line);
    ParsePrintedArgs(c.args, post, MAX_ARGS);
    var rest := PrintArgs(c.args) + post;
    assert line == c.command + rest;
    if c.command == "" {
      PrintNothing(c.args);
      assert line == post;
      SkipAllSpace(post);
      ParseEmpty();
    } else {
      SkipKeeps(line);
      TakePrinted(c.command, rest, MAX_ARG_LEN - 1);
    }
  }

  // ---------------------------------------------------------------- shape of every result

  lemma {:induction false} TakeWordShape(s: string, room: nat)
    ensures NoSpace(TakeWord(s, room).0) && UpperCased(TakeWord(s, room).0)
  {
    if s != "" && !IsSpace(s[0]) && room > 0 {
      TakeWordShape(s[1..], room - 1);
    }
  }

  lemma {:induction false} ParseArgsShape(s: string, room: nat)
    ensures forall i :: 0 <= i < |ParseArgs(s, room)| ==> |ParseArgs(s, room)[i]| < MAX_ARG_LEN
    decreases room
  {
    if SkipSpace(s) != "" && room > 0 {
      ParseArgsStep(s, room);
      ParseArgsShape(ScanArg(SkipSpace(s), MAX_ARG_LEN - 1, false).1, room - 1);
    }
  }

  /** Every line parses to a bounded, upper-cased command word without white space and at most 256
      arguments of at most 4095 characters; without a command word there are no arguments. */
  lemma ParseIsCanonical(input: string)
    ensures Canonical(Parse(input))
  {
    var s := SkipSpace(input);
    TakeWordShape(s, MAX_ARG_LEN - 1);
    ParseArgsShape(TakeWord(s, MAX_ARG_LEN - 1).1, MAX_ARGS);
  }

  /** Printing normalises a line without changing what it means. */
  lemma PrintNormalises(input: string)
    ensures Parse(Print(Parse(input))) == Parse(input)
  {
    ParseIsCanonical(input);
    ParseInvertsPrint(Parse(input), "", "");
    assert "" + Print(Parse(input)) + "" == Print(Parse(input));
  }

  // ---------------------------------------------------------------- nothing invented

  /** `a` can be read off `s` by leaving characters out. */
  predicate Subsequence(a: string, s: string) {
    a == "" || (s != "" && ((a[0] == s[0] && Subsequence(a[1..], s[1..])) || Subsequence(a, s[1..])))
  }

  function Concat(args: seq<string>): string {
    if args == [] then "" else args[0] + Concat(args[1..])
  }

  lemma {:induction false} ScanSubsequence(s: string, room: nat, inQuotes: bool, more: string)
    requires Subsequence(more, ScanArg(s, room, inQuotes).1)
    ensures Subsequence(ScanArg(s, room, inQuotes).0 + more, s)
    decreases s
  {
    hide ScanArg;
    var arg := ScanArg(s, room, inQuotes).0;
    if s == "" || room == 0 || (!inQuotes && IsSpace(s[0])) {
      ScanStops(s, room, inQuotes);
      assert arg + more == more;
    } else if s[0] == '"' {
      ScanStep(s, room, inQuotes);
      ScanSubsequence(s[1..], room, !inQuotes, more);
    } else {
      var k := if s[0] == '\\' && |s| > 1 then 1 else 0;
      ScanStep(s, room, inQuotes);
      ScanSubsequence(s[k + 1..], room - 1, inQuotes, more);
      assert (arg + more)[0] == s[k] && (arg + more)[1..] == arg[1..] + more;
      assert s[k..][1..] == s[k + 1..];
      assert Subsequence(arg + more, s[k..]);
    }
  }

  lemma {:induction false} SkipSubsequence(a: string, s: string)
    requires Subsequence(a, SkipSpace(s))
    ensures Subsequence(a, s)
  {
    if s != "" && IsSpace(s[0]) {
      SkipSubsequence(a, s[1..]);
    }
  }

  lemma {:induction false} ArgsSubsequence(s: string, room: nat)
    ensures Subsequence(Concat(ParseArgs(s, room)), s)
    decreases room
  {
    var t := SkipSpace(s);
    if t != "" && room > 0 {
      var (arg, rest) := ScanArg(t, MAX_ARG_LEN - 1, false);
      ParseArgsStep(s, room);
      ArgsSubsequence(rest, room - 1);
      var more := Concat(ParseArgs(rest, room - 1));
      assert ([arg] + ParseArgs(rest, room - 1))[1..] == ParseArgs(rest, room - 1);
      ScanSubsequence(t, MAX_ARG_LEN - 1, false, more);
      SkipSubsequence(arg + more, s);
    }
  }

  /** The arguments, joined, are a subsequence of the line after the command word. */
  lemma ArgumentsComeFromLine(input: string)
    ensures Subsequence(Concat(Parse(input).args), TakeWord(SkipSpace(input), MAX_ARG_LEN - 1).1)
  {
    ArgsSubsequence(TakeWord(SkipSpace(input), MAX_ARG_LEN - 1).1, MAX_ARGS);
  }

  // ---------------------------------------------------------------- quoting

  predicate Plain(s: string) {
    forall i :: 0 <= i < |s| ==> s[i] != '"' && s[i] != '\\'
  }

  lemma {:induction false} ScanQuoted(arg: string, room: nat)
    requires Plain(arg)
    ensures |arg| < room ==> ScanArg(arg + "\"", room, true) == (arg, "")
    ensures |arg| == room ==> ScanArg(arg + "\"", room, true) == (arg, "\"")
  {
    if arg == "" {
      assert arg + "\"" == "\"" && "\""[1..] == "";
    } else if room > 0 {
      assert (arg + "\"")[1..] == arg[1..] + "\"";
      ScanQuoted(arg[1..], room - 1);
      assert arg == [arg[0]] + arg[1..];
    }
  }

  /** Quoting instead of escaping is faithful exactly for arguments one shorter than the buffer
      allows: at 4095 characters the closing quote is left over and starts another argument. */
  lemma QuotedArgumentExact(arg: string)
    requires Plain(arg)
    ensures ParseArgs("\"" + arg + "\"", MAX_ARGS) == [arg] <==> |arg| < MAX_ARG_LEN - 1
  {
    var line := "\"" + arg + "\"";
    ScanQuoted(arg, MAX_ARG_LEN - 1);
    assert line[1..] == arg + "\"";
    assert SkipSpace(line) == line;
    ParseArgsStep(line, MAX_ARGS);
    ParseArgsShape(line, MAX_ARGS);
    if |arg| == MAX_ARG_LEN - 1 {
      ParseArgsStep("\"", MAX_ARGS - 1);
    } else if |arg| < MAX_ARG_LEN - 1 {
      ParseArgsEnd("", MAX_ARGS - 1);
    } else {
      assert |[arg][0]| >= MAX_ARG_LEN;
    }
  }
}
