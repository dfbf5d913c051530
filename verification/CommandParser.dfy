/** The control-line tokenizer: its meaning as a recursive function, the loops that compute it, and
    the printer it inverts. */
module CommandParser {
  import opened Text

  const MAX_ARGS: nat := 256
  const MAX_ARG_LEN: nat := 4096

  datatype Command = Command(command: string, args: seq<string>)

  // ---------------------------------------------------------------- meaning

  /** The upper-cased leading word, cut after `room` characters, and what follows it. */
  function TakeWord(s: string, room: nat): (r: (string, string))
    ensures |r.0| <= room && |r.1| == |s| - |r.0|
  {
    if s == "" || IsSpace(s[0]) || room == 0 then ("", s)
    else
      var (word, rest) := TakeWord(s[1..], room - 1);
      ([ToUpper(s[0])] + word, rest)
  }

  /** One argument: quotes toggle and vanish, a backslash takes the next character as it is, and
      unquoted white space or a full buffer ends it. */
  function ScanArg(s: string, room: nat, inQuotes: bool): (r: (string, string))
    ensures |r.0| <= room && |r.1| <= |s|
    decreases s
  {
    if s == "" || room == 0 then ("", s)
    else if s[0] == '"' then ScanArg(s[1..], room, !inQuotes)
    else if !inQuotes && IsSpace(s[0]) then ("", s)
    else if s[0] == '\\' && |s| > 1 then
      var (arg, rest) := ScanArg(s[2..], room - 1, inQuotes);
      ([s[1]] + arg, rest)
    else
      var (arg, rest) := ScanArg(s[1..], room - 1, inQuotes);
      ([s[0]] + arg, rest)
  }

  function ParseArgs(s: string, room: nat): (args: seq<string>)
    ensures |args| <= room
    decreases room
  {
    var t := SkipSpace(s);
    if t == "" || room == 0 then []
    else
      var (arg, rest) := ScanArg(t, MAX_ARG_LEN - 1, false);
      [arg] + ParseArgs(rest, room - 1)
  }

  function Parse(input: string): Command {
    var (word, rest) := TakeWord(SkipSpace(input), MAX_ARG_LEN - 1);
    Command(word, ParseArgs(rest, MAX_ARGS))
  }

  // ---------------------------------------------------------------- loops

  lemma Regroup(done: string, c: char, more: string)
    requires more != "" && more[0] == c
    ensures done + more == (done + [c]) + more[1..]
  {
  }

  method SkipSpaceAt(input: string, start: nat) returns (p: nat)
    requires start <= |input|
    ensures start <= p <= |input|
    ensures input[p..] == SkipSpace(input[start..])
  {
    p := start;
    while p < |input| && IsSpace(input[p])
      invariant start <= p <= |input|
      invariant SkipSpace(input[p..]) == SkipSpace(input[start..])
    {
      assert input[p..][1..] == input[p + 1..];
      p := p + 1;
    }
  }

  /** The inner loop, from the first character of an argument to the one that ends it. */
  method ScanArgAt(input: string, start: nat) returns (arg: string, p: nat)
    requires start <= |input|
    ensures start <= p <= |input|
    ensures var (a, rest) := ScanArg(input[start..], MAX_ARG_LEN - 1, false);
      arg == a && input[p..] == rest
  {
    hide ScanArg;
    arg, p := "", start;
    var inQuotes := false;
    ghost var whole := ScanArg(input[start..], MAX_ARG_LEN - 1, false);
    while p < |input| && |arg| < MAX_ARG_LEN - 1
      invariant start <= p <= |input| && |arg| <= MAX_ARG_LEN - 1
      invariant arg + ScanArg(input[p..], MAX_ARG_LEN - 1 - |arg|, inQuotes).0 == whole.0
      invariant ScanArg(input[p..], MAX_ARG_LEN - 1 - |arg|, inQuotes).1 == whole.1
      decreases |input| - p
    {
      ghost var more := ScanArg(input[p..], MAX_ARG_LEN - 1 - |arg|, inQuotes).0;
      ScanStep(input[p..], MAX_ARG_LEN - 1 - |arg|, inQuotes);
      if input[p] == '"' {
        assert input[p..][1..] == input[p + 1..];
        inQuotes := !inQuotes;
        p := p + 1;
      } else if !inQuotes && IsSpace(input[p]) {
        break;
      } else if input[p] == '\\' && p + 1 < |input| {
        assert input[p..][2..] == input[p + 2..];
        Regroup(arg, input[p + 1], more);
        arg := arg + [input[p + 1]];
        p := p + 2;
      } else {
        assert input[p..][1..] == input[p + 1..];
        Regroup(arg, input[p], more);
        arg := arg + [input[p]];
        p := p + 1;
      }
    }
    ScanStops(input[p..], MAX_ARG_LEN - 1 - |arg|, inQuotes);
  }

  lemma ScanStep(s: string, room: nat, inQuotes: bool)
    requires s != "" && room > 0
    ensures var (arg, rest) := ScanArg(s, room, inQuotes);
      if s[0] == '"' then
        arg == ScanArg(s[1..], room, !inQuotes).0 && rest == ScanArg(s[1..], room, !inQuotes).1
      else if !inQuotes && IsSpace(s[0]) then arg == "" && rest == s
      else
        var k := if s[0] == '\\' && |s| > 1 then 1 else 0;
        && arg != "" && arg[0] == s[k]
        && arg[1..] == ScanArg(s[k + 1..], room - 1, inQuotes).0
        && rest == ScanArg(s[k + 1..], room - 1, inQuotes).1
  {
  }

  lemma ScanStops(s: string, room: nat, inQuotes: bool)
    requires s == "" || room == 0 || (!inQuotes && IsSpace(s[0]))
    ensures ScanArg(s, room, inQuotes) == ("", s)
  {
  }

  method TakeWordAt(input: string, start: nat) returns (command: string, p: nat)
    requires start <= |input|
    ensures start <= p <= |input|
    ensures var (word, rest) := TakeWord(input[start..], MAX_ARG_LEN - 1);
      command == word && input[p..] == rest
  {
    hide TakeWord, IsSpace, ToUpper;
    TakeWordStep(input[start..], MAX_ARG_LEN - 1);
    command, p := "", start;
    ghost var whole := TakeWord(input[start..], MAX_ARG_LEN - 1);
    while p < |input| && !IsSpace(input[p]) && |command| < MAX_ARG_LEN - 1
      invariant start <= p <= |input| && |command| <= MAX_ARG_LEN - 1
      invariant var (more, rest) := TakeWord(input[p..], MAX_ARG_LEN - 1 - |command|);
        command + more == whole.0 && rest == whole.1
    {
      assert input[p..][1..] == input[p + 1..];
      TakeWordStep(input[p..], MAX_ARG_LEN - 1 - |command|);
      Regroup(command, ToUpper(input[p]), TakeWord(input[p..], MAX_ARG_LEN - 1 - |command|).0);
      command := command + [ToUpper(input[p])];
      p := p + 1;
    }
    TakeWordStep(input[p..], MAX_ARG_LEN - 1 - |command|);
    assert command + "" == command;
  }

  lemma TakeWordStep(s: string, room: nat)
    ensures TakeWord(s, room)
         == if s == "" || IsSpace(s[0]) || room == 0 then ("", s)
            else ([ToUpper(s[0])] + TakeWord(s[1..], room - 1).0, TakeWord(s[1..], room - 1).1)
  {
  }

  /** The outer loop over arguments. */
  method ParseArgsAt(input: string, start: nat) returns (args: seq<string>)
    requires start <= |input|
    ensures args == ParseArgs(input[start..], MAX_ARGS)
  {
    hide ScanArg, SkipSpace, ParseArgs;
    var p := SkipSpaceAt(input, start);
    args := [];
    ghost var wanted := ParseArgs(input[start..], MAX_ARGS);
    ParseArgsSkips(input[start..], MAX_ARGS);
    while p < |input| && |args| < MAX_ARGS
      invariant 0 <= p <= |input| && |args| <= MAX_ARGS
      invariant args + ParseArgs(input[p..], MAX_ARGS - |args|) == wanted
      decreases MAX_ARGS - |args|
    {
      ghost var room, before := MAX_ARGS - |args|, input[p..];
      ParseArgsSkips(before, room);
      p := SkipSpaceAt(input, p);
      if p == |input| {
        break;
      }
      ghost var (a, rest) := ScanArg(input[p..], MAX_ARG_LEN - 1, false);
      ParseArgsStep(before, room);
      assert args + ([a] + ParseArgs(rest, room - 1)) == (args + [a]) + ParseArgs(rest, room - 1);
      var arg;
      arg, p := ScanArgAt(input, p);
      args := args + [arg];
      ParseArgsSkips(rest, room - 1);
      p := SkipSpaceAt(input, p);
    }
    ParseArgsEnd(input[p..], MAX_ARGS - |args|);
  }

  method ParseTextCommand(input: string) returns (cmd: Command)
    ensures cmd == Parse(input)
  {
    assert input[0..] == input;
    var p := SkipSpaceAt(input, 0);
    var command;
    command, p := TakeWordAt(input, p);
    var args := ParseArgsAt(input, p);
    cmd := Command(command, args);
  }

  lemma {:induction false} SkipSpaceTwice(s: string)
    ensures SkipSpace(SkipSpace(s)) == SkipSpace(s)
  {
    if s != "" && IsSpace(s[0]) {
      SkipSpaceTwice(s[1..]);
    }
  }

  lemma ParseArgsSkips(s: string, room: nat)
    ensures ParseArgs(SkipSpace(s), room) == ParseArgs(s, room)
  {
    SkipSpaceTwice(s);
  }

  lemma ParseArgsStep(s: string, room: nat)
    requires SkipSpace(s) != "" && room > 0
    ensures var (arg, rest) := ScanArg(SkipSpace(s), MAX_ARG_LEN - 1, false);
      ParseArgs(s, room) == [arg] + ParseArgs(rest, room - 1)
  {
  }

  lemma ParseArgsEnd(s: string, room: nat)
    requires SkipSpace(s) == "" || room == 0
    ensures ParseArgs(s, room) == []
  {
  }
}
