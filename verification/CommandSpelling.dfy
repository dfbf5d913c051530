/** Every way to write a control line: letters in any case, arguments with any mixture of quotes, escapes and
    plain characters. The tokenizer reads exactly what is written. */
module CommandSpelling {
  import opened Text
  import opened CommandParser
  import opened CommandPrinter

  /** A character as it is, one behind a backslash, or a quote, which stands for nothing. */
  datatype Piece = Plain(c: char) | Escaped(c: char) | Quote

  function Written(p: Piece): string {
    match p
    case Plain(c) => [c]
    case Escaped(c) => ['\\', c]
    case Quote => "\""
  }

  function Meaning(p: Piece): string {
    if p.Quote? then "" else [p.c]
  }

  function Spell(ps: seq<Piece>): string {
    if ps == [] then "" else Written(ps[0]) + Spell(ps[1..])
  }

  function Value(ps: seq<Piece>): (v: string)
    ensures |v| <= |ps|
  {
    if ps == [] then "" else Meaning(ps[0]) + Value(ps[1..])
  }

  predicate Inside(p: Piece, inQuotes: bool) {
    if p.Quote? then !inQuotes else inQuotes
  }

  /** Whether the text behind the pieces is inside quotes. */
  predicate Open(ps: seq<Piece>, inQuotes: bool)
    decreases ps
  {
    if ps == [] then inQuotes else Open(ps[1..], Inside(ps[0], inQuotes))
  }

  function RoomBehind(p: Piece, room: nat): nat
    requires room > 0
  {
    if p.Quote? then room else room - 1
  }

  /** A plain character is no quote and no backslash, unless the line ends with one, and white space only
      inside quotes. */
  predicate Allowed(p: Piece, inQuotes: bool, more: string) {
    p.Plain? ==> p.c != '"' && (p.c == '\\' ==> more == "") && (inQuotes || !IsSpace(p.c))
  }

  predicate Proper(ps: seq<Piece>, inQuotes: bool, rest: string)
    decreases ps
  {
    ps != [] ==>
      Allowed(ps[0], inQuotes, Spell(ps[1..]) + rest) && Proper(ps[1..], Inside(ps[0], inQuotes), rest)
  }

  /** The pieces end an argument: with the line, before unquoted white space, or with the character that fills
      the buffer. */
  predicate Complete(ps: seq<Piece>, inQuotes: bool, room: nat, rest: string) {
    if |Value(ps)| < room then rest == "" || (!Open(ps, inQuotes) && IsSpace(rest[0]))
    else |Value(ps)| == room && (ps != [] ==> !ps[|ps| - 1].Quote?)
  }

  /** The scanner takes one piece at a time. */
  lemma ReadPiece(p: Piece, more: string, room: nat, inQuotes: bool)
    requires room > 0 && Allowed(p, inQuotes, more)
    ensures var (arg, rest) := ScanArg(more, RoomBehind(p, room), Inside(p, inQuotes));
      ScanArg(Written(p) + more, room, inQuotes) == (Meaning(p) + arg, rest)
  {
    var s := Written(p) + more;
    match p
    case Quote =>
      var arg := ScanArg(more, room, !inQuotes).0;
      assert s[0] == '"' && s[1..] == more && "" + arg == arg;
    case Escaped(c) => assert s[0] == '\\' && s[1] == c && s[2..] == more;
    case Plain(c) => assert s[0] == c && s[1..] == more && (c == '\\' ==> |s| == 1);
  }

  lemma ReadEnd(rest: string, room: nat, inQuotes: bool)
    requires rest == "" || room == 0 || (!inQuotes && IsSpace(rest[0]))
    ensures ScanArg(rest, room, inQuotes) == ("", rest)
  {
  }

  lemma {:induction false} LastCounts(ps: seq<Piece>)
    requires ps != [] && !ps[|ps| - 1].Quote?
    ensures Value(ps) != ""
  {
    if |ps| > 1 {
      LastCounts(ps[1..]);
    }
  }

  lemma RestComplete(ps: seq<Piece>, inQuotes: bool, room: nat, rest: string)
    requires ps != [] && Complete(ps, inQuotes, room, rest)
    ensures room > 0 && Complete(ps[1..], Inside(ps[0], inQuotes), RoomBehind(ps[0], room), rest)
  {
    if !ps[|ps| - 1].Quote? {
      LastCounts(ps);
    }
    assert Value(ps) == Meaning(ps[0]) + Value(ps[1..]);
    assert ps[1..] != [] ==> ps[1..][|ps[1..]| - 1] == ps[|ps| - 1];
    assert Open(ps, inQuotes) == Open(ps[1..], Inside(ps[0], inQuotes));
  }

  /** Written this way, an argument is read as its characters. */
  lemma {:induction false} SpelledIsRead(ps: seq<Piece>, inQuotes: bool, room: nat, rest: string)
    requires Proper(ps, inQuotes, rest) && Complete(ps, inQuotes, room, rest)
    ensures ScanArg(Spell(ps) + rest, room, inQuotes) == (Value(ps), rest)
    decreases ps
  {
    hide ScanArg, Written, Meaning, Allowed;
    if ps == [] {
      assert Spell(ps) + rest == rest;
      ReadEnd(rest, room, inQuotes);
    } else {
      var more := Spell(ps[1..]) + rest;
      assert Spell(ps) + rest == Written(ps[0]) + more;
      RestComplete(ps, inQuotes, room, rest);
      SpelledIsRead(ps[1..], Inside(ps[0], inQuotes), RoomBehind(ps[0], room), rest);
      ReadPiece(ps[0], more, room, inQuotes);
    }
  }

  lemma FirstPiece(s: string, inQuotes: bool) returns (p: Piece, more: string)
    requires s != "" && (inQuotes || !IsSpace(s[0]))
    ensures s == Written(p) + more && |more| < |s| && Allowed(p, inQuotes, more)
  {
    p := if s[0] == '"' then Quote else if s[0] == '\\' && |s| > 1 then Escaped(s[1]) else Plain(s[0]);
    more := s[|Written(p)|..];
  }

  lemma NoPieces(rest: string, room: nat, inQuotes: bool)
    requires rest == "" || room == 0 || (!inQuotes && IsSpace(rest[0]))
    ensures Spell([]) + rest == rest && Value([]) == "" && Proper([], inQuotes, rest)
    ensures Complete([], inQuotes, room, rest)
  {
  }

  lemma OneMorePiece(p: Piece, ps: seq<Piece>, inQuotes: bool, room: nat, rest: string)
    requires room > 0 && Allowed(p, inQuotes, Spell(ps) + rest) && Proper(ps, Inside(p, inQuotes), rest)
    requires Complete(ps, Inside(p, inQuotes), RoomBehind(p, room), rest)
    ensures Proper([p] + ps, inQuotes, rest) && Complete([p] + ps, inQuotes, room, rest)
    ensures Spell([p] + ps) + rest == Written(p) + (Spell(ps) + rest) && Value([p] + ps) == Meaning(p) + Value(ps)
  {
    assert ([p] + ps)[1..] == ps;
  }

  /** Whatever is read as an argument is written this way. */
  lemma {:induction false} ReadIsSpelled(s: string, room: nat, inQuotes: bool) returns (ps: seq<Piece>)
    ensures var (arg, rest) := ScanArg(s, room, inQuotes);
      && s == Spell(ps) + rest && arg == Value(ps)
      && Proper(ps, inQuotes, rest) && Complete(ps, inQuotes, room, rest)
    decreases |s|
  {
    hide ScanArg, Proper, Complete, Written, Meaning, Allowed, Spell, Value;
    if s == "" || room == 0 || (!inQuotes && IsSpace(s[0])) {
      ps := [];
      NoPieces(s, room, inQuotes);
      ReadEnd(s, room, inQuotes);
    } else {
      var p, more := FirstPiece(s, inQuotes);
      ReadPiece(p, more, room, inQuotes);
      var others := ReadIsSpelled(more, RoomBehind(p, room), Inside(p, inQuotes));
      var rest := ScanArg(more, RoomBehind(p, room), Inside(p, inQuotes)).1;
      OneMorePiece(p, others, inQuotes, room, rest);
      ps := [p] + others;
    }
  }

  /** The scanner of one argument, exactly: this is read and this is left if and only if the text is some proper
      spelling of the one, complete before the other. */
  lemma ArgumentExactly(s: string, room: nat, arg: string, rest: string)
    ensures ScanArg(s, room, false) == (arg, rest) <==>
      exists ps :: (s == Spell(ps) + rest && arg == Value(ps)
        && Proper(ps, false, rest) && Complete(ps, false, room, rest))
  {
    hide ScanArg, Proper, Complete, Spell, Value;
    if ScanArg(s, room, false) == (arg, rest) {
      var ps := ReadIsSpelled(s, room, false);
    }
    if ps :| s == Spell(ps) + rest && arg == Value(ps) && Proper(ps, false, rest) && Complete(ps, false, room, rest) {
      SpelledIsRead(ps, false, room, rest);
    }
  }

  // ---------------------------------------------------------------- a whole line

  /** A word with white space in front of it, spelled somehow. */
  datatype Spelled = Spelled(gap: string, ps: seq<Piece>)

  function LineOf(args: seq<Spelled>): string {
    if args == [] then "" else args[0].gap + (Spell(args[0].ps) + LineOf(args[1..]))
  }

  function Values(args: seq<Spelled>): (r: seq<string>)
    ensures |r| == |args| && forall i :: 0 <= i < |r| ==> r[i] == Value(args[i].ps)
  {
    if args == [] then [] else [Value(args[0].ps)] + Values(args[1..])
  }

  /** Arguments that can be told apart: white space between them, quotes closed, and none longer than the
      buffer. */
  predicate WellSpelled(arg: Spelled) {
    && arg.gap != "" && AllSpace(arg.gap) && arg.ps != [] && !Open(arg.ps, false) && |Value(arg.ps)| < MAX_ARG_LEN - 1
    && Proper(arg.ps, false, " ")
  }

  lemma {:induction false} ProperAnywhere(ps: seq<Piece>, inQuotes: bool, rest: string)
    requires Proper(ps, inQuotes, " ")
    ensures Proper(ps, inQuotes, rest)
    decreases ps
  {
    if ps != [] {
      ProperAnywhere(ps[1..], Inside(ps[0], inQuotes), rest);
    }
  }

  lemma SpelledStarts(ps: seq<Piece>, rest: string)
    requires ps != [] && Proper(ps, false, " ")
    ensures var s := Spell(ps) + rest; s != "" && !IsSpace(s[0])
  {
  }

  lemma LineEnds(args: seq<Spelled>, post: string)
    requires (forall i :: 0 <= i < |args| ==> WellSpelled(args[i])) && AllSpace(post)
    ensures EndsToken(LineOf(args) + post)
  {
    hide Proper, Open, Spell, Value;
    if args != [] {
      assert (LineOf(args) + post)[0] == args[0].gap[0];
    }
  }

  lemma {:induction false} ParseSpelledArgs(args: seq<Spelled>, post: string, room: nat)
    requires |args| <= room && AllSpace(post) && forall i :: 0 <= i < |args| ==> WellSpelled(args[i])
    ensures ParseArgs(LineOf(args) + post, room) == Values(args)
    decreases args
  {
    hide ScanArg, ParseArgs, SkipSpace, Proper, Open, Spell, Value;
    if args == [] {
      assert LineOf(args) + post == post;
      SkipAllSpace(post);
      ParseArgsEnd(post, room);
    } else {
      var rest := LineOf(args[1..]) + post;
      var line := Spell(args[0].ps) + rest;
      assert LineOf(args) + post == args[0].gap + line;
      ParseSpelledArgs(args[1..], post, room - 1);
      LineEnds(args[1..], post);
      assert EndsToken(rest);
      ReadWellSpelled(args[0], rest);
      SkipSpacePrefix(args[0].gap, line);
      ParseArgsStep(args[0].gap + line, room);
    }
  }

  lemma ReadWellSpelled(arg: Spelled, rest: string)
    requires WellSpelled(arg) && EndsToken(rest)
    ensures var line := Spell(arg.ps) + rest;
      && line != "" && SkipSpace(line) == line
      && ScanArg(line, MAX_ARG_LEN - 1, false) == (Value(arg.ps), rest)
  {
    hide ScanArg;
    ProperAnywhere(arg.ps, false, rest);
    SpelledStarts(arg.ps, rest);
    SpelledIsRead(arg.ps, false, MAX_ARG_LEN - 1, rest);
    SkipKeeps(Spell(arg.ps) + rest);
  }

  /** The same word with its small letters made capital. */
  ghost predicate Capitals(upper: string, word: string) {
    && |upper| == |word|
    && forall i :: 0 <= i < |word| ==>
         upper[i] == if 'a' <= word[i] <= 'z' then (word[i] as int - 32) as char else word[i]
  }

  lemma {:induction false} TakeAnyCase(word: string, upper: string, rest: string, room: nat)
    requires |word| <= room && NoSpace(word) && Capitals(upper, word) && EndsToken(rest)
    ensures TakeWord(word + rest, room) == (upper, rest)
    decreases word
  {
    if word == "" {
      assert word + rest == rest;
    } else {
      assert (word + rest)[1..] == word[1..] + rest;
      TakeAnyCase(word[1..], upper[1..], rest, room - 1);
      assert upper == [upper[0]] + upper[1..];
    }
  }

  /** A line that is a word in any case and up to 256 arguments, each spelled in any way with its quotes closed
      and shorter than the buffer, with any white space around them, parses as the word in capitals and exactly
      those arguments. */
  lemma ParseReadsAnySpelling(pre: string, word: string, upper: string, args: seq<Spelled>, post: string)
    requires AllSpace(pre) && word != "" && NoSpace(word) && |word| < MAX_ARG_LEN && Capitals(upper, word)
    requires |args| <= MAX_ARGS && AllSpace(post) && forall i :: 0 <= i < |args| ==> WellSpelled(args[i])
    ensures Parse(pre + (word + (LineOf(args) + post))) == Command(upper, Values(args))
  {
    hide SkipSpace, TakeWord, ParseArgs, WellSpelled, LineOf, Capitals;
    var rest := LineOf(args) + post;
    LineEnds(args, post);
    SkipSpacePrefix(pre, word + rest);
    SkipKeeps(word + rest);
    TakeAnyCase(word, upper, rest, MAX_ARG_LEN - 1);
    ParseSpelledArgs(args, post, MAX_ARGS);
  }
}
