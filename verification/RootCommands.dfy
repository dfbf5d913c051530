/** The conversation in which an unprivileged child asks the root process for the name behind a user or
    group id: the child's printer, the parent's tokenizer and reader, and the child's reply buffer. */
module RootCommands {
  import opened Options
  import opened Text
  import opened CommandParser
  import opened CommandPrinter

  const IPC_BUFFER: nat := 256
  const TWO_32: nat := 0x1_0000_0000
  const ULONG_MAX: nat := 0xFFFF_FFFF_FFFF_FFFF
  const INVALID_ID: string := "500 Invalid UID format\r\n"
  const INVALID_GROUP_ID: string := "500 Invalid GID format\r\n"

  /** The passwd or group database: the name of an id, if it has one. */
  type Names = nat -> Option<string>

  /** The part of a printed string that fits a buffer of this size with its terminator. */
  function Fits(s: string, size: nat): string
    requires size > 0
  {
    if |s| < size then s else s[..size - 1]
  }

  // ---------------------------------------------------------------- reading an id

  /** A value saturates at 64 bits, is negated there if signed, and keeps its low 32 bits. */
  function LowWord(negative: bool, v: nat): nat {
    var word := if v > ULONG_MAX then ULONG_MAX
                else if negative then (ULONG_MAX + 1 - v) % (ULONG_MAX + 1)
                else v;
    word % TWO_32
  }

  /** `sscanf("%u")` into 32 bits: white space, an optional sign, then at least one digit. */
  function ScanUnsigned(s: string): Option<nat> {
    var t := SkipSpace(s);
    var signed := t != "" && (t[0] == '-' || t[0] == '+');
    var digits := if signed then t[1..] else t;
    if !StartsWithDigit(digits) then None
    else
      Some(LowWord(signed && t[0] == '-', ReadDigits(digits, 0).0))
  }

  lemma ScanDecimal(id: nat)
    requires id < TWO_32
    ensures ScanUnsigned(Decimal(id)) == Some(id)
  {
    hide Decimal, ReadDigits, SkipSpace;
    ReadDecimalExactly(id, "");
    assert Decimal(id) + "" == Decimal(id);
    SkipKeeps(Decimal(id));
  }

  // ---------------------------------------------------------------- the parent

  function NameReply(names: Names, id: nat): string {
    Fits(match names(id) case Some(name) => name case None => "unknown", MAX_ARG_LEN) + "\0"
  }

  /** What the parent writes back, if anything. */
  function RootReply(cmd: Command, users: Names, groups: Names): Option<string> {
    if |cmd.args| != 1 then Some(INVALID_ID)
    else if cmd.command == "UID" then
      match ScanUnsigned(cmd.args[0])
      case None => Some(INVALID_ID)
      case Some(id) => Some(NameReply(users, id))
    else if cmd.command == "GID" then
      match ScanUnsigned(cmd.args[0])
      case None => Some(INVALID_GROUP_ID)
      case Some(id) => Some(NameReply(groups, id))
    else None
  }

  method ExecuteRootCommand(input: string, users: Names, groups: Names) returns (reply: Option<string>)
    ensures reply == RootReply(Parse(input), users, groups)
  {
    var cmd := ParseTextCommand(input);
    if |cmd.args| != 1 {
      return Some(INVALID_ID);
    }
    reply := None;
    if cmd.command == "UID" {
      var requested := ScanUnsigned(cmd.args[0]);
      if requested.None? {
        return Some(INVALID_ID);
      }
      reply := Some(NameReply(users, requested.value));
    } else if cmd.command == "GID" {
      var requested := ScanUnsigned(cmd.args[0]);
      if requested.None? {
        return Some(INVALID_GROUP_ID);
      }
      reply := Some(NameReply(groups, requested.value));
    }
  }

  /** The value read: that of the numeral modulo 2^32, negative or not, as long as its digits fit 64 bits, and
      2^32 - 1 when they do not. */
  lemma ScanValue(before: string, sign: string, digits: string, rest: string)
    requires AllSpace(before) && sign in {"", "+", "-"} && digits != ""
    requires (forall i :: 0 <= i < |digits| ==> IsDigit(digits[i])) && !StartsWithDigit(rest)
    ensures
      var n: int := NumberOf(digits);
      ScanUnsigned(before + (sign + (digits + rest))) == Some(
        if n > 0xFFFF_FFFF_FFFF_FFFF then 0xFFFF_FFFF
        else (if sign == "-" then -n else n) % 0x1_0000_0000)
  {
    hide ScanUnsigned, LowWord, NumberOf;
    ScanParts(before, sign, digits, rest);
    LowWordIs(sign == "-", NumberOf(digits));
  }

  lemma ScanParts(before: string, sign: string, digits: string, rest: string)
    requires AllSpace(before) && sign in {"", "+", "-"} && digits != ""
    requires (forall i :: 0 <= i < |digits| ==> IsDigit(digits[i])) && !StartsWithDigit(rest)
    ensures ScanUnsigned(before + (sign + (digits + rest))) == Some(LowWord(sign == "-", NumberOf(digits)))
  {
    hide ReadDigits, SkipSpace, NumberOf, LowWord;
    var t := sign + (digits + rest);
    SkipSpacePrefix(before, t);
    assert t[0] == (if sign == "" then digits[0] else sign[0]);
    SkipKeeps(t);
    assert (if sign == "" then t else t[1..]) == digits + rest;
    ReadWhole(digits, rest);
  }

  lemma LowWordIs(negative: bool, v: nat)
    ensures var n: int := v;
      LowWord(negative, v) == if v > ULONG_MAX then TWO_32 - 1 else (if negative then -n else n) % TWO_32
  {
  }

  /** A text is read as a number exactly when, behind white space and a sign or none, it goes on with a digit. */
  lemma ScanExactly(s: string)
    ensures ScanUnsigned(s).Some? <==>
      exists before, sign, more :: LeadsWithNumber(s, before, sign, more)
  {
    hide ReadDigits, SkipSpace, LowWord;
    if ScanUnsigned(s).Some? {
      var t := SkipSpace(s);
      var before := TakeSpace(s);
      var signed := t != "" && (t[0] == '-' || t[0] == '+');
      var sign := if signed then [t[0]] else "";
      var more := if signed then t[1..] else t;
      assert t == sign + more;
      assert LeadsWithNumber(s, before, sign, more);
    }
    if before, sign, more :| LeadsWithNumber(s, before, sign, more) {
      var t := sign + more;
      SkipSpacePrefix(before, t);
      assert t[0] == (if sign == "" then more[0] else sign[0]);
      SkipKeeps(t);
      assert (if sign == "" then t else t[1..]) == more;
    }
  }

  predicate LeadsWithNumber(s: string, before: string, sign: string, more: string) {
    s == before + (sign + more) && AllSpace(before) && sign in {"", "+", "-"} && StartsWithDigit(more)
  }

  /** The parent refuses exactly what does not have one argument, and a UID or GID whose argument is no number;
      it leaves exactly other words with one argument unanswered. */
  lemma RefusedExactly(cmd: Command, users: Names, groups: Names)
    ensures
      var reply := RootReply(cmd, users, groups);
      var asks := cmd.command == "UID" || cmd.command == "GID";
      && (reply == None <==> |cmd.args| == 1 && !asks)
      && (reply == Some(INVALID_ID) || reply == Some(INVALID_GROUP_ID) <==>
           |cmd.args| != 1
           || (asks && !exists before, sign, more :: LeadsWithNumber(cmd.args[0], before, sign, more)))
  {
    hide ScanUnsigned, LeadsWithNumber, Fits;
    if |cmd.args| == 1 {
      ScanExactly(cmd.args[0]);
      var id := ScanUnsigned(cmd.args[0]);
      if id.Some? {
        EndsInNul(users, id.value);
        EndsInNul(groups, id.value);
      }
    }
  }

  lemma EndsInNul(names: Names, id: nat)
    ensures var reply := NameReply(names, id);
      reply[|reply| - 1] == '\0' && reply != INVALID_ID && reply != INVALID_GROUP_ID
  {
  }

  // ---------------------------------------------------------------- the child

  datatype Kind = User | Group

  function Word(kind: Kind): string {
    match kind case User => "UID" case Group => "GID"
  }

  /** The request as it leaves the caller's buffer. */
  function Request(kind: Kind, id: nat): string {
    Fits(Word(kind) + " " + Decimal(id), IPC_BUFFER)
  }

  /** The caller's buffer after the reply callback: what was read, cut to the buffer, as a C string. */
  function Received(reply: string): string {
    CString(Fits(reply, IPC_BUFFER))
  }

  // ---------------------------------------------------------------- the round trip

  lemma IdLength(id: nat)
    requires id < TWO_32
    ensures |Decimal(id)| <= 10
  {
    assert PowerOfTen(10) == 10_000_000_000 by {
      assert PowerOfTen(5) == 100_000;
    }
    DecimalLength(id, 10);
  }

  lemma RequestFits(kind: Kind, id: nat)
    requires id < TWO_32
    ensures Request(kind, id) == Word(kind) + " " + Decimal(id)
  {
    IdLength(id);
  }

  lemma {:induction false} ScanUnquoted(arg: string, room: nat)
    requires |arg| <= room && NoSpace(arg)
    requires forall i :: 0 <= i < |arg| ==> arg[i] != '"' && arg[i] != '\\'
    ensures ScanArg(arg, room, false) == (arg, "")
  {
    if arg != "" {
      ScanUnquoted(arg[1..], room - 1);
      assert arg == [arg[0]] + arg[1..];
    }
  }

  lemma ParseRequest(kind: Kind, id: nat)
    requires id < TWO_32
    ensures Parse(Request(kind, id)) == Command(Word(kind), [Decimal(id)])
  {
    hide Decimal, ScanArg, TakeWord, ParseArgs;
    var digits := Decimal(id);
    var line := Word(kind) + (" " + digits);
    RequestFits(kind, id);
    assert Request(kind, id) == line;
    SkipKeeps(line);
    TakePrinted(Word(kind), " " + digits, MAX_ARG_LEN - 1);
    IdLength(id);
    SkipSpacePrefix(" ", digits);
    SkipKeeps(digits);
    ScanUnquoted(digits, MAX_ARG_LEN - 1);
    ParseArgsStep(" " + digits, MAX_ARGS);
    ParseArgsEnd("", MAX_ARGS - 1);
  }

  lemma {:induction false} CStringOf(s: string, rest: string)
    requires '\0' !in s && (rest == "" || rest[0] == '\0')
    ensures CString(s + rest) == s
  {
    if s == "" {
      assert s + rest == rest;
    } else {
      assert (s + rest)[1..] == s[1..] + rest;
      CStringOf(s[1..], rest);
    }
  }

  /** For every 32-bit id the parent reads back the child's id, and the child ends up with the name
      the right database has for it, as far as its buffer goes. */
  lemma AskedNameArrives(kind: Kind, id: nat, users: Names, groups: Names, name: string)
    requires id < TWO_32 && '\0' !in name
    requires (if kind.User? then users(id) else groups(id)) == Some(name)
    ensures var reply := RootReply(Parse(Request(kind, id)), users, groups);
      reply.Some? && Received(reply.value) == Fits(name, IPC_BUFFER)
  {
    ParseRequest(kind, id);
    ScanDecimal(id);
    var text := Fits(name, MAX_ARG_LEN) + "\0";
    var shown := Fits(name, IPC_BUFFER);
    if |name| < IPC_BUFFER - 1 {
      assert Fits(text, IPC_BUFFER) == shown + "\0";
      CStringOf(shown, "\0");
    } else {
      assert Fits(text, IPC_BUFFER) == shown + "";
      CStringOf(shown, "");
    }
  }
}
