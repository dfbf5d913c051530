/** What a configuration file means: the fold of its lines over the defaults, the final fix-up of the
    passive range, and the narrowing of that range to 16 bits. */
module ConfigSpec {
  import opened Options
  import opened Text
  import opened PassiveMode

  const LINE_BUFFER: nat := 256
  const NAME_BUFFER: nat := 256
  const PATH_BUFFER: nat := 4096
  const INT_MIN: int := -0x8000_0000
  const INT_MAX: int := 0x7FFF_FFFF

  datatype Config = Config(
    maxConnections: int, connectionAcceptTimeout: int, dataConnectionAcceptTimeout: int,
    port: int, passivePortStart: int, passivePortEnd: int,
    serverName: string, sslCertFile: string, sslKeyFile: string)

  const DEFAULTS := Config(10000, 60, 9, 21, 40000, 41000,
    "Harkirat's FTP Server", "/etc/ssl/certs/cftp_server.crt", "/etc/ssl/private/cftp_server.key")

  datatype Field =
    | MaxConnections | ConnectionAcceptTimeout | DataConnectionAcceptTimeout
    | PassivePortStart | PassivePortEnd | ServerPort
    | ServerName | SslCertFile | SslKeyFile

  datatype Value = Number(n: int) | Words(s: string)

  function Key(f: Field): string {
    match f
    case MaxConnections => "max_connections"
    case ConnectionAcceptTimeout => "connection_accept_timeout"
    case DataConnectionAcceptTimeout => "data_connection_accept_timeout"
    case PassivePortStart => "passive_port_start"
    case PassivePortEnd => "passive_port_end"
    case ServerPort => "port"
    case ServerName => "server_name"
    case SslCertFile => "ssl_cert_file"
    case SslKeyFile => "ssl_key_file"
  }

  predicate IsWords(f: Field) {
    f == ServerName || f == SslCertFile || f == SslKeyFile
  }

  function Get(c: Config, f: Field): (v: Value)
    ensures v.Words? <==> IsWords(f)
  {
    match f
    case MaxConnections => Number(c.maxConnections)
    case ConnectionAcceptTimeout => Number(c.connectionAcceptTimeout)
    case DataConnectionAcceptTimeout => Number(c.dataConnectionAcceptTimeout)
    case PassivePortStart => Number(c.passivePortStart)
    case PassivePortEnd => Number(c.passivePortEnd)
    case ServerPort => Number(c.port)
    case ServerName => Words(c.serverName)
    case SslCertFile => Words(c.sslCertFile)
    case SslKeyFile => Words(c.sslKeyFile)
  }

  function Set(c: Config, f: Field, v: Value): (r: Config)
    requires v.Words? <==> IsWords(f)
    ensures forall g :: Get(r, g) == if g == f then v else Get(c, g)
  {
    match f
    case MaxConnections => c.(maxConnections := v.n)
    case ConnectionAcceptTimeout => c.(connectionAcceptTimeout := v.n)
    case DataConnectionAcceptTimeout => c.(dataConnectionAcceptTimeout := v.n)
    case PassivePortStart => c.(passivePortStart := v.n)
    case PassivePortEnd => c.(passivePortEnd := v.n)
    case ServerPort => c.(port := v.n)
    case ServerName => c.(serverName := v.s)
    case SslCertFile => c.(sslCertFile := v.s)
    case SslKeyFile => c.(sslKeyFile := v.s)
  }

  /** A configuration is its fields. */
  lemma SameFields(c: Config, d: Config)
    requires forall f :: Get(c, f) == Get(d, f)
    ensures c == d
  {
    assert Get(c, MaxConnections) == Get(d, MaxConnections);
    assert Get(c, ConnectionAcceptTimeout) == Get(d, ConnectionAcceptTimeout);
    assert Get(c, DataConnectionAcceptTimeout) == Get(d, DataConnectionAcceptTimeout);
    assert Get(c, PassivePortStart) == Get(d, PassivePortStart);
    assert Get(c, PassivePortEnd) == Get(d, PassivePortEnd);
    assert Get(c, ServerPort) == Get(d, ServerPort);
    assert Get(c, ServerName) == Get(d, ServerName);
    assert Get(c, SslCertFile) == Get(d, SslCertFile);
    assert Get(c, SslKeyFile) == Get(d, SslKeyFile);
  }

  // ---------------------------------------------------------------- values

  function Sign(negative: bool): int {
    if negative then -1 else 1
  }

  /** `strtol` in base ten, then nothing but white space, in the range of an `int`. */
  function ParseInt(v: string): Option<int> {
    var t := SkipSpace(v);
    var signed := t != "" && (t[0] == '-' || t[0] == '+');
    var digits := if signed then t[1..] else t;
    if !StartsWithDigit(digits) then None
    else
      var (n, rest) := ReadDigits(digits, 0);
      var value := Sign(signed && t[0] == '-') * n;
      if SkipSpace(rest) == "" && INT_MIN <= value <= INT_MAX then Some(value) else None
  }

  /** White space, a sign or none, one or more digits and white space. */
  ghost predicate IsNumeral(v: string, before: string, sign: string, digits: string, after: string) {
    && v == before + (sign + (digits + after)) && AllSpace(before) && AllSpace(after) && sign in {"", "+", "-"}
    && digits != "" && (forall i :: 0 <= i < |digits| ==> IsDigit(digits[i]))
  }

  ghost predicate Denotes(v: string, n: int) {
    exists before, sign, digits, after ::
      IsNumeral(v, before, sign, digits, after) && n == Sign(sign == "-") * NumberOf(digits)
  }

  lemma NumeralRead(v: string, before: string, sign: string, digits: string, after: string)
    requires IsNumeral(v, before, sign, digits, after)
    ensures var n := Sign(sign == "-") * NumberOf(digits);
      ParseInt(v) == if INT_MIN <= n <= INT_MAX then Some(n) else None
  {
    hide SkipSpace, ReadDigits, NumberOf;
    var t := sign + (digits + after);
    assert t[0] == (if sign == "" then digits[0] else sign[0]) && !IsSpace(t[0]);
    SkipSpacePrefix(before, t);
    SkipKeeps(t);
    assert (if sign == "" then t else t[1..]) == digits + after;
    ReadWhole(digits, after);
    SkipAllSpace(after);
  }

  /** A text sets a number exactly when it is a decimal numeral, signed or not, with nothing but white space
      around it, and the number fits an `int`. */
  lemma ParseIntExactly(v: string, n: int)
    ensures ParseInt(v) == Some(n) <==> Denotes(v, n) && INT_MIN <= n <= INT_MAX
  {
    hide SkipSpace, ReadDigits, NumberOf;
    if Denotes(v, n) {
      var before, sign, digits, after :|
        IsNumeral(v, before, sign, digits, after) && n == Sign(sign == "-") * NumberOf(digits);
      NumeralRead(v, before, sign, digits, after);
    }
    if ParseInt(v) == Some(n) {
      var before, sign, digits, after := ReadNumeral(v);
      NumeralRead(v, before, sign, digits, after);
    }
  }

  lemma ReadNumeral(v: string) returns (before: string, sign: string, digits: string, after: string)
    requires ParseInt(v).Some?
    ensures IsNumeral(v, before, sign, digits, after)
  {
    hide ReadDigits, NumberOf;
    var t := SkipSpace(v);
    before := TakeSpace(v);
    var signed := t != "" && (t[0] == '-' || t[0] == '+');
    sign := if signed then [t[0]] else "";
    var unsigned := if signed then t[1..] else t;
    digits, after := TakeDigits(unsigned);
    assert t == sign + unsigned;
    ReadWhole(digits, after);
    assert ReadDigits(unsigned, 0) == (NumberOf(digits), after);
    assert SkipSpace(after) == "";
    var rest := TakeSpace(after);
    assert after == rest + "" == rest;
  }

  /** The numbers a key accepts. */
  predicate InRange(f: Field, n: int) {
    match f
    case MaxConnections => n > 0
    case ConnectionAcceptTimeout | DataConnectionAcceptTimeout => n >= 0
    case PassivePortStart | PassivePortEnd => 1024 <= n <= 65535
    case ServerPort => 20 <= n <= 65535
    case _ => false
  }

  function Room(f: Field): nat {
    if f == ServerName then NAME_BUFFER - 1 else PATH_BUFFER - 1
  }

  function Cut(s: string, room: nat): string {
    if |s| <= room then s else s[..room]
  }

  /** The value a text gives to a field, unless the field refuses it. */
  function Accept(f: Field, v: string): (r: Option<Value>)
    ensures r.Some? ==> (r.value.Words? <==> IsWords(f))
  {
    if IsWords(f) then Some(Words(TrimRight(Cut(v, Room(f)))))
    else match ParseInt(v)
      case None => None
      case Some(n) => if InRange(f, n) then Some(Number(n)) else None
  }

  /** The texts a numeric key accepts, and the numbers it then has; every other text leaves it alone. */
  lemma NumberAccepted(f: Field, v: string, n: int)
    requires !IsWords(f)
    ensures Accept(f, v) == Some(Number(n)) <==>
      && Denotes(v, n) && n <= 0x7FFF_FFFF
      && (f == MaxConnections ==> n >= 1)
      && (f == ConnectionAcceptTimeout || f == DataConnectionAcceptTimeout ==> n >= 0)
      && (f == PassivePortStart || f == PassivePortEnd ==> 1024 <= n <= 65535)
      && (f == ServerPort ==> 20 <= n <= 65535)
    ensures Accept(f, v).Some? ==> exists m :: Accept(f, v) == Some(Number(m))
  {
    hide ParseInt, Denotes;
    ParseIntExactly(v, n);
    if Accept(f, v).Some? {
      assert Accept(f, v) == Some(Number(Accept(f, v).value.n));
    }
  }

  // ---------------------------------------------------------------- keys

  function Lower(s: string): (r: string)
    ensures |r| == |s|
    ensures forall i :: 0 <= i < |s| ==> r[i] == ToLower(s[i])
  {
    if s == "" then "" else [ToLower(s[0])] + Lower(s[1..])
  }

  predicate EqualsIcase(a: string, b: string) {
    Lower(a) == Lower(b)
  }

  const FIELDS: seq<Field> := [
    MaxConnections, ConnectionAcceptTimeout, DataConnectionAcceptTimeout, PassivePortStart,
    PassivePortEnd, ServerPort, ServerName, SslCertFile, SslKeyFile]

  function FirstMatch(fields: seq<Field>, k: string): (f: Option<Field>)
    ensures f.Some? ==> f.value in fields && EqualsIcase(k, Key(f.value))
    ensures f.None? ==> forall g :: g in fields ==> !EqualsIcase(k, Key(g))
  {
    if fields == [] then None
    else if EqualsIcase(k, Key(fields[0])) then Some(fields[0])
    else FirstMatch(fields[1..], k)
  }

  /** The chain of comparisons, in its order. */
  function FieldOf(k: string): Option<Field> {
    FirstMatch(FIELDS, k)
  }

  function KeyLength(f: Field): nat {
    match f
    case MaxConnections => 15
    case ConnectionAcceptTimeout => 25
    case DataConnectionAcceptTimeout => 30
    case PassivePortStart => 18
    case PassivePortEnd => 16
    case ServerPort => 4
    case ServerName => 11
    case SslCertFile => 13
    case SslKeyFile => 12
  }

  lemma KeyLengths(f: Field)
    ensures |Key(f)| == KeyLength(f)
  {
  }

  /** Keys are told apart by their lengths alone, so no letter case makes two of them meet. */
  lemma FieldOfKey(k: string, f: Field)
    requires EqualsIcase(k, Key(f))
    ensures FieldOf(k) == Some(f)
  {
    hide Key, Lower;
    var g := FirstMatch(FIELDS, k);
    assert f in FIELDS;
    KeyLengths(f);
    if g.Some? {
      KeyLengths(g.value);
    }
  }

  /** The nine keys. */
  lemma KnownKeys()
    ensures FieldOf("max_connections") == Some(MaxConnections)
    ensures FieldOf("connection_accept_timeout") == Some(ConnectionAcceptTimeout)
    ensures FieldOf("data_connection_accept_timeout") == Some(DataConnectionAcceptTimeout)
    ensures FieldOf("passive_port_start") == Some(PassivePortStart)
    ensures FieldOf("passive_port_end") == Some(PassivePortEnd)
    ensures FieldOf("port") == Some(ServerPort)
    ensures FieldOf("server_name") == Some(ServerName)
    ensures FieldOf("ssl_cert_file") == Some(SslCertFile)
    ensures FieldOf("ssl_key_file") == Some(SslKeyFile)
  {
    hide FieldOf, EqualsIcase;
    OwnKey(MaxConnections);
    OwnKey(ConnectionAcceptTimeout);
    OwnKey(DataConnectionAcceptTimeout);
    OwnKey(PassivePortStart);
    OwnKey(PassivePortEnd);
    OwnKey(ServerPort);
    OwnKey(ServerName);
    OwnKey(SslCertFile);
    OwnKey(SslKeyFile);
  }

  lemma OwnKey(f: Field)
    ensures FieldOf(Key(f)) == Some(f)
  {
    hide Key, Lower, FieldOf;
    FieldOfKey(Key(f), f);
  }

  /** A key is known exactly when it spells one of them in any letter case. */
  lemma KnownExactly(k: string)
    ensures FieldOf(k).Some? <==> exists f :: EqualsIcase(k, Key(f))
  {
    hide Lower, FieldOf, Key, EqualsIcase;
    FieldSpelled(k);
    if f :| EqualsIcase(k, Key(f)) {
      FieldOfKey(k, f);
    }
  }

  lemma FieldSpelled(k: string)
    ensures FieldOf(k).Some? ==> EqualsIcase(k, Key(FieldOf(k).value))
  {
    hide Key, Lower;
  }

  // ---------------------------------------------------------------- lines

  /** Position of the first such character, or the length. */
  function IndexOf(s: string, c: char): (i: nat)
    ensures i <= |s| && (i < |s| ==> s[i] == c)
    ensures forall j :: 0 <= j < i ==> s[j] != c
  {
    if s == "" || s[0] == c then 0 else 1 + IndexOf(s[1..], c)
  }

  /** The setting a line makes, if it makes one: a known key with an acceptable value. */
  function LineSetting(line: string): (r: Option<(Field, Value)>)
    ensures r.Some? ==> (r.value.1.Words? <==> IsWords(r.value.0))
  {
    var s := Trim(line);
    if s == "" || s[0] == '#' then None
    else
      var eq := IndexOf(s, '=');
      if eq == |s| then None else KeyValue(Trim(s[..eq]), Trim(s[eq + 1..]))
  }

  function KeyValue(k: string, v: string): (r: Option<(Field, Value)>)
    ensures r.Some? ==> (r.value.1.Words? <==> IsWords(r.value.0))
  {
    if k == "" then None
    else match FieldOf(k)
      case None => None
      case Some(f) => match Accept(f, v)
        case None => None
        case Some(value) => Some((f, value))
  }

  /** A trimmed line that is no comment, parted at its first '='. */
  ghost predicate PartsAt(s: string, k: string, v: string) {
    s == k + ("=" + v) && '=' !in k && (k == "" || k[0] != '#')
  }

  lemma FirstEquals(s: string, k: string, v: string)
    requires PartsAt(s, k, v)
    ensures IndexOf(s, '=') == |k| && s[..|k|] == k && s[|k| + 1..] == v
  {
    assert s[|k|] == '=';
  }

  /** A line sets a field exactly when, trimmed, it is no comment, what comes before its first '=' spells the
      field's key in any letter case with any white space around it, and the field accepts what comes after. */
  lemma LineSetsExactly(line: string, f: Field, value: Value)
    ensures LineSetting(line) == Some((f, value)) <==>
      exists k, v :: PartsAt(Trim(line), k, v) && EqualsIcase(Trim(k), Key(f)) && Accept(f, Trim(v)) == Some(value)
  {
    hide Trim, IndexOf, Lower, Key, Accept, PartsAt, KeyValue, EqualsIcase;
    var s := Trim(line);
    if LineSetting(line) == Some((f, value)) {
      var eq := IndexOf(s, '=');
      EqualsParts(s);
      KeyValueExactly(Trim(s[..eq]), Trim(s[eq + 1..]), f, value);
    }
    if k, v :| PartsAt(s, k, v) && EqualsIcase(Trim(k), Key(f)) && Accept(f, Trim(v)) == Some(value) {
      FirstEquals(s, k, v);
      KeyValueExactly(Trim(k), Trim(v), f, value);
      SpelledKey(Trim(k), f);
      PartsMean(s, k, v);
      KeyPresent(k);
    }
  }

  lemma KeyValueExactly(k: string, v: string, f: Field, value: Value)
    ensures KeyValue(k, v) == Some((f, value)) <==> EqualsIcase(k, Key(f)) && Accept(f, v) == Some(value)
  {
    hide Lower, Key, Accept;
    if EqualsIcase(k, Key(f)) {
      FieldOfKey(k, f);
      SpelledKey(k, f);
    }
  }

  lemma SplitAround(s: string, i: nat)
    requires i < |s|
    ensures s == s[..i] + ([s[i]] + s[i + 1..])
  {
  }

  lemma NotBefore(s: string, i: nat, c: char)
    requires i <= |s| && forall j :: 0 <= j < i ==> s[j] != c
    ensures c !in s[..i]
  {
  }

  lemma EqualsParts(s: string)
    requires s != "" && s[0] != '#' && IndexOf(s, '=') < |s|
    ensures var eq := IndexOf(s, '='); PartsAt(s, s[..eq], s[eq + 1..])
  {
    hide IndexOf;
    SplitAround(s, IndexOf(s, '='));
    NotBefore(s, IndexOf(s, '='), '=');
  }

  lemma PartsMean(s: string, k: string, v: string)
    requires PartsAt(s, k, v)
    ensures s != "" && |k| < |s| && (k != "" ==> s[0] != '#')
  {
  }

  lemma SpelledKey(k: string, f: Field)
    requires EqualsIcase(k, Key(f))
    ensures k != ""
  {
    hide Key, Lower;
    KeyLengths(f);
    assert |Lower(k)| == |Lower(Key(f))|;
  }

  lemma KeyPresent(k: string)
    ensures Trim(k) != "" ==> k != ""
  {
  }

  function Apply(c: Config, setting: Option<(Field, Value)>): Config
    requires setting.Some? ==> (setting.value.1.Words? <==> IsWords(setting.value.0))
  {
    if setting.None? then c else Set(c, setting.value.0, setting.value.1)
  }

  /** `fgets`: up to 255 characters, ending early behind a newline. */
  function Chunk(text: string): (n: nat)
    ensures n <= |text| && n < LINE_BUFFER && (text != "" ==> n > 0)
  {
    var newline := IndexOf(text, '\n');
    var n := if newline < |text| then newline + 1 else |text|;
    if n < LINE_BUFFER then n else LINE_BUFFER - 1
  }

  function Lines(text: string): seq<string> {
    if text == "" then [] else [CString(text[..Chunk(text)])] + Lines(text[Chunk(text)..])
  }

  /** One line of the text, or as much of it as the buffer takes. */
  predicate IsPiece(line: string, last: bool) {
    && 0 < |line| < LINE_BUFFER
    && (forall i :: 0 <= i < |line| - 1 ==> line[i] != '\n')
    && (line[|line| - 1] == '\n' || |line| == LINE_BUFFER - 1 || last)
  }

  function Joined(lines: seq<string>): string {
    if lines == [] then "" else lines[0] + Joined(lines[1..])
  }

  lemma {:induction false} CStringClean(s: string)
    requires '\0' !in s
    ensures CString(s) == s
  {
    if s != "" {
      CStringClean(s[1..]);
    }
  }

  lemma FirstPiece(text: string)
    requires text != ""
    ensures IsPiece(text[..Chunk(text)], Chunk(text) == |text|)
  {
  }

  /** Without NULs nothing of a text is lost: the lines put together are the text, and each ends behind its
      newline, with the buffer full, or with the text. */
  lemma {:induction false} LinesAreTheText(text: string)
    requires '\0' !in text
    ensures Joined(Lines(text)) == text
    ensures forall i :: 0 <= i < |Lines(text)| ==> IsPiece(Lines(text)[i], i == |Lines(text)| - 1)
  {
    hide IsPiece, Chunk, CString;
    if text != "" {
      var n := Chunk(text);
      var line, rest := text[..n], text[n..];
      CStringClean(line);
      FirstPiece(text);
      LinesAreTheText(rest);
      assert Lines(text) == [line] + Lines(rest);
      assert line + rest == text;
      assert rest == "" <==> n == |text|;
      forall i | 0 <= i < |Lines(text)|
        ensures IsPiece(Lines(text)[i], i == |Lines(text)| - 1)
      {
        assert i > 0 ==> Lines(text)[i] == Lines(rest)[i - 1];
      }
    }
  }

  function ReadLines(c: Config, lines: seq<string>): Config
    decreases lines
  {
    if lines == [] then c else ReadLines(Apply(c, LineSetting(lines[0])), lines[1..])
  }

  function PostValidate(c: Config): Config {
    var start := if c.passivePortStart < 1 then 1 else c.passivePortStart;
    var end := if c.passivePortEnd > 65535 then 65535 else c.passivePortEnd;
    if end < start then c.(passivePortStart := end, passivePortEnd := start)
    else c.(passivePortStart := start, passivePortEnd := end)
  }

  function Read(text: string): Config {
    PostValidate(ReadLines(DEFAULTS, Lines(text)))
  }

  /** The 16-bit passive range and its size, as stored in the server state. */
  function InitRange(start: int, end: int): (PortRange, int) {
    var (lo, hi) := if end < start then (end, start) else (start, end);
    var lo := if lo < 1 then 1 else lo;
    var hi := if hi > 65535 then 65535 else hi;
    (PortRange(lo % PORTS, hi % PORTS), hi - lo + 1)
  }

  // ---------------------------------------------------------------- the last acceptable value wins

  function LastAcceptable(lines: seq<string>, f: Field): Option<Value> {
    if lines == [] then None
    else
      var setting := LineSetting(lines[|lines| - 1]);
      if setting.Some? && setting.value.0 == f then Some(setting.value.1)
      else LastAcceptable(lines[..|lines| - 1], f)
  }

  lemma {:induction false} ReadLinesAppend(c: Config, lines: seq<string>, line: string)
    ensures ReadLines(c, lines + [line]) == Apply(ReadLines(c, lines), LineSetting(line))
    decreases lines
  {
    if lines == [] {
      assert (lines + [line])[1..] == [];
    } else {
      assert (lines + [line])[1..] == lines[1..] + [line];
      ReadLinesAppend(Apply(c, LineSetting(lines[0])), lines[1..], line);
    }
  }

  /** Before the final swap every field has the last acceptable value given for its key, or its
      default. */
  lemma {:induction false} LastAcceptableWins(c: Config, lines: seq<string>, f: Field)
    ensures Get(ReadLines(c, lines), f)
         == if LastAcceptable(lines, f).Some? then LastAcceptable(lines, f).value else Get(c, f)
    decreases lines
  {
    hide LineSetting;
    if lines != [] {
      var n := |lines| - 1;
      assert lines == lines[..n] + [lines[n]];
      ReadLinesAppend(c, lines[..n], lines[n]);
      LastAcceptableWins(c, lines[..n], f);
    }
  }

  /** A file that sets nothing leaves every default. */
  lemma DefaultsStay(text: string)
    requires forall i :: 0 <= i < |Lines(text)| ==> LineSetting(Lines(text)[i]) == None
    ensures Read(text) == Config(10000, 60, 9, 21, 40000, 41000, "Harkirat's FTP Server",
      "/etc/ssl/certs/cftp_server.crt", "/etc/ssl/private/cftp_server.key")
  {
    hide Lines, LineSetting;
    NothingSet(DEFAULTS, Lines(text));
  }

  lemma {:induction false} NothingSet(c: Config, lines: seq<string>)
    requires forall i :: 0 <= i < |lines| ==> LineSetting(lines[i]) == None
    ensures ReadLines(c, lines) == c
    decreases lines
  {
    hide LineSetting;
    if lines != [] {
      NothingSet(c, lines[1..]);
    }
  }

  // ---------------------------------------------------------------- bounds

  predicate InBounds(c: Config) {
    && c.maxConnections >= 1 && c.connectionAcceptTimeout >= 0 && c.dataConnectionAcceptTimeout >= 0
    && 20 <= c.port <= 65535
    && 1024 <= c.passivePortStart <= c.passivePortEnd <= 65535
  }

  lemma LineInRange(line: string)
    ensures var s := LineSetting(line);
      s.Some? && s.value.1.Number? ==> InRange(s.value.0, s.value.1.n)
  {
  }

  lemma {:induction false} LastInRange(lines: seq<string>, f: Field)
    ensures var v := LastAcceptable(lines, f);
      v.Some? && v.value.Number? ==> InRange(f, v.value.n)
    decreases lines
  {
    hide LineSetting;
    if lines != [] {
      LineInRange(lines[|lines| - 1]);
      LastInRange(lines[..|lines| - 1], f);
    }
  }

  /** Whatever the file says, the configuration read is usable: every number within its bounds and the
      passive range the right way round. */
  lemma ReadInBounds(text: string)
    ensures InBounds(Read(text))
  {
    hide ReadLines, LastAcceptable;
    var lines := Lines(text);
    var c := ReadLines(DEFAULTS, lines);
    forall f | !IsWords(f)
      ensures InRange(f, Get(c, f).n)
    {
      LastAcceptableWins(DEFAULTS, lines, f);
      LastInRange(lines, f);
    }
    assert InRange(MaxConnections, Get(c, MaxConnections).n);
    assert InRange(ConnectionAcceptTimeout, Get(c, ConnectionAcceptTimeout).n);
    assert InRange(DataConnectionAcceptTimeout, Get(c, DataConnectionAcceptTimeout).n);
    assert InRange(ServerPort, Get(c, ServerPort).n);
    assert InRange(PassivePortStart, Get(c, PassivePortStart).n);
    assert InRange(PassivePortEnd, Get(c, PassivePortEnd).n);
  }

  /** The final fix-up only ever exchanges the two bounds. */
  lemma PostValidateSwaps(text: string)
    ensures var c := ReadLines(DEFAULTS, Lines(text));
      Read(text) == if c.passivePortStart <= c.passivePortEnd then c
        else c.(passivePortStart := c.passivePortEnd, passivePortEnd := c.passivePortStart)
  {
    hide ReadLines, LastAcceptable;
    var lines := Lines(text);
    LastAcceptableWins(DEFAULTS, lines, PassivePortStart);
    LastInRange(lines, PassivePortStart);
    LastAcceptableWins(DEFAULTS, lines, PassivePortEnd);
    LastInRange(lines, PassivePortEnd);
  }

  /** Narrowing the range read to 16 bits loses nothing, and the range is never empty. */
  lemma NarrowingIsLossless(text: string)
    ensures var c := Read(text);
      var (range, n) := InitRange(c.passivePortStart, c.passivePortEnd);
      && range.start == c.passivePortStart && range.end == c.passivePortEnd
      && InWord(range) && n == c.passivePortEnd - c.passivePortStart + 1 >= 1
  {
    hide Read;
    ReadInBounds(text);
  }
}
