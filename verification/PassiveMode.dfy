/** Opening the passive listener: the port scan with its 16-bit counter, and the replies that tell the
    client where to connect. */
module PassiveMode {
  import opened Options
  import opened Text

  const PORTS: nat := 0x1_0000

  /** The inclusive range the configuration leaves for passive ports. */
  datatype PortRange = PortRange(start: nat, end: nat)

  /** A port number and an IPv4 address in host order. */
  type Port = n: nat | n < PORTS
  type Address = n: nat | n < 0x1_0000_0000

  predicate InWord(range: PortRange) {
    range.start < PORTS && range.end < PORTS
  }

  // ---------------------------------------------------------------- the scan

  /** The least port from `lo` to `hi` that can be bound. */
  function Least(free: set<nat>, lo: nat, hi: nat): (p: Option<nat>)
    ensures p.Some? ==> lo <= p.value <= hi && p.value in free
    ensures forall q :: lo <= q <= hi && q in free ==> p.Some? && p.value <= q
    decreases hi + 1 - lo
  {
    if lo > hi then None else if lo in free then Some(lo) else Least(free, lo + 1, hi)
  }

  /** The port the scan binds. A range that ends at the last port lets the counter wrap, so that the
      scan goes on from port 0. */
  function PassivePort(range: PortRange, free: set<nat>): Option<nat> {
    var p := Least(free, range.start, range.end);
    if p.Some? || range.end < PORTS - 1 then p else Least(free, 0, PORTS - 1)
  }

  /** The port a bind really gives: asked for port 0, the system chooses one. */
  function BoundPort(port: nat, ephemeral: nat): nat {
    if port == 0 then ephemeral else port
  }

  /** Whether the loop ever ends. */
  predicate ScanEnds(range: PortRange, free: set<nat>) {
    range.end < PORTS - 1 || Least(free, 0, PORTS - 1).Some?
  }

  /** The scan. `dataPort` is left at the last port tried. */
  method ScanPorts(range: PortRange, free: set<nat>, oldDataPort: nat)
    returns (listener: Option<nat>, dataPort: nat, port: nat)
    requires InWord(range) && ScanEnds(range, free)
    ensures listener == PassivePort(range, free)
    ensures listener.Some? ==> dataPort == port == listener.value
    ensures listener.None? ==> dataPort == if range.start <= range.end then range.end else oldDataPort
  {
    listener, dataPort, port := None, oldDataPort, range.start;
    ghost var wrapped := false;
    while port <= range.end
      invariant port <= PORTS && listener == None
      invariant wrapped ==> range.end == PORTS - 1 && Least(free, range.start, range.end) == None
      invariant !wrapped ==> range.start <= port && (port == range.start || port <= range.end + 1)
      invariant !wrapped ==> Least(free, range.start, range.end) == Least(free, port, range.end)
      invariant wrapped ==> Least(free, 0, PORTS - 1) == Least(free, port, PORTS - 1)
      invariant !wrapped && port > range.start ==> dataPort == port - 1
      invariant !wrapped && port == range.start ==> dataPort == oldDataPort
      invariant port < PORTS
      decreases if wrapped then 0 else 1, PORTS - port
    {
      dataPort := port;
      if port in free {
        listener := Some(port);
        break;
      }
      if port + 1 == PORTS {
        wrapped := true;
      }
      port := (port + 1) % PORTS;
    }
  }

  /** The counter after `n` turns, and whether the loop is still going then. */
  function Counter(range: PortRange, n: nat): nat {
    (range.start + n) % PORTS
  }

  ghost predicate StillScanning(range: PortRange, free: set<nat>, n: nat) {
    forall k :: 0 <= k <= n ==> Counter(range, k) <= range.end && Counter(range, k) !in free
  }

  /** The loop runs forever exactly when the range ends at the last port and no port at all can be
      bound. */
  lemma ScanForeverExactly(range: PortRange, free: set<nat>)
    requires InWord(range)
    ensures (forall n :: StillScanning(range, free, n)) <==> !ScanEnds(range, free)
  {
    if ScanEnds(range, free) {
      if range.end < PORTS - 1 {
        var n := PORTS - 1 - range.start;
        assert Counter(range, n) == PORTS - 1;
        assert !StillScanning(range, free, n);
      } else {
        var p := Least(free, 0, PORTS - 1).value;
        var n := if p >= range.start then p - range.start else p + PORTS - range.start;
        assert Counter(range, n) == p;
        assert !StillScanning(range, free, n);
      }
    }
  }

  /** When some port of the range can be bound, the scan stops at the least such one. */
  lemma ScanFindsLeast(range: PortRange, free: set<nat>, q: nat)
    requires InWord(range) && range.start <= q <= range.end && q in free
    ensures ScanEnds(range, free)
    ensures var p := PassivePort(range, free);
      && p.Some? && range.start <= p.value <= q && p.value in free
      && forall r :: range.start <= r < p.value ==> r !in free
  {
  }

  // ---------------------------------------------------------------- the replies

  function Byte(address: Address, shift: nat): (b: nat)
    requires shift > 0
    ensures b < 256
  {
    address / shift % 256
  }

  /** Numbers separated by commas. */
  function Join(v: seq<nat>): string {
    if v == [] then ""
    else if |v| == 1 then Decimal(v[0])
    else Decimal(v[0]) + ("," + Join(v[1..]))
  }

  function PassiveNumbers(address: Address, port: Port): seq<nat> {
    [Byte(address, 0x100_0000), Byte(address, 0x1_0000), Byte(address, 0x100), Byte(address, 1),
     port / 256, port % 256]
  }

  function PassiveText(address: Address, port: Port): string {
    "Entering Passive Mode. " + Join(PassiveNumbers(address, port))
  }

  function ExtendedText(port: Port): string {
    "Entering Extended Passive Mode " + ("(" + ("|||" + (Decimal(port) + "|)")))
  }

  /** `send_control_message`: the code, the text and the end of the line. */
  function ControlLine(code: nat, text: string): string {
    Decimal(code) + (" " + (text + "\r\n"))
  }

  // ---------------------------------------------------------------- the client

  /** Drops everything up to the first digit. */
  function ToDigit(s: string): (r: string)
    ensures |r| <= |s|
  {
    if s == "" || IsDigit(s[0]) then s else ToDigit(s[1..])
  }

  /** Drops everything up to and including the first such character. */
  function After(s: string, c: char): (r: string)
    ensures |r| <= |s|
  {
    if s == "" then "" else if s[0] == c then s[1..] else After(s[1..], c)
  }

  /** Reads `n` numbers separated by commas. */
  function ReadNumbers(s: string, n: nat): Option<seq<nat>>
    decreases n
  {
    if n == 0 then Some([])
    else if !StartsWithDigit(s) then None
    else
      var (v, rest) := ReadDigits(s, 0);
      if n == 1 then Some([v])
      else if rest == "" || rest[0] != ',' then None
      else match ReadNumbers(rest[1..], n - 1)
        case None => None
        case Some(vs) => Some([v] + vs)
  }

  /** RFC 959, section 4.1.2: h1,h2,h3,h4,p1,p2 behind the reply code and free text. */
  function DecodePassive(line: string): Option<(nat, nat)> {
    match ReadNumbers(ToDigit(After(line, ' ')), 6)
    case None => None
    case Some(v) =>
      if |v| == 6 then Some((((v[0] * 256 + v[1]) * 256 + v[2]) * 256 + v[3], v[4] * 256 + v[5])) else None
  }

  /** RFC 2428, section 3: the port between the third and fourth delimiters inside the parentheses. */
  function DecodeExtended(line: string): Option<nat> {
    var s := After(line, '(');
    if |s| < 3 || s[0] != s[1] || s[1] != s[2] || !StartsWithDigit(s[3..]) then None
    else
      var (v, rest) := ReadDigits(s[3..], 0);
      if |rest| >= 2 && rest[0] == s[0] && rest[1] == ')' then Some(v) else None
  }

  // ---------------------------------------------------------------- the round trip

  lemma {:induction false} ReadJoined(v: seq<nat>, rest: string)
    requires v != [] && !StartsWithDigit(rest)
    ensures ReadNumbers(Join(v) + rest, |v|) == Some(v)
  {
    if |v| == 1 {
      ReadDecimalExactly(v[0], rest);
      assert v == [v[0]];
    } else {
      var tail := "," + (Join(v[1..]) + rest);
      assert Join(v) + rest == Decimal(v[0]) + tail;
      assert tail[1..] == Join(v[1..]) + rest;
      ReadDecimalExactly(v[0], tail);
      ReadJoined(v[1..], rest);
      assert v == [v[0]] + v[1..];
    }
  }

  lemma {:induction false} ToDigitSkips(s: string, t: string)
    requires forall i :: 0 <= i < |s| ==> !IsDigit(s[i])
    ensures ToDigit(s + t) == ToDigit(t)
  {
    if s == "" {
      assert s + t == t;
    } else {
      assert (s + t)[1..] == s[1..] + t;
      ToDigitSkips(s[1..], t);
    }
  }

  lemma {:induction false} AfterSkips(s: string, c: char, t: string)
    requires c !in s
    ensures After(s + [c] + t, c) == t
  {
    if s == "" {
      assert s + [c] + t == [c] + t;
    } else {
      assert (s + [c] + t)[1..] == s[1..] + [c] + t;
      AfterSkips(s[1..], c, t);
    }
  }

  lemma CodeHasNoSpace(code: nat)
    ensures ' ' !in Decimal(code) && '(' !in Decimal(code)
  {
  }

  lemma AddressFromBytes(address: Address)
    ensures ((Byte(address, 0x100_0000) * 256 + Byte(address, 0x1_0000)) * 256 + Byte(address, 0x100)) * 256
      + Byte(address, 1) == address
  {
    assert address / 0x1_0000 == address / 0x100 / 256;
    assert address / 0x100_0000 == address / 0x1_0000 / 256;
  }

  /** A client that decodes the 227 line gets the server's address and the listening port. */
  lemma PassiveReplyDecodes(address: Address, port: Port)
    ensures DecodePassive(ControlLine(227, PassiveText(address, port))) == Some((address, port))
  {
    hide Decimal, Join, ReadNumbers, ToDigit, After, Byte;
    var v := PassiveNumbers(address, port);
    var line := ControlLine(227, PassiveText(address, port));
    var words := "Entering Passive Mode. ";
    var numbers := Join(v) + "\r\n";
    assert line == Decimal(227) + [' '] + (words + numbers);
    CodeHasNoSpace(227);
    AfterSkips(Decimal(227), ' ', words + numbers);
    ToDigitSkips(words, numbers);
    JoinStartsWithDigit(v, "\r\n");
    ReadJoined(v, "\r\n");
    AddressFromBytes(address);
  }

  lemma JoinStartsWithDigit(v: seq<nat>, rest: string)
    requires v != []
    ensures ToDigit(Join(v) + rest) == Join(v) + rest
  {
  }

  lemma DelimitedPort(port: Port, tail: string)
    requires !StartsWithDigit(tail)
    ensures var inside := "|||" + (Decimal(port) + tail);
      && inside[0] == inside[1] == inside[2] == '|'
      && StartsWithDigit(inside[3..]) && ReadDigits(inside[3..], 0) == (port, tail)
  {
    hide Decimal, ReadDigits;
    var inside := "|||" + (Decimal(port) + tail);
    assert inside[3..] == Decimal(port) + tail;
    ReadDecimalExactly(port, tail);
  }

  lemma Reassociate(a: string, b: string, c: string, d: string, e: string)
    ensures a + (" " + ((b + (c + d)) + e)) == (a + (" " + b)) + c + (d + e)
  {
  }

  lemma ExtendedLine(port: Port)
    ensures ControlLine(229, ExtendedText(port))
         == (Decimal(229) + (" " + "Entering Extended Passive Mode ")) + ['('] + ("|||" + (Decimal(port) + "|)\r\n"))
  {
    hide Decimal;
    var inside := "|||" + (Decimal(port) + "|)");
    Reassociate(Decimal(229), "Entering Extended Passive Mode ", "(", inside, "\r\n");
    assert inside + "\r\n" == "|||" + (Decimal(port) + "|)\r\n");
  }

  lemma NoParenthesis()
    ensures '(' !in Decimal(229) + (" " + "Entering Extended Passive Mode ")
  {
    CodeHasNoSpace(229);
  }

  /** A client that decodes the 229 line gets the listening port. */
  lemma ExtendedReplyDecodes(port: Port)
    ensures DecodeExtended(ControlLine(229, ExtendedText(port))) == Some(port)
  {
    hide Decimal, After, ReadDigits, ControlLine, ExtendedText;
    var before := Decimal(229) + (" " + "Entering Extended Passive Mode ");
    ExtendedLine(port);
    NoParenthesis();
    AfterSkips(before, '(', "|||" + (Decimal(port) + "|)\r\n"));
    DelimitedPort(port, "|)\r\n");
  }
}
