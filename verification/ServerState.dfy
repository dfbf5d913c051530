/** The server state that the configuration is read into, as far as passive ports go. */
module ServerStates {
  import opened Options
  import opened Text
  import opened PassiveMode
  import opened ConfigSpec
  import opened ConfigRender
  import opened ConfigReader

  class ServerState {
    var config: Configurations
    var pasvRange: PortRange
    var pasvCount: int

    /** Whatever the configuration file says, or without one, the 16-bit range the passive scan walks is
        the configured one, and not empty. */
    constructor (file: Option<string>)
      ensures fresh(config)
      ensures config.Contents() == if file.Some? then Read(file.value) else DEFAULTS
      ensures InWord(pasvRange) && InBounds(config.Contents())
      ensures pasvRange == PortRange(config.Contents().passivePortStart, config.Contents().passivePortEnd)
      ensures pasvCount == pasvRange.end - pasvRange.start + 1 >= 1
    {
      hide Read;
      var c := ReadConfigurations(file);
      config := c;
      pasvRange, pasvCount := PortRange(0, 0), 0;
      new;
      if file.Some? {
        ReadInBounds(file.value);
        NarrowingIsLossless(file.value);
      }
      ConnectionsInitPasvRange(config.passivePortStart, config.passivePortEnd);
    }

    method ConnectionsInitPasvRange(start: int, end: int)
      modifies `pasvRange, `pasvCount
      ensures (pasvRange, pasvCount) == InitRange(start, end)
    {
      var lo, hi := start, end;
      if hi < lo {
        var t := lo;
        lo := hi;
        hi := t;
      }
      if lo < 1 {
        lo := 1;
      }
      if hi > 65535 {
        hi := 65535;
      }
      pasvRange := PortRange(lo % PORTS, hi % PORTS);
      pasvCount := hi - lo + 1;
    }
  }

  /** A configuration file can leave a range on which the passive scan never ends: this is one line that
      moves the end of the default range to the last port. */
  const LAST_PORT_FILE := Render(DEFAULTS.(passivePortEnd := 65535), [LAST_PORT_LINE])
  const LAST_PORT_LINE := Setting(PassivePortEnd, Key(PassivePortEnd), "", "", "", "")

  lemma LastPortLine()
    ensures ItemOk(DEFAULTS.(passivePortEnd := 65535), LAST_PORT_LINE)
  {
    hide Key, Decimal, Lower;
    assert PowerOfTen(5) == 100_000;
    DecimalLength(65535, 5);
    KeyLengths(PassivePortEnd);
    KeyIsKeyChars(PassivePortEnd);
    var key, digits := Key(PassivePortEnd), Decimal(65535);
    assert LineText(DEFAULTS.(passivePortEnd := 65535), LAST_PORT_LINE) == key + "=" + digits;
  }

  lemma DefaultsExpressible()
    ensures Expressible(DEFAULTS.(passivePortEnd := 65535))
  {
    hide Trim;
    TrimKeepsWord(DEFAULTS.serverName);
    TrimKeepsWord(DEFAULTS.sslCertFile);
    TrimKeepsWord(DEFAULTS.sslKeyFile);
  }

  lemma TrimKeepsWord(s: string)
    requires s != "" && !IsSpace(s[0]) && !IsSpace(s[|s| - 1])
    ensures Trim(s) == s
  {
  }

  lemma LastPortRead()
    ensures Read(LAST_PORT_FILE) == DEFAULTS.(passivePortEnd := 65535)
  {
    hide LineSetting, LineText, ItemOk, Lines, Render, Expressible;
    var c := DEFAULTS.(passivePortEnd := 65535);
    DefaultsExpressible();
    LastPortLine();
    LinesOfRendered(c, [LAST_PORT_LINE]);
    SettingLine(c, LAST_PORT_LINE);
    var line := LineText(c, LAST_PORT_LINE) + "\n";
    assert Lines(LAST_PORT_FILE) == [line];
    ReadLinesAppend(DEFAULTS, [], line);
    assert [] + [line] == [line];
    assert ReadLines(DEFAULTS, [line]) == Apply(DEFAULTS, LineSetting(line));
    assert LineSetting(line) == Some((PassivePortEnd, Number(65535)));
  }

  /** With that file and no port left to bind, the loop runs forever. */
  lemma ConfiguredScanForever()
    ensures
      var c := Read(LAST_PORT_FILE);
      var range := InitRange(c.passivePortStart, c.passivePortEnd).0;
      range == PortRange(40000, 65535) && forall n :: StillScanning(range, {}, n)
  {
    hide Read;
    LastPortRead();
    ScanForeverExactly(PortRange(40000, 65535), {});
    NothingFree(0, PORTS - 1);
  }

  lemma {:induction false} NothingFree(lo: nat, hi: nat)
    ensures Least({}, lo, hi) == None
  {
  }
}
