/** The configuration reader as it runs: a 256-byte line buffer edited in place and a configuration
    updated field by field. */
module ConfigReader {
  import opened Options
  import opened Text
  import opened ConfigSpec

  // ---------------------------------------------------------------- C strings in buffers

  /** The buffer holds the C string `s`, terminated, from `off` on. */
  ghost predicate Stores(a: array<char>, off: nat, s: string)
    reads a
  {
    && off + |s| < a.Length
    && (forall i :: 0 <= i < |s| ==> a[off + i] == s[i])
    && (forall k :: off <= k < off + |s| ==> a[k] != '\0')
    && a[off + |s|] == '\0'
  }

  /** Nothing outside the string that starts at `off` and its terminator has changed. */
  twostate predicate OnlyWithin(a: array<char>, off: nat, length: nat)
    reads a
  {
    forall k :: 0 <= k < a.Length && (k < off || k > off + length) ==> a[k] == old(a[k])
  }

  method Strlen(a: array<char>, off: nat, ghost s: string) returns (n: nat)
    requires Stores(a, off, s)
    ensures n == |s|
  {
    n := 0;
    while a[off + n] != '\0'
      invariant n <= |s|
      decreases |s| - n
    {
      n := n + 1;
    }
  }

  lemma SkipIsSuffix(s: string, k: nat)
    requires k <= |s| && AllSpace(s[..k]) && (k == |s| || !IsSpace(s[k]))
    ensures SkipSpace(s) == s[k..]
  {
    assert s == s[..k] + s[k..];
    SkipSpacePrefix(s[..k], s[k..]);
  }

  lemma TrimRightIsPrefix(s: string, k: nat)
    requires k <= |s| && AllSpace(s[k..]) && (k == 0 || !IsSpace(s[k - 1]))
    ensures TrimRight(s) == s[..k]
  {
    assert s == s[..k] + s[k..];
    TrimRightSuffix(s[..k], s[k..]);
  }

  /** Moves the string down over its leading white space. */
  method TrimLeftInplace(a: array<char>, off: nat, ghost s: string)
    requires Stores(a, off, s)
    modifies a
    ensures Stores(a, off, SkipSpace(s)) && OnlyWithin(a, off, |s|)
  {
    var p := off;
    while a[p] != '\0' && IsSpace(a[p])
      invariant off <= p <= off + |s|
      invariant AllSpace(s[..p - off])
      decreases off + |s| - p
    {
      p := p + 1;
    }
    SkipIsSuffix(s, p - off);
    if p != off {
      var n := Strlen(a, p, s[p - off..]);
      forall i | 0 <= i <= n {
        a[off + i] := a[p + i];
      }
    }
  }

  method TrimRightInplace(a: array<char>, off: nat, ghost s: string)
    requires Stores(a, off, s)
    modifies a
    ensures Stores(a, off, TrimRight(s)) && OnlyWithin(a, off, |s|)
  {
    var n := Strlen(a, off, s);
    while n > 0 && IsSpace(a[off + n - 1])
      invariant 0 <= n <= |s|
      invariant forall i :: 0 <= i < n ==> a[off + i] == s[i]
      invariant forall k :: off <= k < off + n ==> a[k] != '\0'
      invariant a[off + n] == '\0' && AllSpace(s[n..])
      invariant OnlyWithin(a, off, |s|)
    {
      n := n - 1;
      a[off + n] := '\0';
    }
    TrimRightIsPrefix(s, n);
  }

  /** Trims the string that starts at `off`; what lies before it or behind its terminator is left
      alone. */
  method TrimInplace(a: array<char>, off: nat, ghost s: string)
    requires Stores(a, off, s)
    modifies a
    ensures Stores(a, off, Trim(s)) && OnlyWithin(a, off, |s|)
  {
    TrimLeftInplace(a, off, s);
    TrimRightInplace(a, off, SkipSpace(s));
  }

  /** The string a buffer holds, read out. */
  method StringAt(a: array<char>, off: nat, ghost s: string) returns (r: string)
    requires Stores(a, off, s)
    ensures r == s
  {
    var n := Strlen(a, off, s);
    r := a[off..off + n];
  }

  method EqualsIcaseAt(a: string, b: string) returns (r: bool)
    ensures r == EqualsIcase(a, b)
  {
    var i := 0;
    while i < |a| && i < |b|
      invariant 0 <= i <= |a| && i <= |b|
      invariant forall j :: 0 <= j < i ==> ToLower(a[j]) == ToLower(b[j])
    {
      if ToLower(a[i]) != ToLower(b[i]) {
        assert Lower(a)[i] != Lower(b)[i];
        return false;
      }
      i := i + 1;
    }
    r := i == |a| && i == |b|;
    if r {
      assert forall j :: 0 <= j < |a| ==> Lower(a)[j] == Lower(b)[j];
    } else {
      assert |Lower(a)| != |Lower(b)|;
    }
  }

  // ---------------------------------------------------------------- the configuration

  class Configurations {
    var maxConnections: int
    var connectionAcceptTimeout: int
    var dataConnectionAcceptTimeout: int
    var port: int
    var passivePortStart: int
    var passivePortEnd: int
    var serverName: string
    var sslCertFile: string
    var sslKeyFile: string

    ghost function Contents(): Config
      reads this
    {
      Config(maxConnections, connectionAcceptTimeout, dataConnectionAcceptTimeout, port,
        passivePortStart, passivePortEnd, serverName, sslCertFile, sslKeyFile)
    }

    constructor ()
      ensures Contents() == DEFAULTS
    {
      maxConnections, connectionAcceptTimeout, dataConnectionAcceptTimeout := 10000, 60, 9;
      passivePortStart, passivePortEnd, port := 40000, 41000, 21;
      serverName := "Harkirat's FTP Server";
      sslCertFile := "/etc/ssl/certs/cftp_server.crt";
      sslKeyFile := "/etc/ssl/private/cftp_server.key";
    }

    /** Which key this is, trying them in the order of the chain of comparisons. */
    method MatchKey(k: string) returns (f: Option<Field>)
      ensures f == FieldOf(k)
    {
      hide EqualsIcase, Key, FIELDS;
      var i := 0;
      assert FIELDS[0..] == FIELDS;
      while i < |FIELDS|
        invariant 0 <= i <= |FIELDS|
        invariant FirstMatch(FIELDS[i..], k) == FieldOf(k)
      {
        var same := EqualsIcaseAt(k, Key(FIELDS[i]));
        if same {
          return Some(FIELDS[i]);
        }
        assert FIELDS[i..][1..] == FIELDS[i + 1..];
        i := i + 1;
      }
      f := None;
    }

    /** A known key with an acceptable value sets its field; anything else changes nothing. */
    method AssignKv(k: string, v: string)
      requires k != ""
      modifies this
      ensures Contents() == Apply(old(Contents()), KeyValue(k, v))
    {
      hide FieldOf, ParseInt, TrimRight, Cut;
      var f := MatchKey(k);
      if f.None? {
        return;
      }
      var n := ParseInt(v);
      match f.value
      case MaxConnections =>
        if n.Some? && n.value > 0 { maxConnections := n.value; }
      case ConnectionAcceptTimeout =>
        if n.Some? && n.value >= 0 { connectionAcceptTimeout := n.value; }
      case DataConnectionAcceptTimeout =>
        if n.Some? && n.value >= 0 { dataConnectionAcceptTimeout := n.value; }
      case PassivePortStart =>
        if n.Some? && 1024 <= n.value <= 65535 { passivePortStart := n.value; }
      case PassivePortEnd =>
        if n.Some? && 1024 <= n.value <= 65535 { passivePortEnd := n.value; }
      case ServerPort =>
        if n.Some? && 20 <= n.value <= 65535 { port := n.value; }
      case ServerName =>
        serverName := TrimRight(Cut(v, NAME_BUFFER - 1));
      case SslCertFile =>
        sslCertFile := TrimRight(Cut(v, PATH_BUFFER - 1));
      case SslKeyFile =>
        sslKeyFile := TrimRight(Cut(v, PATH_BUFFER - 1));
    }

    method DoPostValidate()
      modifies this
      ensures Contents() == PostValidate(old(Contents()))
    {
      if passivePortStart < 1 {
        passivePortStart := 1;
      }
      if passivePortEnd > 65535 {
        passivePortEnd := 65535;
      }
      if passivePortEnd < passivePortStart {
        passivePortStart, passivePortEnd := passivePortEnd, passivePortStart;
      }
    }
  }

  // ---------------------------------------------------------------- the file

  /** Reads the next piece of the text into the buffer and terminates it. */
  method Fgets(text: string, pos: nat, line: array<char>) returns (n: nat)
    requires pos < |text| && line.Length == LINE_BUFFER
    modifies line
    ensures n == Chunk(text[pos..])
    ensures Stores(line, 0, CString(text[pos..pos + n]))
  {
    ghost var rest := text[pos..];
    n := 0;
    var newline := false;
    while n < LINE_BUFFER - 1 && pos + n < |text| && !newline
      invariant 0 <= n <= LINE_BUFFER - 1 && pos + n <= |text|
      invariant forall i :: 0 <= i < n ==> line[i] == text[pos + i]
      invariant if newline then n > 0 && IndexOf(rest, '\n') == n - 1 else n <= IndexOf(rest, '\n')
      decreases LINE_BUFFER - n
    {
      line[n] := text[pos + n];
      newline := text[pos + n] == '\n';
      assert rest[n] == text[pos + n];
      n := n + 1;
    }
    line[n] := '\0';
    ghost var piece := text[pos..pos + n];
    CStringCut(piece);
    ghost var s := CString(piece);
    assert forall i :: 0 <= i < |s| ==> line[i] == piece[i] == s[i];
    assert line[|s|] == '\0';
  }

  lemma {:induction false} CStringCut(s: string)
    ensures var n := |CString(s)|;
      && CString(s) == s[..n] && (n < |s| ==> s[n] == '\0')
      && forall i :: 0 <= i < n ==> s[i] != '\0'
  {
    if s != "" && s[0] != '\0' {
      CStringCut(s[1..]);
    }
  }

  /** `strchr(line, '=')`. */
  method FindEquals(line: array<char>, ghost s: string) returns (eq: nat)
    requires Stores(line, 0, s)
    ensures eq == IndexOf(s, '=')
  {
    var n := Strlen(line, 0, s);
    eq := 0;
    while eq < n && line[eq] != '='
      invariant 0 <= eq <= n && eq <= IndexOf(s, '=')
    {
      assert s[eq] == line[eq];
      eq := eq + 1;
    }
    assert eq < |s| ==> s[eq] == line[eq];
  }

  /** Cuts the line at its '=' and trims both halves where they lie. */
  method SplitInplace(line: array<char>, eq: nat, ghost s: string) returns (key: string, val: string)
    requires Stores(line, 0, s) && eq < |s|
    modifies line
    ensures key == Trim(s[..eq]) && val == Trim(s[eq + 1..])
  {
    line[eq] := '\0';
    assert Stores(line, 0, s[..eq]);
    assert Stores(line, eq + 1, s[eq + 1..]);
    TrimInplace(line, 0, s[..eq]);
    key := StringAt(line, 0, Trim(s[..eq]));
    assert Stores(line, eq + 1, s[eq + 1..]);
    TrimInplace(line, eq + 1, s[eq + 1..]);
    val := StringAt(line, eq + 1, Trim(s[eq + 1..]));
  }

  /** One turn of the line loop. */
  method ProcessLine(line: array<char>, config: Configurations, ghost s: string)
    requires Stores(line, 0, s)
    modifies line, config
    ensures config.Contents() == Apply(old(config.Contents()), LineSetting(s))
  {
    hide KeyValue, IndexOf, Trim;
    TrimInplace(line, 0, s);
    var n := Strlen(line, 0, Trim(s));
    if n == 0 || line[0] == '#' {
      return;
    }
    var eq := FindEquals(line, Trim(s));
    if eq == n {
      return;
    }
    var key, val := SplitInplace(line, eq, Trim(s));
    if key == "" {
      EmptyKey(val);
      return;
    }
    config.AssignKv(key, val);
  }

  lemma EmptyKey(val: string)
    ensures KeyValue("", val) == None
  {
  }

  /** The reader: defaults, then every line of the file, then the fix-up; only the defaults if the
      file cannot be opened. */
  method ReadConfigurations(file: Option<string>) returns (config: Configurations)
    ensures fresh(config)
    ensures config.Contents() == if file.Some? then Read(file.value) else DEFAULTS
  {
    hide LineSetting, Chunk;
    config := new Configurations();
    if file.None? {
      return;
    }
    var text := file.value;
    var line := new char[LINE_BUFFER](_ => '\0');
    var pos := 0;
    assert text[0..] == text;
    while pos < |text|
      invariant 0 <= pos <= |text|
      invariant fresh(config) && fresh(line) && line.Length == LINE_BUFFER
      invariant ReadLines(config.Contents(), Lines(text[pos..])) == ReadLines(DEFAULTS, Lines(text))
    {
      var n := Fgets(text, pos, line);
      ghost var s := CString(text[pos..pos + n]);
      assert text[pos..][..n] == text[pos..pos + n] && text[pos..][n..] == text[pos + n..];
      assert Lines(text[pos..]) == [s] + Lines(text[pos + n..]);
      ReadLinesCons(config.Contents(), s, Lines(text[pos + n..]));
      ProcessLine(line, config, s);
      pos := pos + n;
    }
    config.DoPostValidate();
  }

  lemma ReadLinesCons(c: Config, line: string, lines: seq<string>)
    ensures ReadLines(c, [line] + lines) == ReadLines(Apply(c, LineSetting(line)), lines)
  {
    hide LineSetting;
    assert ([line] + lines)[1..] == lines;
  }
}
