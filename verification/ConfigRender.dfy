/** Writing a configuration down as a file, freely laid out, and the proof that the reader takes every
    such file back to the configuration. */
module ConfigRender {
  import opened Options
  import opened Text
  import opened ConfigSpec

  /** One line: nothing but white space, a comment, or a setting with any spelling of its key and any
      white space around its parts. */
  datatype Item =
    | Blank(space: string)
    | Comment(indent: string, text: string)
    | Setting(field: Field, key: string, before: string, afterKey: string, beforeValue: string, after: string)

  function ValueText(v: Value): string {
    match v
    case Number(n) => if n < 0 then "-" + Decimal(-n) else Decimal(n)
    case Words(s) => s
  }

  /** A configuration a file can express: within bounds, its words trimmed. */
  ghost predicate Expressible(c: Config) {
    && InBounds(c)
    && c.maxConnections <= INT_MAX && c.connectionAcceptTimeout <= INT_MAX
    && c.dataConnectionAcceptTimeout <= INT_MAX
    && Trim(c.serverName) == c.serverName && Trim(c.sslCertFile) == c.sslCertFile
    && Trim(c.sslKeyFile) == c.sslKeyFile
  }

  lemma FieldExpressible(c: Config, f: Field)
    requires Expressible(c)
    ensures match Get(c, f)
      case Number(n) => 0 <= n <= INT_MAX && InRange(f, n)
      case Words(s) => Trim(s) == s
  {
  }

  function LineText(c: Config, item: Item): string {
    match item
    case Blank(space) => space
    case Comment(indent, text) => indent + ("#" + text)
    case Setting(f, key, before, afterKey, beforeValue, after) =>
      before + (key + afterKey + "=" + (beforeValue + ValueText(Get(c, f)) + after))
  }

  /** The layout freedom: white space is white space, the key spells the field's key, and the line is
      one line and fits the reader's buffer. */
  ghost predicate ItemOk(c: Config, item: Item) {
    var line := LineText(c, item);
    && '\n' !in line && '\0' !in line && |line| + 1 < LINE_BUFFER
    && match item
       case Blank(space) => AllSpace(space)
       case Comment(indent, _) => AllSpace(indent)
       case Setting(f, key, before, afterKey, beforeValue, after) =>
         EqualsIcase(key, Key(f))
         && AllSpace(before) && AllSpace(afterKey) && AllSpace(beforeValue) && AllSpace(after)
  }

  function Render(c: Config, items: seq<Item>): string {
    if items == [] then "" else LineText(c, items[0]) + "\n" + Render(c, items[1..])
  }

  ghost predicate Sets(items: seq<Item>, f: Field) {
    exists i :: 0 <= i < |items| && items[i].Setting? && items[i].field == f
  }

  // ---------------------------------------------------------------- trimming

  lemma {:induction false} TrimRightKeeps(p: string, s: string)
    requires p != "" && !IsSpace(p[|p| - 1])
    ensures TrimRight(p + s) == p + TrimRight(s)
  {
    if s == "" {
      assert p + s == p;
    } else if IsSpace(s[|s| - 1]) {
      assert (p + s)[..|p + s| - 1] == p + s[..|s| - 1];
      TrimRightKeeps(p, s[..|s| - 1]);
    }
  }

  lemma TrimmedEnds(v: string)
    requires Trim(v) == v && v != ""
    ensures !IsSpace(v[0]) && !IsSpace(v[|v| - 1])
  {
    var s := SkipSpace(v);
    TrimRightIsPrefix(s);
    assert |v| <= |s| <= |v|;
    assert TrimRight(s)[0] == s[0];
  }

  lemma {:induction false} TrimRightIsPrefix(s: string)
    ensures TrimRight(s) <= s
  {
    if s != "" && IsSpace(s[|s| - 1]) {
      TrimRightIsPrefix(s[..|s| - 1]);
    }
  }

  lemma TrimNothing()
    ensures TrimRight("") == "" == SkipSpace("")
  {
  }

  lemma TrimRightStops(s: string)
    requires s != "" && !IsSpace(s[|s| - 1])
    ensures TrimRight(s) == s
  {
  }

  lemma TrimBoth(w: string, v: string, w': string)
    requires AllSpace(w) && AllSpace(w') && Trim(v) == v
    ensures Trim(w + v + w') == v
    ensures Trim(TrimRight(w + v + w')) == v
  {
    hide SkipSpace, TrimRight;
    TrimRightSuffix(w + v, w');
    SkipSpacePrefix(w, v + w');
    assert w + v + w' == w + (v + w');
    if v == "" {
      assert w + v == w && v + w' == w';
      SkipAllSpace(w');
      TrimRightSuffix("", w);
      TrimNothing();
      assert "" + w == w;
    } else {
      TrimmedEnds(v);
      SkipKeeps(v + w');
      TrimRightSuffix(v, w');
      SkipSpacePrefix(w, v);
      SkipKeeps(v);
      TrimRightStops(w + v);
    }
  }

  // ---------------------------------------------------------------- one line

  predicate IsKeyChar(c: char) {
    'a' <= c <= 'z' || c == '_'
  }

  predicate KeyChars(s: string) {
    forall i :: 0 <= i < |s| ==> IsKeyChar(s[i])
  }

  lemma LongestKeyIsKeyChars(f: Field)
    requires KeyLength(f) >= 25
    ensures KeyChars(Key(f))
  {
  }

  lemma LongKeyIsKeyChars(f: Field)
    requires 18 <= KeyLength(f) < 25
    ensures KeyChars(Key(f))
  {
  }

  lemma MiddleKeyIsKeyChars(f: Field)
    requires 13 <= KeyLength(f) < 18
    ensures KeyChars(Key(f))
  {
  }

  lemma ShortKeyIsKeyChars(f: Field)
    requires KeyLength(f) < 13
    ensures KeyChars(Key(f))
  {
  }

  lemma KeyIsKeyChars(f: Field)
    ensures KeyChars(Key(f)) && Key(f) != ""
  {
    hide KeyChars;
    KeyLengths(f);
    if KeyLength(f) >= 25 {
      LongestKeyIsKeyChars(f);
    } else if KeyLength(f) >= 18 {
      LongKeyIsKeyChars(f);
    } else if KeyLength(f) >= 13 {
      MiddleKeyIsKeyChars(f);
    } else {
      ShortKeyIsKeyChars(f);
    }
  }

  lemma {:induction false} LowerOfKey(s: string)
    requires KeyChars(s)
    ensures Lower(s) == s
  {
    if s != "" {
      LowerOfKey(s[1..]);
    }
  }

  /** Any spelling of a key is free of white space, '=' and '#'. */
  lemma SpellingChars(key: string, f: Field)
    requires EqualsIcase(key, Key(f))
    ensures key != "" && forall i :: 0 <= i < |key| ==> !IsSpace(key[i]) && key[i] != '=' && key[i] != '#'
  {
    KeyIsKeyChars(f);
    LowerOfKey(Key(f));
    forall i | 0 <= i < |key|
      ensures !IsSpace(key[i]) && key[i] != '=' && key[i] != '#'
    {
      assert Lower(key)[i] == ToLower(key[i]);
    }
  }

  lemma {:induction false} IndexAfter(s: string, c: char, t: string)
    requires c !in s
    ensures IndexOf(s + ([c] + t), c) == |s|
  {
    if s == "" {
      assert s + ([c] + t) == [c] + t;
    } else {
      assert (s + ([c] + t))[1..] == s[1..] + ([c] + t);
      IndexAfter(s[1..], c, t);
    }
  }

  lemma DecimalTrimmed(n: nat)
    ensures Trim(Decimal(n)) == Decimal(n)
  {
  }

  lemma ParseDecimal(n: nat)
    requires n <= INT_MAX
    ensures ParseInt(Decimal(n)) == Some(n)
  {
    hide Decimal, ReadDigits;
    SkipKeeps(Decimal(n));
    ReadDecimalExactly(n, "");
    assert Decimal(n) + "" == Decimal(n);
  }

  lemma ValueAccepted(c: Config, f: Field)
    requires Expressible(c) && |ValueText(Get(c, f))| < LINE_BUFFER
    ensures Trim(ValueText(Get(c, f))) == ValueText(Get(c, f))
    ensures Accept(f, ValueText(Get(c, f))) == Some(Get(c, f))
  {
    FieldExpressible(c, f);
    match Get(c, f)
    case Number(n) =>
      DecimalTrimmed(n);
      ParseDecimal(n);
    case Words(s) =>
      if s != "" {
        TrimmedEnds(s);
      }
  }

  /** A trimmed line of the shape key = value splits at its first '='. */
  lemma SplitLine(key: string, afterKey: string, v: string)
    requires key != "" && forall i :: 0 <= i < |key| ==> !IsSpace(key[i]) && key[i] != '=' && key[i] != '#'
    requires AllSpace(afterKey)
    ensures var s := key + afterKey + "=" + v;
      && s != "" && s[0] != '#' && IndexOf(s, '=') == |key + afterKey|
      && Trim(s[..|key + afterKey|]) == key && s[|key + afterKey| + 1..] == v
  {
    var k := key + afterKey;
    var s := k + "=" + v;
    assert s == k + (['='] + v);
    IndexAfter(k, '=', v);
    assert s[..|k|] == k;
    SkipKeeps(k);
    TrimRightSuffix(key, afterKey);
  }

  lemma LineParts(before: string, key: string, afterKey: string, beforeValue: string, v: string, after: string)
    ensures before + (key + afterKey + "=" + (beforeValue + v + after)) + "\n"
         == before + (key + afterKey + "=" + (beforeValue + v + (after + "\n")))
  {
  }

  /** A line of a key and a value with white space around both reads to that key and value. */
  lemma KeyValueLine(before: string, key: string, afterKey: string, beforeValue: string, v: string, after: string)
    requires key != "" && forall i :: 0 <= i < |key| ==> !IsSpace(key[i]) && key[i] != '=' && key[i] != '#'
    requires AllSpace(before) && AllSpace(afterKey) && AllSpace(beforeValue) && AllSpace(after) && Trim(v) == v
    ensures LineSetting(before + (key + afterKey + "=" + (beforeValue + v + after))) == KeyValue(key, v)
  {
    hide SkipSpace, TrimRight, IndexOf, KeyValue;
    var p := key + afterKey + "=";
    var tail := beforeValue + v + after;
    SkipSpacePrefix(before, p + tail);
    SkipKeeps(p + tail);
    TrimRightKeeps(p, tail);
    SplitLine(key, afterKey, TrimRight(tail));
    TrimBoth(beforeValue, v, after);
  }

  lemma SettingLine(c: Config, item: Item)
    requires Expressible(c) && item.Setting? && ItemOk(c, item)
    ensures LineSetting(LineText(c, item) + "\n") == Some((item.field, Get(c, item.field)))
  {
    hide LineSetting, SkipSpace, TrimRight, Accept, FieldOf, Lower, Get, Decimal, Expressible;
    var Setting(f, key, before, afterKey, beforeValue, after) := item;
    var v := ValueText(Get(c, f));
    SpellingChars(key, f);
    ValueAccepted(c, f);
    FieldOfKey(key, f);
    LineParts(before, key, afterKey, beforeValue, v, after);
    KeyValueLine(before, key, afterKey, beforeValue, v, after + "\n");
  }

  lemma IdleLine(c: Config, item: Item)
    requires Expressible(c) && !item.Setting? && ItemOk(c, item)
    ensures LineSetting(LineText(c, item) + "\n") == None
  {
    var line := LineText(c, item) + "\n";
    if item.Blank? {
      SkipAllSpace(line);
    } else {
      var t := "#" + (item.text + "\n");
      assert line == item.indent + t;
      SkipSpacePrefix(item.indent, t);
      SkipKeeps(t);
      assert t == "#" + t[1..];
      TrimRightKeeps("#", t[1..]);
    }
  }

  // ---------------------------------------------------------------- the whole file

  function LinesOf(c: Config, items: seq<Item>): (r: seq<string>)
    ensures |r| == |items| && forall i :: 0 <= i < |r| ==> r[i] == LineText(c, items[i]) + "\n"
  {
    if items == [] then [] else [LineText(c, items[0]) + "\n"] + LinesOf(c, items[1..])
  }

  lemma {:induction false} LinesOfRendered(c: Config, items: seq<Item>)
    requires Expressible(c) && forall i :: 0 <= i < |items| ==> ItemOk(c, items[i])
    ensures Lines(Render(c, items)) == LinesOf(c, items)
  {
    hide LineText, Expressible;
    if items != [] {
      var line := LineText(c, items[0]);
      var rest := Render(c, items[1..]);
      var text := line + "\n" + rest;
      assert ItemOk(c, items[0]);
      assert text == line + (['\n'] + rest);
      IndexAfter(line, '\n', rest);
      assert text[..|line| + 1] == line + "\n" && text[|line| + 1..] == rest;
      CStringClean(line + "\n");
      LinesOfRendered(c, items[1..]);
    }
  }

  /** If every setting among the lines is the wanted one, so is the last for each field. */
  lemma {:induction false} LastIsWanted(c: Config, lines: seq<string>, f: Field, i: nat)
    requires forall k :: 0 <= k < |lines| && LineSetting(lines[k]).Some? ==>
      LineSetting(lines[k]).value.1 == Get(c, LineSetting(lines[k]).value.0)
    requires i < |lines| && LineSetting(lines[i]) == Some((f, Get(c, f)))
    ensures LastAcceptable(lines, f) == Some(Get(c, f))
  {
    hide LineSetting, Get;
    var n := |lines| - 1;
    assert LineSetting(lines[n]).Some? ==> LineSetting(lines[n]).value.1 == Get(c, LineSetting(lines[n]).value.0);
    if i < n && !(LineSetting(lines[n]).Some? && LineSetting(lines[n]).value.0 == f) {
      LastIsWanted(c, lines[..n], f, i);
    }
  }

  /** However a configuration is laid out as a file, as long as every field is set somewhere, reading
      the file gives that configuration. */
  lemma ReadInvertsRender(c: Config, items: seq<Item>)
    requires Expressible(c)
    requires forall i :: 0 <= i < |items| ==> ItemOk(c, items[i])
    requires forall f :: Sets(items, f)
    ensures Read(Render(c, items)) == c
  {
    hide LineSetting, LineText, ItemOk, LastAcceptable, ReadLines, Lines, Render;
    LinesOfRendered(c, items);
    var lines := LinesOf(c, items);
    forall k | 0 <= k < |lines|
      ensures LineSetting(lines[k]) ==
        if items[k].Setting? then Some((items[k].field, Get(c, items[k].field))) else None
    {
      assert ItemOk(c, items[k]);
      if items[k].Setting? {
        SettingLine(c, items[k]);
      } else {
        IdleLine(c, items[k]);
      }
    }
    forall f
      ensures Get(ReadLines(DEFAULTS, lines), f) == Get(c, f)
    {
      assert Sets(items, f);
      var i :| 0 <= i < |items| && items[i].Setting? && items[i].field == f;
      LastIsWanted(c, lines, f, i);
      LastAcceptableWins(DEFAULTS, lines, f);
    }
    SameFields(ReadLines(DEFAULTS, lines), c);
  }
}
