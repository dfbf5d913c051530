/** Whole sessions, from the lines a client types on. They show that what the statements about uploads,
    downloads, listings and timers ask for is met by runs from a new connection. */
module SessionScenario {
  import opened CommandParser
  import opened CommandPrinter
  import opened CommandWords
  import opened Disks
  import opened Dispatch
  import opened PassiveMode
  import opened Replies
  import opened Session
  import opened SessionInvariant
  import opened SessionFrames
  import opened SessionLogin
  import opened SessionUpload
  import opened SessionDownload
  import opened SessionListing
  import opened SessionPassive
  import opened SessionTimers

  /** What is known of the surroundings: who may log in, and which ports are free. */
  datatype Setting = Setting(site: Site, name: string, password: string, free: set<nat>) {
    predicate Valid() {
      && InWord(site.range) && site.address < 0x1_0000_0000
      && (exists q :: site.range.start <= q <= site.range.end && q in free)
      && Word(name) && |name| <= USERNAME_SIZE && Prefix(name, 4) != "root" && Word(password)
    }

    function Surroundings(): Env {
      Env(true, (n, p) => n == name && p == password, true, free, true, true, (_, _) => "", 1, 0, {}, 50000)
    }

    /** What a client types, with every byte of the argument escaped. */
    function Typed(word: string, args: seq<string>): Event {
      Line(Print(Command(word, args)), Surroundings())
    }
  }

  const WORDS: set<string> := {"USER", "PASS", "PROT", "PASV", "STOR", "RETR", "LIST"}

  /** An argument with which a line is still what one read takes. */
  predicate Word(s: string) {
    2 * |s| + 7 <= READ_SIZE && '\0' !in s
  }

  predicate Arguments(args: seq<string>) {
    |args| <= 1 && (|args| == 1 ==> Word(args[0]))
  }

  lemma {:induction false} EscapeLength(arg: string)
    ensures |Escape(arg)| == 2 * |arg|
  {
    if arg != "" {
      EscapeLength(arg[1..]);
    }
  }

  lemma TypedParses(w: Setting, word: string, args: seq<string>)
    requires word in WORDS && Arguments(args)
    ensures Parse(w.Typed(word, args).input) == Command(word, args)
    ensures |w.Typed(word, args).input| <= READ_SIZE
  {
    hide Parse, Escape;
    if |args| == 1 {
      EscapeLength(args[0]);
      assert args[1..] == [];
    }
    assert |Print(Command(word, args))| <= READ_SIZE;
    hide Print;
    ParseInvertsPrint(Command(word, args), "", "");
    assert "" + Print(Command(word, args)) + "" == Print(Command(word, args));
  }

  function HandlerOf(word: string): Handler {
    match word
    case "USER" => UserAction
    case "PASS" => PassAction
    case "PROT" => ProtAction
    case "PASV" => PasvAction
    case "STOR" => StorAction
    case "LIST" => ListAction
    case _ => RetrAction
  }

  lemma WordsSelected(word: string, authenticated: bool)
    requires word in WORDS && (authenticated <==> word !in {"USER", "PASS"})
    ensures Select(word, authenticated) == HandlerOf(word)
  {
    hide Select;
    SelectExactly(word, authenticated);
  }

  /** A typed command runs its own action. */
  lemma TypedRuns(w: Setting, s: State, word: string, args: seq<string>)
    requires word in WORDS && Arguments(args) && (s.authenticated <==> word !in {"USER", "PASS"})
    ensures Parse(w.Typed(word, args).input) == Command(word, args)
    ensures Select(word, s.authenticated) == HandlerOf(word)
    ensures Step(s, w.site, w.Typed(word, args)) == OnCommand(s, w.site, HandlerOf(word), args, w.Surroundings())
  {
    hide OnCommand, Parse, Print, Select, HandlerOf;
    TypedParses(w, word, args);
    WordsSelected(word, s.authenticated);
  }

  // ---------------------------------------------------------------- from state to state

  ghost predicate Leads(s: State, site: Site, events: seq<Event>, t: State) {
    RunEnabled(s, site, events) && Run(s, site, events) == t
  }

  lemma LeadsOn(s: State, site: Site, a: seq<Event>, t: State, b: seq<Event>, u: State)
    requires Leads(s, site, a, t) && Leads(t, site, b, u)
    ensures Leads(s, site, a + b, u)
  {
    hide Run, RunEnabled;
    RunConcat(s, site, a, b);
  }

  lemma LeadsOne(s: State, site: Site, e: Event)
    requires Enabled(s, site, e)
    ensures Leads(s, site, [e], Step(s, site, e))
  {
    hide Step, Enabled, Run, RunEnabled;
    RunOne(s, site, e);
  }

  lemma LeadsMeans(s: State, site: Site, events: seq<Event>, t: State)
    requires Leads(s, site, events, t)
    ensures RunEnabled(s, site, events) && Run(s, site, events) == t
  {
    hide Run, RunEnabled;
  }

  lemma LineEnabled(w: Setting, s: State, word: string, args: seq<string>)
    requires w.Valid() && !s.w.closed && word in WORDS && Arguments(args)
    ensures Enabled(s, w.site, w.Typed(word, args))
  {
    hide Print;
    var q :| w.site.range.start <= q <= w.site.range.end && q in w.free;
    ScanFindsLeast(w.site.range, w.free, q);
    TypedParses(w, word, args);
  }

  /** Logged in, in the root directory, with no data connection. */
  ghost predicate Ready(s: State, disk: Disk) {
    && Inv(s) && s.authenticated && !s.w.closed && s.bev.None? && s.eofCb == NoEof && !s.uploadFd.File?
    && s.w.disk == disk && s.cwd == "/"
  }

  lemma LogsIn(w: Setting, disk: Disk) returns (events: seq<Event>, t: State)
    requires w.Valid() && Sound(disk)
    ensures Leads(Init(disk), w.site, events, t) && Ready(t, disk)
    ensures t.username == w.name && !t.tlsRequired && OwnTimers(t)
  {
    hide Inv, Parse, Print, Select, Enabled, Leads, OwnTimers;
    var s := Init(disk);
    var user, pass := w.Typed("USER", [w.name]), w.Typed("PASS", [w.password]);
    InitInv(disk);
    InitOwnTimers(disk);
    LineEnabled(w, s, "USER", [w.name]);
    TypedRuns(w, s, "USER", [w.name]);
    var u := Step(s, w.site, user);
    LeadsOne(s, w.site, user);
    StepInv(s, w.site, user);
    OwnTimersStep(s, w.site, user);
    LineEnabled(w, u, "PASS", [w.password]);
    TypedRuns(w, u, "PASS", [w.password]);
    t := Step(u, w.site, pass);
    LeadsOne(u, w.site, pass);
    StepInv(u, w.site, pass);
    OwnTimersStep(u, w.site, pass);
    LeadsOn(s, w.site, [user], u, [pass], t);
    events := [user] + [pass];
  }

  /** A data connection that has carried nothing yet. */
  ghost predicate Connected(s: State, disk: Disk, tls: bool) {
    && Inv(s) && s.authenticated && !s.w.closed && s.w.disk == disk && s.cwd == "/" && s.tlsRequired == tls
    && s.bev.Some? && s.bev.value.tls == tls && s.bev.value.received == s.bev.value.output == ""
    && !s.bev.value.handshaken
    && s.eofCb == NoEof && s.tlsCb == NoTls && s.writeCb == NoWrite && !s.uploadFd.File?
  }

  lemma ReadyHasNoCallbacks(s: State, disk: Disk)
    requires Ready(s, disk)
    ensures s.tlsCb == NoTls && s.writeCb == NoWrite
  {
    hide LoopOk, LoginOk, StorOk, RetrOk, DiskOk;
  }

  /** PASV, then a connection from the client to the port it was told. */
  lemma Connects(w: Setting, s: State, disk: Disk) returns (events: seq<Event>, t: State)
    requires w.Valid() && Ready(s, disk)
    ensures Leads(s, w.site, events, t) && Connected(t, disk, s.tlsRequired)
  {
    hide Inv, Parse, Print, Select, Leads, OnCommand, PassiveReply, PassivePort, ScanEnds, ListenerConfig;
    ReadyHasNoCallbacks(s, disk);
    var pasv := w.Typed("PASV", []);
    LineEnabled(w, s, "PASV", []);
    TypedRuns(w, s, "PASV", []);
    LeadsOne(s, w.site, pasv);
    StepInv(s, w.site, pasv);
    var u := Step(s, w.site, pasv);
    Listens(w, s);
    var accept := Accept(w.site.sourceIp, true);
    t := Step(u, w.site, accept);
    LeadsOne(u, w.site, accept);
    StepInv(u, w.site, accept);
    LeadsOn(s, w.site, [pasv], u, [accept], t);
    events := [pasv] + [accept];
  }

  lemma Listens(w: Setting, s: State)
    requires w.Valid() && Inv(s)
    ensures var u := ListenerConfig(s, w.site, w.Surroundings(), false);
      OnCommand(s, w.site, PasvAction, [], w.Surroundings()) == u
      && u == s.(dataPort := u.dataPort, listener := u.listener, timer := u.timer, w := u.w)
      && u.listener.Some? && u.w.listeners != {} && u.w.closed == s.w.closed && u.w.disk == s.w.disk
  {
    hide Inv, PassiveReply, PassivePort, ListenerConfig;
    var q :| w.site.range.start <= q <= w.site.range.end && q in w.free;
    ConfigListens(s, w.site, w.Surroundings(), false, q);
    ListeningOnly(s, w.site, PassivePort(w.site.range, w.free).value, 50000, false);
  }

  lemma Protects(w: Setting, s: State, disk: Disk) returns (t: State)
    requires w.Valid() && Ready(s, disk)
    ensures Leads(s, w.site, [w.Typed("PROT", ["P"])], t) && Ready(t, disk) && t.tlsRequired
  {
    hide Inv, Parse, Print, Select;
    var prot := w.Typed("PROT", ["P"]);
    TypedRuns(w, s, "PROT", ["P"]);
    LineEnabled(w, s, "PROT", ["P"]);
    LeadsOne(s, w.site, prot);
    StepInv(s, w.site, prot);
    t := Step(s, w.site, prot);
  }

  // ---------------------------------------------------------------- upload

  /** The disk after a file of this content was stored under this name. */
  function StoredDisk(disk: Disk, name: string, bytes: Bytes): Disk {
    var d := Create(disk, name);
    d.(files := d.files[Target(disk, name) := bytes])
  }

  lemma Uploads(w: Setting, s: State, disk: Disk, path: string, bytes: Bytes)
    returns (events: seq<Event>, t: State)
    requires w.Valid() && Word(path) && Connected(s, disk, false)
    ensures Leads(s, w.site, events, t) && !t.tlsRequired
    ensures Ready(t, StoredDisk(disk, w.site.resolve("/", path), bytes))
  {
    hide Inv, Parse, Print, Select, OnDataEvent, Leads, Stored;
    var name := w.site.resolve("/", path);
    var stor, segment := w.Typed("STOR", [path]), Segment(bytes);
    var end := DataEvent(false, false, false, true, (_, _) => "");
    TypedRuns(w, s, "STOR", [path]);
    LineEnabled(w, s, "STOR", [path]);
    LeadsOne(s, w.site, stor);
    StepInv(s, w.site, stor);
    var u := Step(s, w.site, stor);
    assert AcceptsStor(s, w.site, stor, name);
    StorStarts(s, w.site, stor, name);
    LeadsOne(u, w.site, segment);
    StepInv(u, w.site, segment);
    var v := Step(u, w.site, segment);
    LeadsOn(s, w.site, [stor], u, [segment], v);
    LeadsMeans(s, w.site, [stor] + [segment], v);
    assert [segment][1..] == [];
    UploadStoresWhatWasSent(s, w.site, stor, name, [segment], false, false, (_, _) => "");
    LeadsOne(v, w.site, end);
    EndStep(v, w.site, false, false, (_, _) => "");
    EofCompletes(v, false, false, (_, _) => "");
    StepInv(v, w.site, end);
    EndKeepsFlags(v, end.listing);
    t := Step(v, w.site, end);
    LeadsOn(s, w.site, [stor] + [segment], v, [end], t);
    events := [stor] + [segment] + [end];
    assert "" + bytes == bytes == bytes[0..];
  }

  lemma EndKeepsFlags(s: State, listing: Lister)
    ensures SameFlags(s, OnDataEvent(s, false, false, false, true, listing))
  {
    hide OnEof, Close, SameFlags;
    EofKeepsFlags(s);
    CloseKeepsFlags(s, OnEof(s));
  }

  ghost predicate SameFlags(s: State, t: State) {
    t.tlsRequired == s.tlsRequired && t.authenticated == s.authenticated && t.w.closed == s.w.closed
  }

  lemma EofKeepsFlags(s: State)
    ensures SameFlags(s, OnEof(s))
  {
  }

  lemma CloseKeepsFlags(s: State, t: State)
    requires SameFlags(s, t)
    ensures SameFlags(s, Close(t))
  {
  }

  // ---------------------------------------------------------------- download over TLS

  /** The write callback, `n` times, each read returning a byte. */
  function WriteCallbacks(n: nat): seq<Event> {
    if n == 0 then [] else [DataWrite(false, 1)] + WriteCallbacks(n - 1)
  }

  lemma {:induction false} WriteCallbacksRun(s: State, site: Site, n: nat, file: nat)
    requires Inv(s) && s.bev.Some? && !s.w.closed
    ensures RunEnabled(s, site, WriteCallbacks(n)) && Undisturbed(s, site, WriteCallbacks(n), file)
    ensures Writes(WriteCallbacks(n)) == n
    ensures var t := Run(s, site, WriteCallbacks(n));
      && t.bev.Some? && t.bev.value.id == s.bev.value.id && t.bev.value.tls == s.bev.value.tls
      && t.w.disk == s.w.disk
    decreases n
  {
    hide Inv, OnDataWrite;
    if n > 0 {
      var e := DataWrite(false, 1);
      assert WriteCallbacks(n)[1..] == WriteCallbacks(n - 1);
      WriteKeepsConnection(s);
      StepInv(s, site, e);
      WriteCallbacksRun(Step(s, site, e), site, n - 1, file);
    }
  }

  lemma WriteKeepsConnection(s: State)
    requires s.bev.Some?
    ensures var t := OnDataWrite(s, false, 1);
      && t.bev.Some? && t.bev.value.id == s.bev.value.id && t.bev.value.tls == s.bev.value.tls
      && t.w.disk == s.w.disk && t.w.closed == s.w.closed
  {
    hide SendNextChunk, Clean;
    DataWriteUpload(s, false, 1);
    if s.stream.Some? {
      ChunkFrame(s, 1);
    }
  }

  lemma Downloads(w: Setting, s: State, disk: Disk, path: string, file: nat)
    returns (events: seq<Event>, t: State)
    requires w.Valid() && Word(path) && Connected(s, disk, true)
    requires w.site.resolve("/", path) in disk.names && disk.names[w.site.resolve("/", path)] == file
    ensures Leads(s, w.site, events, t) && t.writeCb == RetrDone && t.w.disk == disk
    ensures t.bev.Some? && t.bev.value.tls && t.bev.value.output == Content(disk, file)
  {
    hide Inv, Parse, Print, Select, Retr, Run, RunEnabled, Undisturbed;
    var retr := w.Typed("RETR", [path]);
    TypedRuns(w, s, "RETR", [path]);
    LineEnabled(w, s, "RETR", [path]);
    assert AcceptsRetr(s, w.site, retr, file);
    LeadsOne(s, w.site, retr);
    StepInv(s, w.site, retr);
    RetrStarts(s, w.site, retr, file);
    var u := Step(s, w.site, retr);
    RetrKeepsOpen(s, w.site, [path], w.Surroundings());
    var writes := WriteCallbacks(|disk.files[file]|);
    SendingHasBev(u, s.bev.value.id, file, disk.files[file], 0);
    WriteCallbacksRun(u, w.site, |disk.files[file]|, file);
    t := Run(u, w.site, writes);
    LeadsOn(s, w.site, [retr], u, writes, t);
    DownloadHandsOverTheFile(s, w.site, retr, file, writes);
    assert t.bev.value.output[0..] == t.bev.value.output;
    events := [retr] + writes;
  }

  lemma RetrKeepsOpen(s: State, site: Site, args: seq<string>, env: Env)
    requires s.bev.Some?
    ensures var t := Retr(s, site, args, env);
      && t.w.closed == s.w.closed && t.w.disk == s.w.disk
      && t.bev.Some? && t.bev.value.tls == s.bev.value.tls
  {
    hide SendNextChunk, Clean, Content, Say;
    RetrFrame(s, site, args, env);
    SaySame(s, FILE_STATUS_OKAY, "Sending file");
    SaySame(s, SYNTAX_ERROR_PARAMS, "File path not provided");
    SaySame(s, FILE_ACTION_NOT_TAKEN_PERM, "Failed to open file");
    SayOpen(s, FILE_STATUS_OKAY, "Sending file");
    SayOpen(s, SYNTAX_ERROR_PARAMS, "File path not provided");
    SayOpen(s, FILE_ACTION_NOT_TAKEN_PERM, "Failed to open file");
    if |args| == 1 && env.openOk && site.resolve(s.cwd, args[0]) in s.w.disk.names && s.tlsRequired {
      ChunkFrame(OpenForReading(Say(s, FILE_STATUS_OKAY, "Sending file"),
        s.w.disk.names[site.resolve(s.cwd, args[0])]), env.got);
    }
  }

  lemma SayOpen(s: State, code: nat, text: string)
    ensures Say(s, code, text).w.closed == s.w.closed
  {
  }

  // ---------------------------------------------------------------- the whole session

  /** For every user who may log in, every path and every content: a client that types USER, PASS, PASV,
      STOR, PROT P, PASV and RETR, connects where it is told, and sends the content over the first data
      connection is handed exactly that content over the second, and that is what the file holds. */
  lemma ClientGetsBackWhatItSent(w: Setting, disk: Disk, path: string, bytes: Bytes) returns (events: seq<Event>)
    requires w.Valid() && Word(path) && Sound(disk)
    ensures RunEnabled(Init(disk), w.site, events)
    ensures var t := Run(Init(disk), w.site, events);
      && t.authenticated && t.username == w.name
      && t.w.disk == StoredDisk(disk, w.site.resolve("/", path), bytes)
      && t.bev.Some? && t.bev.value.tls && t.bev.value.output == bytes && t.writeCb == RetrDone
  {
    hide Inv, Leads, Ready, Connected, Run, RunEnabled;
    var site, name := w.site, w.site.resolve("/", path);
    var file, after := Target(disk, name), StoredDisk(disk, name, bytes);
    var a, s := LogsIn(w, disk);
    ReadyState(s, disk);
    var b, t := Connects(w, s, disk);
    var c, u := Uploads(w, t, disk, path, bytes);
    var v := Protects(w, u, after);
    var prot := [w.Typed("PROT", ["P"])];
    var d, x := Connects(w, v, after);
    var e, y := Downloads(w, x, after, path, file);
    LeadsOn(s, site, b, t, c, u);
    LeadsOn(s, site, b + c, u, prot, v);
    LeadsOn(s, site, b + c + prot, v, d, x);
    LeadsOn(s, site, b + c + prot + d, x, e, y);
    LeadsOn(Init(disk), site, a, s, b + c + prot + d + e, y);
    events := a + (b + c + prot + d + e);
    LoginIsForever(s, site, b + c + prot + d + e);
    LeadsMeans(s, site, b + c + prot + d + e, y);
    LeadsMeans(Init(disk), site, events, y);
  }

  lemma ReadyState(s: State, disk: Disk)
    requires Ready(s, disk)
    ensures s.authenticated
  {
    hide Inv;
  }

  // ---------------------------------------------------------------- a LIST before and after the handshake

  const HERE := ListRequest(".", true, false, false)

  lemma ListAccepted(w: Setting, s: State)
    requires w.Valid() && s.authenticated && !s.w.closed && s.bev.Some? && s.tlsRequired
    ensures Enabled(s, w.site, w.Typed("LIST", [])) && AcceptsList(s, w.Typed("LIST", []), HERE)
  {
    hide Parse, Print, Select, OnCommand;
    TypedRuns(w, s, "LIST", []);
    LineEnabled(w, s, "LIST", []);
  }

  /** Both kinds of accepted LIST are met: one whose handshake is still to come, and one whose handshake
      came first. Each is the next line of a run from a new connection. */
  lemma ListIsReached(w: Setting, disk: Disk, early: bool) returns (events: seq<Event>)
    requires w.Valid() && Sound(disk)
    ensures
      var s := Run(Init(disk), w.site, events);
      var line := w.Typed("LIST", []);
      && RunEnabled(Init(disk), w.site, events + [line])
      && Inv(s) && AcceptsList(s, line, HERE) && s.writeCb == NoWrite && (HandshakeToCome(s) <==> !early)
  {
    hide Inv, Leads, Ready, Run, RunEnabled, Enabled, AcceptsList;
    var site, line := w.site, w.Typed("LIST", []);
    var a, s := LogsIn(w, disk);
    var t := Protects(w, s, disk);
    var prot := [w.Typed("PROT", ["P"])];
    var b, u := Connects(w, t, disk);
    LeadsOn(Init(disk), site, a, s, prot, t);
    LeadsOn(Init(disk), site, a + prot, t, b, u);
    events := a + prot + b;
    var x := u;
    if early {
      var shake := Handshake((_, _) => "");
      ShakesHands(w, u, disk);
      x := Step(u, site, shake);
      LeadsOne(u, site, shake);
      LeadsOn(Init(disk), site, events, u, [shake], x);
      events := events + [shake];
    }
    ListAccepted(w, x);
    LeadsOne(x, site, line);
    LeadsOn(Init(disk), site, events, x, [line], Step(x, site, line));
    LeadsMeans(Init(disk), site, events, x);
    LeadsMeans(Init(disk), site, events + [line], Step(x, site, line));
  }

  lemma ShakesHands(w: Setting, s: State, disk: Disk)
    requires Connected(s, disk, true)
    ensures
      var t := Step(s, w.site, Handshake((_, _) => ""));
      && Enabled(s, w.site, Handshake((_, _) => "")) && Inv(t)
      && t.authenticated && !t.w.closed && t.bev.Some? && t.tlsRequired && t.writeCb == NoWrite
      && !HandshakeToCome(t)
  {
    hide Inv, OnCommand;
    StepInv(s, w.site, Handshake((_, _) => ""));
  }

  // ---------------------------------------------------------------- PASV twice

  /** USER, PASS, PASV, PASV, and the first PASV's timer goes off: the second PASV's listener is closed
      while its own timer has not gone off. */
  lemma TwoPasvs(w: Setting, disk: Disk) returns (events: seq<Event>, stale: nat)
    requires w.Valid() && Sound(disk)
    ensures RunEnabled(Init(disk), w.site, events + [TimerFires(stale)])
    ensures
      var s := Run(Init(disk), w.site, events);
      var t := Run(Init(disk), w.site, events + [TimerFires(stale)]);
      && s.listener.Some? && stale != s.timer && s.timer in s.w.armed && !OwnTimers(s)
      && t.listener.None? && t.w.listeners == {} && s.timer in t.w.armed
  {
    hide Inv, Leads, Ready, Run, RunEnabled, Select, Parse, Print, ListenerConfig, OnCommand, OwnTimers, Enabled;
    var site, pasv := w.site, w.Typed("PASV", []);
    var a, s := LogsIn(w, disk);
    var q :| site.range.start <= q <= site.range.end && q in w.free;
    var t := Step(s, site, pasv);
    PasvTyped(w, s, disk);
    LeadsOne(s, site, pasv);
    PassiveListensWhereItSays(s, site, pasv, q);
    Listens(w, s);
    StepInv(s, site, pasv);
    LineEnabled(w, t, "PASV", []);
    TypedRuns(w, t, "PASV", []);
    LeadsOne(t, site, pasv);
    var u := Step(t, site, pasv);
    PassiveListensWhereItSays(t, site, pasv, q);
    Listens(w, t);
    StepInv(t, site, pasv);
    stale := t.timer;
    TimerIsData(t);
    PassiveTimersExact(t, site, pasv, q);
    StaleTimerClosesNewListener(t, site, pasv, q, stale);
    TimerEnabled(u, site, stale);
    LeadsOne(u, site, TimerFires(stale));
    LeadsOn(Init(disk), site, a, s, [pasv], t);
    LeadsOn(Init(disk), site, a + [pasv], t, [pasv], u);
    events := a + [pasv] + [pasv];
    LeadsOn(Init(disk), site, events, u, [TimerFires(stale)], Step(u, site, TimerFires(stale)));
    LeadsMeans(Init(disk), site, events, u);
    LeadsMeans(Init(disk), site, events + [TimerFires(stale)], Step(u, site, TimerFires(stale)));
  }

  lemma TimerEnabled(s: State, site: Site, id: nat)
    requires !s.w.closed && id in s.w.armed
    ensures Enabled(s, site, TimerFires(id))
  {
  }

  lemma TimerIsData(s: State)
    requires s.timer in s.w.armed && s.timer != AUTH_TIMER
    ensures s.timer in DataTimers(s)
  {
  }

  lemma PasvTyped(w: Setting, s: State, disk: Disk)
    requires w.Valid() && Ready(s, disk)
    ensures Inv(s) && s.authenticated && !s.w.closed
    ensures Enabled(s, w.site, w.Typed("PASV", [])) && RunsPassive(s, w.Typed("PASV", []))
    ensures Step(s, w.site, w.Typed("PASV", [])) == OnCommand(s, w.site, PasvAction, [], w.Surroundings())
  {
    hide Inv, OnCommand, Parse, Print, Select, Enabled;
    TypedRuns(w, s, "PASV", []);
    LineEnabled(w, s, "PASV", []);
  }
}
