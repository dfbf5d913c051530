/** The timers of passive listeners: when a listener is closed by its own timer only, and when not. */
module SessionTimers {
  import opened Options
  import opened CommandOptions
  import opened CommandParser
  import opened Disks
  import opened Dispatch
  import opened PassiveMode
  import opened Replies
  import opened Session
  import opened SessionInvariant
  import opened SessionPassive

  /** The armed timers of listeners, the authentication timer aside. */
  function DataTimers(s: State): set<nat> {
    s.w.armed - {AUTH_TIMER}
  }

  /** Whether the only timer of a listener that can still go off is the one of the present listener. */
  ghost predicate OwnTimers(s: State) {
    DataTimers(s) == if s.listener.Some? then {s.timer} else {}
  }

  /** After a successful PASV or EPSV the new listener can be closed by its own timer only, exactly when
      no timer of an earlier one was still armed. */
  lemma PassiveTimersExact(s: State, site: Site, e: Event, q: nat)
    requires Inv(s) && RunsPassive(s, e) && InWord(site.range) && site.address < 0x1_0000_0000
    requires e.env.sockname && site.range.start <= q <= site.range.end && q in e.env.free
    ensures OwnTimers(Step(s, site, e)) <==> DataTimers(s) == {}
  {
    hide Inv, IsExtended, Select, Parse, PassivePort, Listening, OnCommand;
    PassiveStep(s, site, e);
    ConfigListens(s, site, e.env, IsExtended(s, e), q);
    ListeningOnly(s, site, PassivePort(site.range, e.env.free).value, e.env.ephemeral, IsExtended(s, e));
    ArmedTimers(s);
    var t := Step(s, site, e);
    if DataTimers(s) == {} {
      assert DataTimers(t) == {t.timer};
    } else {
      var stale :| stale in DataTimers(s);
      assert stale in DataTimers(t) && stale != t.timer;
    }
  }

  /** A timer that goes off after the listener it was set for has been replaced closes the new listener
      too, and leaves that one's own timer running: the callback closes whatever listener the record
      points to. */
  lemma StaleTimerClosesNewListener(s: State, site: Site, e: Event, q: nat, stale: nat)
    requires Inv(s) && RunsPassive(s, e) && InWord(site.range) && site.address < 0x1_0000_0000
    requires e.env.sockname && site.range.start <= q <= site.range.end && q in e.env.free
    requires stale in DataTimers(s)
    ensures
      var t := Step(s, site, e);
      var u := Step(t, site, TimerFires(stale));
      && stale in t.w.armed && stale != t.timer
      && u.listener.None? && u.w.listeners == {} && t.timer in u.w.armed
  {
    hide Inv, IsExtended, Select, Parse, PassivePort, Listening, OnCommand;
    PassiveStep(s, site, e);
    ConfigListens(s, site, e.env, IsExtended(s, e), q);
    ListeningOnly(s, site, PassivePort(site.range, e.env.free).value, e.env.ephemeral, IsExtended(s, e));
    ArmedTimers(s);
  }

  lemma ArmedTimers(s: State)
    requires Inv(s)
    ensures s.w.armed <= s.w.timers
  {
    hide LoginOk, DataOk, StorOk, RetrOk, DiskOk;
  }

  /** No PASV or EPSV while the timer of a listener is armed, and no accepted connection for which no
      buffer can be made. */
  predicate Orderly(s: State, site: Site, e: Event) {
    && (RunsPassive(s, e) ==> DataTimers(s) == {})
    && (e.Accept? && Prefix(site.sourceIp, 4) == Prefix(e.peer, 4) ==> e.created)
  }

  /** The timers and the listener are as they were. */
  ghost predicate SameTimers(s: State, t: State) {
    t.w.armed == s.w.armed && t.listener == s.listener && t.timer == s.timer
  }

  /** Everything but PASV, EPSV, PASS, accepts and timers leaves the timers alone. */
  lemma SameTimersStep(s: State, site: Site, e: Event)
    requires !e.Accept? && !e.TimerFires?
    requires e.Line? ==>
      Select(Parse(e.input).command, s.authenticated) !in {PassAction, PasvAction, EpsvAction}
    ensures SameTimers(s, Step(s, site, e))
  {
    hide OnDataEvent, OnDataRead, OnDataWrite, OnControlWritten, OnCommand, Select, Parse;
    match e
    case Line(input, env) =>
      TimersCommand(s, site, Select(Parse(input).command, s.authenticated), Parse(input).args, env);
    case DataEvent(connected, timeout, error, eof, listing) =>
      TimersDataEvent(s, connected, timeout, error, eof, listing);
    case DataRead => TimersDrain(s);
    case DataWrite(drained, got) => TimersWrite(s, drained, got);
    case ControlWritten => TimersControl(s);
    case _ =>
  }

  lemma TimersDrain(s: State)
    ensures SameTimers(s, Drain(s)) && SameTimers(s, OnDataRead(s)) && SameTimers(s, OnEof(s))
  {
  }

  lemma TimersClose(s: State)
    ensures SameTimers(s, Close(s))
  {
  }

  lemma TimersControl(s: State)
    ensures SameTimers(s, OnControlWritten(s))
  {
    hide Close;
    TimersClose(s);
  }

  lemma TimersQueue(s: State, bytes: Bytes)
    ensures SameTimers(s, Queue(s, bytes)) && SameTimers(s, NotAlone(Queue(s, bytes)))
  {
  }

  lemma TimersListing(s: State, listing: Bytes)
    ensures SameTimers(s, SendListing(s, listing))
  {
    hide Queue, NotAlone;
    TimersQueue(s.(writeCb := ListDone), listing);
  }

  lemma TimersChunk(s: State, got: int)
    requires s.stream.Some?
    ensures SameTimers(s, SendNextChunk(s, got))
  {
    hide Queue, ReadCount, Content;
    var fs := s.stream.value;
    var content := Content(s.w.disk, fs.file);
    var n := ReadCount(fs, content, got);
    if n > 0 {
      TimersQueue(if fs.offset + n == fs.filesize then s.(writeCb := RetrDone) else s,
        content[fs.offset..fs.offset + n]);
    }
  }

  lemma TimersWrite(s: State, drained: bool, got: int)
    ensures SameTimers(s, OnDataWrite(s, drained, got))
  {
    hide SendNextChunk;
    if s.stream.Some? {
      TimersChunk(s, got);
    }
  }

  lemma TimersDataEvent(s: State, connected: bool, timeout: bool, error: bool, eof: bool,
                        listing: Lister)
    ensures SameTimers(s, OnDataEvent(s, connected, timeout, error, eof, listing))
  {
    hide OnEof, Close, SendListing;
    var t := if connected then OnConnected(s, listing) else s;
    if connected && s.bev.Some? {
      var u := s.(dataActive := s.dataActive + 1, bev := Some(s.bev.value.(handshaken := true)));
      TimersListing(u, listing(u.cwd, u.saved));
      TimersClose(u);
    }
    TimersDrain(t);
    TimersClose(t);
    TimersClose(OnEof(t));
  }

  lemma TimersRetr(s: State, site: Site, args: seq<string>, env: Env)
    ensures SameTimers(s, Retr(s, site, args, env))
  {
    hide SendNextChunk, Queue, NotAlone, Content;
    if |args| == 1 && s.bev.Some? && env.openOk && site.resolve(s.cwd, args[0]) in s.w.disk.names {
      var t := Say(s, FILE_STATUS_OKAY, "Sending file");
      var file := s.w.disk.names[site.resolve(s.cwd, args[0])];
      TimersChunk(OpenForReading(t, file), env.got);
      TimersQueue(t.(writeCb := PlainDone), Content(s.w.disk, file));
    }
  }

  lemma TimersSay(s: State, u: State, code: nat, text: string)
    requires SameTimers(s, u)
    ensures SameTimers(s, Say(u, code, text))
  {
  }

  lemma TimersList(s: State, args: seq<string>, env: Env, description: bool)
    ensures SameTimers(s, List(s, args, env, description))
  {
    hide SendListing, ParseList, IsPathSafe, Say;
    TimersSay(s, s.(controlCb := CloseData), SYNTAX_ERROR_PARAMS, "Failed to parse parameters");
    TimersSay(s, s.(controlCb := CloseData), FILE_ACTION_NOT_TAKEN_PERM, "Invalid path");
    TimersSay(s, s, CANNOT_OPEN_DATA, "Cannot open data connection");
    if ParseList(args, description).Some? {
      var request := ParseList(args, description).value;
      TimersSay(s, s.(saved := request, tlsCb := ListTls), FILE_STATUS_OKAY, "Here comes the directory listings");
      TimersSay(s, s, FILE_STATUS_OKAY, "Here comes the directory listings");
      TimersListing(Say(s, FILE_STATUS_OKAY, "Here comes the directory listings"), env.listing(s.cwd, request));
    }
  }

  lemma TimersAbor(s: State)
    ensures SameTimers(s, Abor(s))
  {
    hide Close, Say;
    TimersClose(s);
    TimersSay(s, Close(s), ACTION_ABORTED, "closed data connection; tansfer aborted");
    TimersSay(s, s.(controlCb := CloseData), DATA_CONNECTION_CLOSING, "No transfer in progress");
  }

  lemma TimersStor(s: State, site: Site, args: seq<string>, env: Env)
    ensures SameTimers(s, Stor(s, site, args, env))
  {
    hide Create, Target, Taken, Written, Say;
    TimersSay(s, s, SYNTAX_ERROR_PARAMS, "File path not provided");
    TimersSay(s, s, CANNOT_OPEN_DATA, "Cannot open data connection");
    TimersSay(s, s.(controlCb := CloseData), FILE_ACTION_NOT_TAKEN_PERM, "Failed to open file for writing");
    if |args| == 1 && s.bev.Some? {
      var t := OpenForWriting(s, site.resolve(s.cwd, args[0]));
      TimersSay(s, if s.tlsRequired then t.(tlsCb := StorTls) else t.(readCb := StorRead),
        FILE_STATUS_OKAY, "Read to receive");
    }
  }

  lemma TimersUser(s: State, args: seq<string>, env: Env)
    ensures SameTimers(s, User(s, args, env))
  {
    hide Say;
    TimersSay(s, s.(controlCb := DisableControl), SYNTAX_ERROR_PARAMS, "Invalid syntax in parameters");
    TimersSay(s, s, NOT_LOGGED_IN, "User not found");
    if |args| == 1 {
      TimersSay(s, s.(username := Prefix(args[0], USERNAME_SIZE)), USER_NAME_OK, "User name okay, need password");
    }
  }

  lemma TimersAuth(s: State, args: seq<string>)
    ensures SameTimers(s, Auth(s, args))
  {
    hide Say;
    TimersSay(s, s, SYNTAX_ERROR_PARAMS, "File path not provided");
    TimersSay(s, s, SYNTAX_ERROR_PARAMS, "Invalid parameter");
    TimersSay(s, s, AUTH_TLS_OK, "AUTH TLS Success");
  }

  lemma TimersProt(s: State, args: seq<string>)
    ensures SameTimers(s, Prot(s, args))
  {
    hide Say;
    TimersSay(s, s, SYNTAX_ERROR_PARAMS, "File path not provided");
    TimersSay(s, s, NOT_IMPLEMENTED, "Unsupported PROT level");
    TimersSay(s, s.(tlsRequired := true), COMMAND_OK, "PROT now Private");
  }

  lemma TimersType(s: State, args: seq<string>)
    ensures SameTimers(s, SetType(s, args))
  {
    hide Say;
    TimersSay(s, s, SYNTAX_ERROR_PARAMS, "File path not provided");
    TimersSay(s, s, UNSUPPORTED_TYPE, "Unsupported type");
    TimersSay(s, s.(mode := Binary), COMMAND_OK, "Type set to I");
    TimersSay(s, s.(mode := Ascii), COMMAND_OK, "Type set to A");
  }

  lemma TimersCwd(s: State, site: Site, args: seq<string>, env: Env)
    ensures SameTimers(s, Cwd(s, site, args, env))
  {
    hide Say, IsPathSafe;
    TimersSay(s, s, SYNTAX_ERROR_PARAMS, "Invalid syntax in parameters");
    TimersSay(s, s, SYNTAX_ERROR_PARAMS, "Path not provided");
    TimersSay(s, s, FILE_ACTION_NOT_TAKEN_PERM, "Invalid path");
    TimersSay(s, s, FILE_ACTION_NOT_TAKEN_PERM, "Not a directory.");
    if |args| == 1 {
      TimersSay(s, s.(cwd := site.enter(s.cwd, args[0])), FILE_ACTION_OK, "Directory successfully changed.");
    }
  }

  lemma TimersFileReply(s: State, env: Env)
    ensures SameTimers(s, FileReply(s, env))
  {
    hide Say;
    TimersSay(s, s, env.fileReply, "");
    TimersSay(s, s, FILE_ACTION_NOT_TAKEN_PERM, "");
  }

  lemma TimersDele(s: State, env: Env)
    ensures SameTimers(s, Dele(s, env))
  {
    hide FileReply;
    TimersFileReply(s.(w := s.w.(disk := Unlink(s.w.disk, env.removed))), env);
  }

  lemma TimersCommand(s: State, site: Site, handler: Handler, args: seq<string>, env: Env)
    requires handler !in {PassAction, PasvAction, EpsvAction}
    ensures SameTimers(s, OnCommand(s, site, handler, args, env))
  {
    hide Retr, List, Abor, Stor, User, Auth, Prot, SetType, Cwd, Dele, FileReply;
    match handler
    case UserAction => TimersUser(s, args, env);
    case AuthAction => TimersAuth(s, args);
    case ProtAction => TimersProt(s, args);
    case TypeAction => TimersType(s, args);
    case CwdAction => TimersCwd(s, site, args, env);
    case DeleAction => TimersDele(s, env);
    case SizeAction | MdtmAction | PwdAction | MkdAction | RmdAction => TimersFileReply(s, env);
    case RetrAction => TimersRetr(s, site, args, env);
    case ListAction => TimersList(s, args, env, true);
    case NlstAction => TimersList(s, args, env, false);
    case AborAction => TimersAbor(s);
    case StorAction => TimersStor(s, site, args, env);
    case _ =>
  }

  /** An accepted connection releases the timer pointed to. */
  lemma AcceptTimers(s: State, site: Site, peer: string, created: bool)
    requires s.listener.Some? && OwnTimers(s)
    ensures OwnTimers(OnAccept(s, site, peer, created))
      <==> (Prefix(site.sourceIp, 4) == Prefix(peer, 4) ==> created)
  {
    var t := OnAccept(s, site, peer, created);
    if Prefix(site.sourceIp, 4) == Prefix(peer, 4) {
      assert s.timer in DataTimers(s);
      assert DataTimers(t) == if created then {} else {s.timer};
    }
  }

  lemma TimerTimers(s: State, id: nat)
    requires OwnTimers(s) && id in s.w.armed
    ensures OwnTimers(OnTimer(s, id))
  {
    var t := OnTimer(s, id);
    if id == AUTH_TIMER {
      assert DataTimers(t) == DataTimers(s);
    } else {
      assert id in DataTimers(s);
      assert DataTimers(t) == {};
    }
  }

  lemma PassTimers(s: State, args: seq<string>, env: Env)
    requires Inv(s) && !s.authenticated && OwnTimers(s)
    ensures OwnTimers(Pass(s, args, env))
  {
    hide LoopOk, DataOk, StorOk, RetrOk, DiskOk;
    assert DataTimers(Pass(s, args, env)) == DataTimers(s);
  }

  /** PASV and EPSV replace the listener without looking at its timer. */
  lemma PassiveTimers(s: State, site: Site, env: Env, extended: bool)
    requires Inv(s) && OwnTimers(s)
    ensures OwnTimers(ListenerConfig(s, site, env, extended)) <==> DataTimers(s) == {}
  {
    hide Inv, PassivePort, Listening;
    var t := ListenerConfig(s, site, env, extended);
    var found := PassivePort(site.range, env.free);
    ArmedTimers(s);
    if env.sockname && found.Some? {
      ListeningOnly(s, site, found.value, env.ephemeral, extended);
      assert DataTimers(t) == DataTimers(s) + {t.timer};
      if DataTimers(s) != {} {
        var stale :| stale in DataTimers(s);
        assert stale in DataTimers(t) && stale != t.timer;
      }
    } else {
      assert DataTimers(t) == DataTimers(s) && t.listener.None?;
    }
  }

  /** When only the present listener's timer can go off, one step keeps it so exactly when it is
      orderly. */
  lemma OwnTimersStep(s: State, site: Site, e: Event)
    requires Inv(s) && Enabled(s, site, e) && OwnTimers(s)
    ensures OwnTimers(Step(s, site, e)) <==> Orderly(s, site, e)
  {
    hide OnCommand, OnAccept, OnTimer, Select, Parse, OwnTimers, ScanEnds, ListenerConfig, Inv;
    if e.Accept? {
      AcceptReady(s);
      AcceptTimers(s, site, e.peer, e.created);
    } else if e.TimerFires? {
      TimerTimers(s, e.id);
    } else if RunsPassive(s, e) {
      PassiveStep(s, site, e);
      PassiveTimers(s, site, e.env, IsExtended(s, e));
    } else if e.Line? && Select(Parse(e.input).command, s.authenticated) == PassAction {
      SelectRespectsLogin(Parse(e.input).command, s.authenticated);
      PassTimers(s, Parse(e.input).args, e.env);
      PassRuns(s, site, Parse(e.input).args, e.env);
    } else {
      hide Step;
      SameTimersStep(s, site, e);
      SameTimersOwn(s, Step(s, site, e));
    }
  }

  lemma AcceptReady(s: State)
    requires Inv(s) && s.w.listeners != {}
    ensures s.listener.Some?
  {
    hide LoginOk, DataOk, StorOk, RetrOk, DiskOk;
  }

  lemma PassRuns(s: State, site: Site, args: seq<string>, env: Env)
    ensures OnCommand(s, site, PassAction, args, env) == Pass(s, args, env)
  {
    hide Pass;
  }

  lemma SameTimersOwn(s: State, t: State)
    requires OwnTimers(s) && SameTimers(s, t)
    ensures OwnTimers(t)
  {
  }

  /** Over a run: at every point only the present listener's timer can go off, exactly when every step is
      orderly. Then a listener is closed by a timer only if it is its own. */
  ghost predicate AlwaysOwn(s: State, site: Site, events: seq<Event>)
    decreases events
  {
    OwnTimers(s) && (events != [] ==> AlwaysOwn(Step(s, site, events[0]), site, events[1..]))
  }

  ghost predicate AllOrderly(s: State, site: Site, events: seq<Event>)
    decreases events
  {
    events != [] ==> Orderly(s, site, events[0]) && AllOrderly(Step(s, site, events[0]), site, events[1..])
  }

  /** No timer but its own ever closes a listener. */
  ghost predicate NoForeignTimer(s: State, site: Site, events: seq<Event>)
    decreases events
  {
    events != [] ==>
      && (events[0].TimerFires? && events[0].id != AUTH_TIMER && s.listener.Some? ==> events[0].id == s.timer)
      && NoForeignTimer(Step(s, site, events[0]), site, events[1..])
  }

  lemma {:induction false} OwnTimersExactly(s: State, site: Site, events: seq<Event>)
    requires Inv(s) && RunEnabled(s, site, events) && OwnTimers(s)
    ensures AlwaysOwn(s, site, events) <==> AllOrderly(s, site, events)
    ensures AllOrderly(s, site, events) ==> NoForeignTimer(s, site, events)
    decreases events
  {
    hide Inv, Step, Enabled, Orderly, OwnTimers;
    if events != [] {
      var t := Step(s, site, events[0]);
      StepInv(s, site, events[0]);
      OwnTimersStep(s, site, events[0]);
      if OwnTimers(t) {
        OwnTimersExactly(t, site, events[1..]);
      }
      if events[0].TimerFires? && events[0].id != AUTH_TIMER && s.listener.Some? {
        FiringIsOwn(s, site, events[0]);
      }
    }
  }

  lemma FiringIsOwn(s: State, site: Site, e: Event)
    requires OwnTimers(s) && Enabled(s, site, e) && e.TimerFires? && e.id != AUTH_TIMER && s.listener.Some?
    ensures e.id == s.timer
  {
    assert e.id in DataTimers(s);
  }

  /** A new session starts that way. */
  lemma InitOwnTimers(disk: Disk)
    ensures OwnTimers(Init(disk))
  {
    assert DataTimers(Init(disk)) == {};
  }
}
