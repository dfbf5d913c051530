/** One client session as a state machine: the connection record, the objects of the event loop it
    points to, and what each command and each event does to them. Byte strings are Dafny strings. */
module Session {
  import opened Options
  import opened CommandParser
  import opened CommandOptions
  import opened Disks
  import opened Dispatch
  import opened PassiveMode
  import opened Replies

  const FEATURES: string :=
    "211-Features:\r\n EPSV\r\n PASV\r\n AUTH\r\n SIZE\r\n MDTM\r\n MLSD\r\n211 End"

  const FILE_CHUNK_SIZE: nat := 0x400_0000
  const USERNAME_SIZE: nat := 256
  const AUTH_TIMER: nat := 0

  // ---------------------------------------------------------------- the connection record

  /** The function pointers the record can hold, NULL first. */
  datatype ControlCb = NoControl | CloseData | DisableControl
  datatype ReadCb = NoRead | StorRead
  datatype WriteCb = NoWrite | NextChunk | PlainDone | RetrDone | ListDone
  datatype TlsCb = NoTls | StorTls | ListTls | CloseOnTls
  datatype EofCb = NoEof | StorEof

  /** `upload_fd`: -1, the zero a fresh record starts with, or an open file. */
  datatype UploadFd = Closed | Zero | File(file: nat)

  /** A file being sent in chunks. The rest is for the record: `source` is its content when it was
      opened and `intact` says that it still is; `base` is where its bytes start in the output and
      `alone` says that nothing else has been written to the same output since. */
  datatype Stream = Stream(file: nat, offset: nat, filesize: nat, open: bool,
                           source: Bytes, intact: bool, base: nat, alone: bool)

  /** A data connection. `received` and `output` are everything that ever arrived and everything ever
      handed over for sending; `input` is what has not been taken out of the buffer yet. */
  datatype Bev = Bev(id: nat, tls: bool, handshaken: bool, received: Bytes, input: Bytes, output: Bytes)

  datatype ListRequest = ListRequest(path: string, description: bool, all: bool, human: bool)

  /** What a request lists in a working directory. */
  type Lister = (string, ListRequest) -> Bytes

  datatype TransferMode = Ascii | Binary

  /** The event loop and the file system around the record. `listening` is the port the newest listener
      really has. */
  datatype World = World(
    listeners: set<nat>, listening: nat, armed: set<nat>, timers: set<nat>, released: seq<nat>, nextId: nat,
    disk: Disk, replies: seq<Reply>, closed: bool)

  /** Where the client and the server are, the ports it may use, and how paths are read: the full name
      a path stands for in a working directory, and the working directory CWD leads to. */
  datatype Site = Site(range: PortRange, address: nat, sourceIp: string,
                       resolve: (string, string) -> string, enter: (string, string) -> string)

  datatype State = State(
    authenticated: bool, username: string, cwd: string, mode: TransferMode, controlCb: ControlCb,
    upgraded: bool, tlsRequired: bool,
    readCb: ReadCb, writeCb: WriteCb, tlsCb: TlsCb, eofCb: EofCb,
    stream: Option<Stream>, uploadFd: UploadFd, dataActive: nat, dataPort: nat,
    listener: Option<nat>, bev: Option<Bev>, timer: nat, saved: ListRequest,
    storBase: nat, w: World)

  const GREETING := Reply(SERVICE_READY, "Welcome to CFTP Server")

  function Init(disk: Disk): State {
    State(false, "", "", Ascii, NoControl, false, false, NoRead, NoWrite, NoTls, NoEof,
      None, Zero, 0, 0, None, None, AUTH_TIMER, ListRequest("", false, false, false), 0,
      World({}, 0, {AUTH_TIMER}, {AUTH_TIMER}, [], 1, disk, [GREETING], false))
  }

  /** What the surroundings answer while one command runs. */
  datatype Env = Env(
    userExists: bool, accepts: (string, string) -> bool,
    sockname: bool, free: set<nat>,
    openOk: bool, dirOk: bool, listing: Lister, got: int, fileReply: nat,
    removed: set<string>, ephemeral: nat)

  datatype Event =
    | Line(input: string, env: Env)
    | Accept(peer: string, created: bool)
    | Segment(bytes: Bytes)
    | DataEvent(connected: bool, timeout: bool, error: bool, eof: bool, listing: Lister)
    | DataRead
    | DataWrite(drained: bool, got: int)
    | ControlWritten
    | ControlGone
    | TimerFires(id: nat)

  // ---------------------------------------------------------------- small steps

  function Say(s: State, code: nat, text: string): State {
    s.(w := s.w.(replies := s.w.replies + [Reply(code, text)]))
  }

  function Release(s: State, timer: nat): State {
    s.(w := s.w.(armed := s.w.armed - {timer}, timers := s.w.timers - {timer},
      released := s.w.released + [timer]))
  }

  function DropListener(s: State): State {
    if s.listener.None? then s
    else s.(listener := None, w := s.w.(listeners := s.w.listeners - {s.listener.value}))
  }

  function Close(s: State): State {
    var t := s.(readCb := NoRead, writeCb := NoWrite, tlsCb := NoTls, eofCb := NoEof,
      dataActive := 0, uploadFd := Closed);
    if s.bev.None? then t else t.(bev := None, stream := None)
  }

  /** The bytes taken out of the input buffer so far. */
  function Taken(b: Bev): nat {
    if |b.input| <= |b.received| then |b.received| - |b.input| else 0
  }

  /** A file under way is not what it was when it was opened if it is written to. */
  function Written(stream: Option<Stream>, file: nat): Option<Stream> {
    if stream.Some? && stream.value.file == file then Some(stream.value.(intact := false)) else stream
  }

  /** The drain loop: the whole input buffer goes to the end of the open file. */
  function Drain(s: State): State {
    if s.bev.None? || !s.uploadFd.File? then s
    else
      s.(bev := Some(s.bev.value.(input := "")),
         stream := Written(s.stream, s.uploadFd.file),
         w := s.w.(disk := Append(s.w.disk, s.uploadFd.file, s.bev.value.input)))
  }

  /** Hands bytes to the data connection's output buffer. */
  function Queue(s: State, bytes: Bytes): State {
    if s.bev.None? then s else s.(bev := Some(s.bev.value.(output := s.bev.value.output + bytes)))
  }

  function NotAlone(s: State): State {
    if s.stream.None? then s else s.(stream := Some(s.stream.value.(alone := false)))
  }

  /** What `read` returns: -1 on a failed or closed descriptor, 0 at the end of the file as it is now,
      otherwise some bytes, at most a chunk. */
  function ReadCount(fs: Stream, content: Bytes, got: int): (n: int)
    ensures -1 <= n <= FILE_CHUNK_SIZE
    ensures n > 0 ==> fs.open && fs.offset + n <= |content|
  {
    if !fs.open || got < 0 then -1
    else if fs.offset >= |content| then 0
    else
      var most := if |content| - fs.offset < FILE_CHUNK_SIZE then |content| - fs.offset else FILE_CHUNK_SIZE;
      if got == 0 then 1 else if got < most then got else most
  }

  function SendNextChunk(s: State, got: int): State
    requires s.stream.Some?
  {
    var fs := s.stream.value;
    var content := Content(s.w.disk, fs.file);
    var n := ReadCount(fs, content, got);
    var t := if fs.offset + n == fs.filesize then s.(writeCb := RetrDone) else s;
    if n <= 0 then t.(stream := Some(fs.(open := false)))
    else Queue(t, content[fs.offset..fs.offset + n]).(stream := Some(fs.(offset := fs.offset + n)))
  }

  function SendListing(s: State, listing: Bytes): State {
    if listing == "" then
      Say(s.(controlCb := CloseData, tlsCb := CloseOnTls), DATA_CONNECTION_CLOSING, "Directory send OK")
    else
      NotAlone(Queue(s.(writeCb := ListDone), listing))
  }

  // ---------------------------------------------------------------- commands

  function Prefix(s: string, n: nat): string {
    if |s| <= n then s else s[..n]
  }

  /** No name that begins with "root" is ever taken. */
  function User(s: State, args: seq<string>, env: Env): State {
    if |args| != 1 then
      Say(s.(controlCb := DisableControl), SYNTAX_ERROR_PARAMS, "Invalid syntax in parameters")
    else if Prefix(args[0], 4) != "root" && env.userExists then
      Say(s.(username := Prefix(args[0], USERNAME_SIZE)), USER_NAME_OK, "User name okay, need password")
    else Say(s, NOT_LOGGED_IN, "User not found")
  }

  function Pass(s: State, args: seq<string>, env: Env): State {
    if |args| != 1 then
      Say(s.(controlCb := DisableControl), SYNTAX_ERROR_PARAMS, "Invalid syntax in parameters")
    else if env.accepts(s.username, args[0]) then
      Release(Say(s, USER_LOGGED_IN, "User logged in").(authenticated := true, cwd := "/"), s.timer)
    else Say(s, NOT_LOGGED_IN, "Invalid credentials")
  }

  function Auth(s: State, args: seq<string>): State {
    if |args| != 1 then Say(s, SYNTAX_ERROR_PARAMS, "File path not provided")
    else if args[0] == "TLS" then Say(s, AUTH_TLS_OK, "AUTH TLS Success").(upgraded := true)
    else Say(s, SYNTAX_ERROR_PARAMS, "Invalid parameter")
  }

  function Prot(s: State, args: seq<string>): State {
    if |args| != 1 then Say(s, SYNTAX_ERROR_PARAMS, "File path not provided")
    else if args[0] == "P" then Say(s.(tlsRequired := true), COMMAND_OK, "PROT now Private")
    else Say(s, NOT_IMPLEMENTED, "Unsupported PROT level")
  }

  function SetType(s: State, args: seq<string>): State {
    if |args| != 1 then Say(s, SYNTAX_ERROR_PARAMS, "File path not provided")
    else if args[0] == "I" then Say(s.(mode := Binary), COMMAND_OK, "Type set to I")
    else if args[0] == "A" then Say(s.(mode := Ascii), COMMAND_OK, "Type set to A")
    else Say(s, UNSUPPORTED_TYPE, "Unsupported type")
  }

  function Abor(s: State): State {
    if s.dataActive != 0 then
      Say(Close(s), ACTION_ABORTED, "closed data connection; tansfer aborted")
    else
      Say(s.(controlCb := CloseData), DATA_CONNECTION_CLOSING, "No transfer in progress")
  }

  function PassiveReply(site: Site, port: nat, extended: bool): Reply {
    if extended then
      Reply(ENTERING_EPSV_MODE, ExtendedText(if port < PORTS then port else 0))
    else
      Reply(ENTERING_PASSIVE_MODE, PassiveText(
        if site.address < 0x1_0000_0000 then site.address else 0, if port < PORTS then port else 0))
  }

  /** A new listener bound to this port, its timer, and the reply that announces it. */
  function Listening(s: State, site: Site, port: nat, ephemeral: nat, extended: bool): State {
    var id := s.w.nextId;
    var reply := PassiveReply(site, port, extended);
    Say(s.(dataPort := port, listener := Some(id), timer := id + 1,
        w := s.w.(listeners := s.w.listeners + {id}, listening := BoundPort(port, ephemeral),
          armed := s.w.armed + {id + 1}, timers := s.w.timers + {id + 1}, nextId := id + 2)), reply.code, reply.text)
  }

  function ListenerConfig(s: State, site: Site, env: Env, extended: bool): State {
    var t := DropListener(s);
    if !env.sockname then Say(t, CANNOT_OPEN_DATA, "Can't open passive connection")
    else match PassivePort(site.range, env.free)
      case Some(port) => Listening(t, site, port, env.ephemeral, extended)
      case None =>
        Say(t.(dataPort := if site.range.start <= site.range.end then site.range.end else t.dataPort),
          CANNOT_OPEN_DATA, "Can't open passive connection")
  }

  function Stor(s: State, site: Site, args: seq<string>, env: Env): State {
    if |args| != 1 then Say(s, SYNTAX_ERROR_PARAMS, "File path not provided")
    else if s.bev.None? then Say(s, CANNOT_OPEN_DATA, "Cannot open data connection")
    else if !env.openOk then
      Say(s.(controlCb := CloseData), FILE_ACTION_NOT_TAKEN_PERM, "Failed to open file for writing")
    else
      var t := OpenForWriting(s, site.resolve(s.cwd, args[0]));
      Say(if s.tlsRequired then t.(tlsCb := StorTls) else t.(readCb := StorRead),
        FILE_STATUS_OKAY, "Read to receive")
  }

  /** The file is opened, empty; what was taken out of the input buffer before does not belong to it. */
  function OpenForWriting(s: State, name: string): State
    requires s.bev.Some?
  {
    var file := Target(s.w.disk, name);
    s.(uploadFd := File(file), eofCb := StorEof, storBase := Taken(s.bev.value),
      stream := Written(s.stream, file), w := s.w.(disk := Create(s.w.disk, name)))
  }

  function Retr(s: State, site: Site, args: seq<string>, env: Env): State {
    if |args| != 1 then Say(s, SYNTAX_ERROR_PARAMS, "File path not provided")
    else if s.bev.None? then s
    else
      var name := site.resolve(s.cwd, args[0]);
      var found := env.openOk && name in s.w.disk.names;
      if s.tlsRequired then
        if !found then s
        else
          SendNextChunk(OpenForReading(Say(s, FILE_STATUS_OKAY, "Sending file"), s.w.disk.names[name]), env.got)
      else if !found then Say(s, FILE_ACTION_NOT_TAKEN_PERM, "Failed to open file")
      else
        NotAlone(Queue(Say(s, FILE_STATUS_OKAY, "Sending file").(writeCb := PlainDone),
          Content(s.w.disk, s.w.disk.names[name])))
  }

  function OpenForReading(s: State, file: nat): State
    requires s.bev.Some?
  {
    var content := Content(s.w.disk, file);
    s.(writeCb := NextChunk,
      stream := Some(Stream(file, 0, |content|, true, content, true, |s.bev.value.output|, true)))
  }

  const LIST_OPTIONS: set<string> := {"-a", "-h", "-R"}

  /** The flags of a listing, unless more than one path is named. */
  function ParseList(args: seq<string>, description: bool): Option<ListRequest> {
    var paths := Operands(args, LIST_OPTIONS);
    if |paths| > 1 then None
    else
      var path := if |paths| == 1 && paths[0] != "" then paths[0] else ".";
      Some(ListRequest(path, description, "-a" in args, "-h" in args))
  }

  function List(s: State, args: seq<string>, env: Env, description: bool): State {
    match ParseList(args, description)
    case None => Say(s.(controlCb := CloseData), SYNTAX_ERROR_PARAMS, "Failed to parse parameters")
    case Some(request) =>
      if s.bev.None? then Say(s, CANNOT_OPEN_DATA, "Cannot open data connection")
      else if !IsPathSafe(request.path) || !env.dirOk then
        Say(s.(controlCb := CloseData), FILE_ACTION_NOT_TAKEN_PERM, "Invalid path")
      else if s.tlsRequired then
        Say(s.(saved := request, tlsCb := ListTls), FILE_STATUS_OKAY, "Here comes the directory listings")
      else
        SendListing(Say(s, FILE_STATUS_OKAY, "Here comes the directory listings"), env.listing(s.cwd, request))
  }

  function Cwd(s: State, site: Site, args: seq<string>, env: Env): State {
    if |args| != 1 then Say(s, SYNTAX_ERROR_PARAMS, "Invalid syntax in parameters")
    else if args[0] == "" then Say(s, SYNTAX_ERROR_PARAMS, "Path not provided")
    else if !IsPathSafe(args[0]) then Say(s, FILE_ACTION_NOT_TAKEN_PERM, "Invalid path")
    else if !env.dirOk then Say(s, FILE_ACTION_NOT_TAKEN_PERM, "Not a directory.")
    else Say(s.(cwd := site.enter(s.cwd, args[0])), FILE_ACTION_OK, "Directory successfully changed.")
  }

  /** SIZE, MDTM, PWD, MKD and RMD touch no field of the record and no file; one of these codes goes
      back. */
  function FileReply(s: State, env: Env): State {
    var codes := {FILE_STATUS, FILE_ACTION_OK, PATHNAME_CREATED, SYNTAX_ERROR_PARAMS, FILE_NAME_NOT_ALLOWED};
    Say(s, if env.fileReply in codes then env.fileReply else FILE_ACTION_NOT_TAKEN_PERM, "")
  }

  /** DELE as the session sees it: some names are gone, whatever the reply. */
  function Dele(s: State, env: Env): State {
    FileReply(s.(w := s.w.(disk := Unlink(s.w.disk, env.removed))), env)
  }

  function OnCommand(s: State, site: Site, handler: Handler, args: seq<string>, env: Env): State {
    match handler
    case UserAction => User(s, args, env)
    case PassAction => Pass(s, args, env)
    case AuthAction => Auth(s, args)
    case ProtAction => Prot(s, args)
    case TypeAction => SetType(s, args)
    case AborAction => Abor(s)
    case EpsvAction => ListenerConfig(s, site, env, true)
    case PasvAction => ListenerConfig(s, site, env, false)
    case StorAction => Stor(s, site, args, env)
    case RetrAction => Retr(s, site, args, env)
    case CwdAction => Cwd(s, site, args, env)
    case DeleAction => Dele(s, env)
    case ListAction => List(s, args, env, true)
    case NlstAction => List(s, args, env, false)
    case SystAction => Say(s, SYSTEM_TYPE, "UNIX Type: L8")
    case QuitAction => Say(s, SERVICE_CLOSING, "Goodbye")
    case PbszAction => Say(s, COMMAND_OK, "PBSZ=0")
    case NoopAction => Say(s, COMMAND_OK, "NOOP command successful")
    case FeatAction => Say(s, 0, FEATURES)
    case NonAuthenticated => Say(s, NOT_LOGGED_IN, "Not logged in")
    case AlreadyAuthenticated => Say(s, USER_LOGGED_IN, "Already logged in")
    case InvalidAction => Say(s, NOT_IMPLEMENTED, "Unknown command")
    case _ => FileReply(s, env)
  }

  // ---------------------------------------------------------------- events

  /** The passive accept. Only the first four characters of the two addresses are compared. */
  function OnAccept(s: State, site: Site, peer: string, created: bool): State {
    if s.listener.None? || Prefix(site.sourceIp, 4) != Prefix(peer, 4) then s
    else
      var id := s.w.nextId;
      var t := DropListener(s).(dataActive := 0, bev := None);
      if !created then t
      else
        var u := t.(bev := Some(Bev(id, s.tlsRequired, false, "", "", "")),
          dataActive := if s.tlsRequired then 0 else 1, w := t.w.(nextId := id + 1));
        Release(u, s.timer)
  }

  function OnSegment(s: State, bytes: Bytes): State {
    if s.bev.None? then s
    else
      var b := s.bev.value;
      s.(bev := Some(b.(received := b.received + bytes, input := b.input + bytes)))
  }

  function OnConnected(s: State, listing: Lister): State {
    if s.bev.None? then s
    else
      var t := s.(dataActive := s.dataActive + 1, bev := Some(s.bev.value.(handshaken := true)));
      if !s.tlsRequired then t
      else match s.tlsCb
        case NoTls => t
        case StorTls => t.(readCb := StorRead)
        case ListTls => SendListing(t, listing(t.cwd, t.saved))
        case CloseOnTls => Close(t)
  }

  function OnEof(s: State): State {
    if s.eofCb == NoEof || s.bev.None? then s
    else if s.uploadFd.Closed? then Say(s, INSUFFICIENT_STORAGE, "An error occurred")
    else Say(Drain(s).(uploadFd := Closed), DATA_CONNECTION_CLOSING, "Transfer complete")
  }

  function OnDataEvent(s: State, connected: bool, timeout: bool, error: bool, eof: bool,
                       listing: Lister): State {
    var t := if connected then OnConnected(s, listing) else s;
    var u := if eof then OnEof(t) else t;
    if eof || error || timeout then Close(u) else u
  }

  function OnDataRead(s: State): State {
    if s.readCb == StorRead then Drain(s) else s
  }

  function OnDataWrite(s: State, drained: bool, got: int): State {
    match s.writeCb
    case NoWrite => s
    case NextChunk => if s.stream.Some? then SendNextChunk(s, got) else s
    case PlainDone =>
      if drained then Say(s.(controlCb := CloseData), DATA_CONNECTION_CLOSING, "Transfer complete") else s
    case RetrDone => Say(s.(controlCb := CloseData), DATA_CONNECTION_CLOSING, "Transfer complete")
    case ListDone => Say(s.(controlCb := CloseData), DATA_CONNECTION_CLOSING, "Directory send OK")
  }

  function OnControlGone(s: State): State {
    s.(w := s.w.(closed := true))
  }

  /** The one-shot callback of the control connection. */
  function OnControlWritten(s: State): State {
    var t := match s.controlCb
      case NoControl => s
      case CloseData => Close(s)
      case DisableControl => OnControlGone(s);
    t.(controlCb := NoControl)
  }

  function OnTimer(s: State, id: nat): State {
    var t := s.(w := s.w.(armed := s.w.armed - {id}));
    if id == AUTH_TIMER then
      Say(t.(controlCb := DisableControl), SERVICE_NOT_AVAILABLE, "Control connection timed out !")
    else DropListener(t)
  }

  function Step(s: State, site: Site, e: Event): State {
    match e
    case Line(input, env) =>
      var cmd := Parse(input);
      OnCommand(s, site, Select(cmd.command, s.authenticated), cmd.args, env)
    case Accept(peer, created) => OnAccept(s, site, peer, created)
    case Segment(bytes) => OnSegment(s, bytes)
    case DataEvent(connected, timeout, error, eof, listing) =>
      OnDataEvent(s, connected, timeout, error, eof, listing)
    case DataRead => OnDataRead(s)
    case DataWrite(drained, got) => OnDataWrite(s, drained, got)
    case ControlWritten => OnControlWritten(s)
    case ControlGone => OnControlGone(s)
    case TimerFires(id) => OnTimer(s, id)
  }

  /** One read of the control connection takes at most this many bytes. */
  const READ_SIZE: nat := 1023

  /** The events the loop can deliver: none once it has been broken, lines that one read takes, a
      connection only to a live listener and only while no data connection is open, data events only on
      one, a handshake only once and only on TLS, and only armed timers; a passive scan has to end. */
  predicate Enabled(s: State, site: Site, e: Event) {
    && !s.w.closed
    && match e
       case Line(input, env) => |input| <= READ_SIZE && ScanEnds(site.range, env.free)
       case Accept(_, _) => s.w.listeners != {} && s.bev.None?
       case DataEvent(connected, _, _, _, _) =>
         s.bev.Some? && (connected ==> s.bev.value.tls && !s.bev.value.handshaken)
       case Segment(_) | DataRead | DataWrite(_, _) => s.bev.Some?
       case TimerFires(id) => id in s.w.armed
       case ControlWritten | ControlGone => true
  }

  function Run(s: State, site: Site, events: seq<Event>): State
    decreases events
  {
    if events == [] then s else Run(Step(s, site, events[0]), site, events[1..])
  }

  ghost predicate RunEnabled(s: State, site: Site, events: seq<Event>)
    decreases events
  {
    events != [] ==> Enabled(s, site, events[0]) && RunEnabled(Step(s, site, events[0]), site, events[1..])
  }
}
