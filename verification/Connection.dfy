/** The connection object that the callbacks of the event loop update in place, and the loop that runs
    them. Every method is tied to the session step it implements. */
module Connections {
  import opened Options
  import opened HashTables
  import opened CommandOptions
  import opened CommandParser
  import opened Disks
  import opened Dispatch
  import opened PassiveMode
  import opened Replies
  import opened Session
  import opened SessionInvariant

  class Connection {
    var authenticated: bool
    var username: string
    var cwd: string
    var transferMode: TransferMode
    var controlWriteCb: ControlCb
    var upgradedToTls: bool
    var dataTlsRequired: bool
    var dataReadCb: ReadCb
    var dataWriteCb: WriteCb
    var dataTlsEventConnectedCb: TlsCb
    var dataEofEventCb: EofCb
    var dataStream: Option<Stream>
    var uploadFd: UploadFd
    var dataActive: nat
    var dataPort: nat
    var pasvListener: Option<nat>
    var dataBev: Option<Bev>
    var timeoutEvent: nat
    var listRequest: ListRequest
    ghost var storBase: nat
    var loop: World

    ghost function View(): State
      reads this
    {
      State(authenticated, username, cwd, transferMode, controlWriteCb, upgradedToTls, dataTlsRequired,
        dataReadCb, dataWriteCb, dataTlsEventConnectedCb, dataEofEventCb,
        dataStream, uploadFd, dataActive, dataPort, pasvListener, dataBev, timeoutEvent, listRequest,
        storBase, loop)
    }

    /** A zeroed record with the authentication timer running, and the greeting sent. */
    constructor (disk: Disk)
      ensures View() == Init(disk)
    {
      authenticated, username, cwd, transferMode, controlWriteCb := false, "", "", Ascii, NoControl;
      upgradedToTls, dataTlsRequired := false, false;
      dataReadCb, dataWriteCb, dataTlsEventConnectedCb, dataEofEventCb := NoRead, NoWrite, NoTls, NoEof;
      dataStream, uploadFd, dataActive, dataPort := None, Zero, 0, 0;
      pasvListener, dataBev, timeoutEvent := None, None, AUTH_TIMER;
      listRequest, storBase := ListRequest("", false, false, false), 0;
      loop := World({}, 0, {AUTH_TIMER}, {AUTH_TIMER}, [], 1, disk, [], false);
      new;
      SendControlMessage(SERVICE_READY, "Welcome to CFTP Server");
    }

    // -------------------------------------------------------------- replies, timers, listeners

    method SendControlMessage(code: nat, text: string)
      modifies `loop
      ensures View() == Say(old(View()), code, text)
    {
      loop := loop.(replies := loop.replies + [Reply(code, text)]);
    }

    /** Deletes and frees the timer the record points to. */
    method FreeTimeoutEvent()
      modifies `loop
      ensures View() == Release(old(View()), timeoutEvent)
    {
      loop := loop.(armed := loop.armed - {timeoutEvent});
      loop := loop.(timers := loop.timers - {timeoutEvent}, released := loop.released + [timeoutEvent]);
    }

    method FreeListener()
      modifies `pasvListener, `loop
      ensures View() == DropListener(old(View()))
    {
      if pasvListener.Some? {
        loop := loop.(listeners := loop.listeners - {pasvListener.value});
        pasvListener := None;
      }
    }

    // -------------------------------------------------------------- the data connection

    method ClearCallbacks()
      modifies this
      ensures View() == old(View()).(readCb := NoRead, writeCb := NoWrite, tlsCb := NoTls, eofCb := NoEof)
    {
      dataTlsEventConnectedCb := NoTls;
      dataEofEventCb := NoEof;
      dataReadCb := NoRead;
      dataWriteCb := NoWrite;
    }

    method ForgetDataConnection()
      modifies this
      ensures View() == old(View()).(bev := None, readCb := NoRead, writeCb := NoWrite, tlsCb := NoTls,
        eofCb := NoEof, dataActive := 0, uploadFd := Closed)
    {
      dataBev := None;
      ClearCallbacks();
      dataActive := 0;
      uploadFd := Closed;
    }

    method CloseDataConnection()
      modifies this
      ensures View() == Close(old(View()))
    {
      if dataBev.None? {
        ForgetDataConnection();
      } else {
        FreeDataConnection();
      }
    }

    method FreeDataConnection()
      requires dataBev.Some?
      modifies this
      ensures View() == Close(old(View()))
    {
      ForgetDataConnection();
      if dataStream.Some? {
        dataStream := None;
      }
    }

    method BindPassivePort(site: Site, env: Env) returns (port: nat)
      requires pasvListener.None? && InWord(site.range) && ScanEnds(site.range, env.free)
      modifies `dataPort, `pasvListener, `loop
      ensures
        var found := PassivePort(site.range, env.free);
        && (found.Some? ==> port == found.value)
        && View() == (if found.None? then old(View()).(
            dataPort := if site.range.start <= site.range.end then site.range.end else old(dataPort))
          else old(View()).(dataPort := found.value, listener := Some(old(loop.nextId)),
            w := old(loop).(listeners := old(loop.listeners) + {old(loop.nextId)},
              listening := BoundPort(found.value, env.ephemeral), nextId := old(loop.nextId) + 1)))
    {
      var bound;
      bound, dataPort, port := ScanPorts(site.range, env.free, dataPort);
      if bound.Some? {
        pasvListener := Some(loop.nextId);
        loop := loop.(listeners := loop.listeners + {loop.nextId}, listening := BoundPort(port, env.ephemeral),
          nextId := loop.nextId + 1);
      }
    }

    method StartTimer()
      modifies `timeoutEvent, `loop
      ensures View() == old(View()).(timer := old(loop.nextId),
        w := old(loop).(armed := old(loop.armed) + {old(loop.nextId)},
          timers := old(loop.timers) + {old(loop.nextId)}, nextId := old(loop.nextId) + 1))
    {
      timeoutEvent := loop.nextId;
      loop := loop.(armed := loop.armed + {timeoutEvent}, timers := loop.timers + {timeoutEvent},
        nextId := loop.nextId + 1);
    }

    method DataConnectionListenerConfig(site: Site, env: Env, extended: bool)
      requires InWord(site.range) && ScanEnds(site.range, env.free)
      modifies this
      ensures View() == ListenerConfig(old(View()), site, env, extended)
    {
      hide PassivePort, ScanEnds, Listening;
      FreeListener();
      if !env.sockname {
        SendControlMessage(CANNOT_OPEN_DATA, "Can't open passive connection");
        return;
      }
      OpenListener(site, env, extended);
    }

    /** Binds, sets the timer and answers. */
    method OpenListener(site: Site, env: Env, extended: bool)
      requires pasvListener.None? && InWord(site.range) && ScanEnds(site.range, env.free)
      modifies this
      ensures View() == match PassivePort(site.range, env.free)
        case Some(port) => Listening(old(View()), site, port, env.ephemeral, extended)
        case None =>
          Say(old(View()).(
            dataPort := if site.range.start <= site.range.end then site.range.end else old(dataPort)),
            CANNOT_OPEN_DATA, "Can't open passive connection")
    {
      hide PassivePort, ScanEnds, PassiveReply, BoundPort;
      var port := BindPassivePort(site, env);
      if pasvListener.None? {
        SendControlMessage(CANNOT_OPEN_DATA, "Can't open passive connection");
        return;
      }
      StartTimer();
      var reply := PassiveReply(site, port, extended);
      SendControlMessage(reply.code, reply.text);
    }

    method DataConnectionAcceptCb(site: Site, peer: string, created: bool)
      requires pasvListener.Some?
      modifies this
      ensures View() == OnAccept(old(View()), site, peer, created)
    {
      if Prefix(site.sourceIp, 4) != Prefix(peer, 4) {
        return;
      }
      FreeListener();
      dataActive := 0;
      dataBev := None;
      if !created {
        return;
      }
      NewDataConnection();
      if !dataTlsRequired {
        dataActive := dataActive + 1;
      }
      FreeTimeoutEvent();
    }

    method NewDataConnection()
      modifies `dataBev, `loop
      ensures View() == old(View()).(bev := Some(Bev(old(loop.nextId), dataTlsRequired, false, "", "", "")),
        w := old(loop).(nextId := old(loop.nextId) + 1))
    {
      dataBev := Some(Bev(loop.nextId, dataTlsRequired, false, "", "", ""));
      loop := loop.(nextId := loop.nextId + 1);
    }

    // -------------------------------------------------------------- STOR

    method RecvFile(site: Site, path: string, env: Env)
      modifies this
      ensures View() == Stor(old(View()), site, [path], env)
    {
      hide OpenForWriting;
      if dataBev.None? {
        SendControlMessage(CANNOT_OPEN_DATA, "Cannot open data connection");
        return;
      }
      if !env.openOk {
        controlWriteCb := CloseData;
        SendControlMessage(FILE_ACTION_NOT_TAKEN_PERM, "Failed to open file for writing");
        return;
      }
      StartReceiving(site.resolve(cwd, path));
    }

    method StartReceiving(name: string)
      requires dataBev.Some?
      modifies this
      ensures
        var t := OpenForWriting(old(View()), name);
        View() == Say(if old(dataTlsRequired) then t.(tlsCb := StorTls) else t.(readCb := StorRead),
          FILE_STATUS_OKAY, "Read to receive")
    {
      OpenUpload(name);
      if dataTlsRequired {
        dataTlsEventConnectedCb := StorTls;
      } else {
        dataReadCb := StorRead;
      }
      SendControlMessage(FILE_STATUS_OKAY, "Read to receive");
    }

    /** `open` with O_CREAT | O_TRUNC. */
    method OpenUpload(name: string)
      requires dataBev.Some?
      modifies this
      ensures View() == OpenForWriting(old(View()), name)
    {
      hide Taken, Target, Create, Written;
      var file := Target(loop.disk, name);
      loop := loop.(disk := Create(loop.disk, name));
      MarkWritten(file);
      InstallUpload(file);
    }

    method InstallUpload(file: nat)
      requires dataBev.Some?
      modifies `uploadFd, `storBase, `dataEofEventCb
      ensures View() == old(View()).(uploadFd := File(file), storBase := Taken(dataBev.value), eofCb := StorEof)
    {
      storBase := Taken(dataBev.value);
      uploadFd := File(file);
      dataEofEventCb := StorEof;
    }

    /** For the record only: a file under way that is written to is not what it was. */
    method MarkWritten(file: nat)
      modifies `dataStream
      ensures View() == old(View()).(stream := Written(old(dataStream), file))
    {
      if dataStream.Some? && dataStream.value.file == file {
        dataStream := Some(dataStream.value.(intact := false));
      }
    }

    method DrainInput()
      requires dataBev.Some? && uploadFd.File? && uploadFd.file in loop.disk.files
      modifies `dataBev, `dataStream, `loop
      ensures View() == Drain(old(View()))
    {
      hide Append, Written;
      MarkWritten(uploadFd.file);
      WriteInput(uploadFd.file);
    }

    /** Writes the input buffer to the open file, as much at a time as each write takes. */
    method WriteInput(file: nat)
      requires dataBev.Some? && file in loop.disk.files
      modifies `dataBev, `loop
      ensures dataBev == Some(old(dataBev).value.(input := ""))
      ensures loop == old(loop).(disk := Append(old(loop.disk), file, old(dataBev).value.input))
    {
      hide Append;
      ghost var written := "";
      AppendNothing(loop.disk, file);
      assert written + dataBev.value.input == dataBev.value.input;
      while dataBev.value.input != ""
        invariant dataBev.Some? && dataBev == Some(old(dataBev).value.(input := dataBev.value.input))
        invariant written + dataBev.value.input == old(dataBev).value.input
        invariant loop == old(loop).(disk := Append(old(loop.disk), file, written))
        decreases |dataBev.value.input|
      {
        var b := dataBev.value;
        var n :| 1 <= n <= |b.input|;
        assert b.input[..n] + b.input[n..] == b.input;
        AppendTwice(old(loop.disk), file, written, b.input[..n]);
        loop := loop.(disk := Append(loop.disk, file, b.input[..n]));
        dataBev := Some(b.(input := b.input[n..]));
        written := written + b.input[..n];
      }
      assert written + "" == written;
    }

    /** Between events an installed read callback has an open file to write to. */
    method OnStorRead()
      requires dataBev.Some? && uploadFd.File? && uploadFd.file in loop.disk.files
      modifies this
      ensures View() == Drain(old(View()))
    {
      DrainInput();
    }

    method OnEofEventCb()
      requires dataBev.Some? && dataEofEventCb == StorEof && uploadFd != Zero
      requires uploadFd.File? ==> uploadFd.file in loop.disk.files
      modifies this
      ensures View() == OnEof(old(View()))
    {
      if uploadFd != Closed {
        DrainInput();
        uploadFd := Closed;
        SendControlMessage(DATA_CONNECTION_CLOSING, "Transfer complete");
        return;
      }
      SendControlMessage(INSUFFICIENT_STORAGE, "An error occurred");
    }

    // -------------------------------------------------------------- RETR

    method ReadChunk(got: int) returns (n: int)
      requires dataStream.Some?
      ensures n == ReadCount(dataStream.value, Content(loop.disk, dataStream.value.file), got)
    {
      n := ReadCount(dataStream.value, Content(loop.disk, dataStream.value.file), got);
    }

    method SendNextChunkCb(got: int)
      requires dataStream.Some? && dataBev.Some?
      modifies this
      ensures View() == SendNextChunk(old(View()), got)
    {
      hide ReadCount, Content;
      var fs := dataStream.value;
      var n := ReadChunk(got);
      if fs.offset + n == fs.filesize {
        dataWriteCb := RetrDone;
      }
      if n <= 0 {
        dataStream := Some(fs.(open := false));
        return;
      }
      QueueChunk(n);
    }

    method QueueChunk(n: nat)
      requires dataStream.Some? && dataBev.Some?
      requires dataStream.value.offset + n <= |Content(loop.disk, dataStream.value.file)|
      modifies `dataBev, `dataStream
      ensures
        var fs := old(dataStream).value;
        var content := Content(loop.disk, fs.file);
        View() == Queue(old(View()), content[fs.offset..fs.offset + n]).(stream := Some(fs.(offset := fs.offset + n)))
    {
      var fs := dataStream.value;
      var buffer := Content(loop.disk, fs.file)[fs.offset..fs.offset + n];
      dataBev := Some(dataBev.value.(output := dataBev.value.output + buffer));
      dataStream := Some(fs.(offset := fs.offset + n));
    }

    method SendFileWithEvbuffer(site: Site, path: string, env: Env)
      requires dataTlsRequired
      modifies this
      ensures View() == Retr(old(View()), site, [path], env)
    {
      hide SendNextChunk, OpenForReading;
      if dataBev.None? {
        return;
      }
      var name := site.resolve(cwd, path);
      if !env.openOk || name !in loop.disk.names {
        return;
      }
      SendControlMessage(FILE_STATUS_OKAY, "Sending file");
      OpenDownload(loop.disk.names[name]);
      SendNextChunkCb(env.got);
    }

    method OpenDownload(file: nat)
      requires dataBev.Some?
      modifies `dataStream, `dataWriteCb
      ensures View() == OpenForReading(old(View()), file)
      ensures dataStream.Some?
    {
      var content := Content(loop.disk, file);
      dataStream := Some(Stream(file, 0, |content|, true, content, true, |dataBev.value.output|, true));
      dataWriteCb := NextChunk;
    }

    method SendFilePlain(site: Site, path: string, env: Env)
      requires !dataTlsRequired
      modifies this
      ensures View() == Retr(old(View()), site, [path], env)
    {
      hide Content;
      if dataBev.None? {
        return;
      }
      var name := site.resolve(cwd, path);
      if !env.openOk || name !in loop.disk.names {
        SendControlMessage(FILE_ACTION_NOT_TAKEN_PERM, "Failed to open file");
        return;
      }
      SendControlMessage(FILE_STATUS_OKAY, "Sending file");
      dataWriteCb := PlainDone;
      WriteOutput(Content(loop.disk, loop.disk.names[name]));
    }

    /** Other bytes behind a file under way: from now on the output is not that file alone. */
    method WriteOutput(bytes: Bytes)
      requires dataBev.Some?
      modifies `dataBev, `dataStream
      ensures View() == NotAlone(Queue(old(View()), bytes))
    {
      dataBev := Some(dataBev.value.(output := dataBev.value.output + bytes));
      if dataStream.Some? {
        dataStream := Some(dataStream.value.(alone := false));
      }
    }

    // -------------------------------------------------------------- LIST and NLST

    method ParseListFlags(args: seq<string>, description: bool) returns (r: Option<ListRequest>)
      ensures r == ParseList(args, description)
    {
      var all, human, recursive := false, false, false;
      var path: Option<string> := None;
      var i := 0;
      while i < |args|
        invariant 0 <= i <= |args|
        invariant all == ("-a" in args[..i]) && human == ("-h" in args[..i])
        invariant Operands(args[..i], LIST_OPTIONS) == if path.Some? then [path.value] else []
      {
        OperandsNext(args, i, LIST_OPTIONS);
        if args[i] == "-a" {
          all := true;
        } else if args[i] == "-h" {
          human := true;
        } else if args[i] == "-R" {
          recursive := true;
        } else if path.None? {
          path := Some(args[i]);
        } else {
          return None;
        }
        i := i + 1;
      }
      assert args[..i] == args;
      var target := if path.Some? && path.value != "" then path.value else ".";
      r := Some(ListRequest(target, description, all, human));
    }

    method SendListCommandOutput(listing: Bytes)
      requires dataBev.Some?
      modifies this
      ensures View() == SendListing(old(View()), listing)
    {
      hide Queue, NotAlone;
      if listing == "" {
        controlWriteCb := CloseData;
        dataTlsEventConnectedCb := CloseOnTls;
        SendControlMessage(DATA_CONNECTION_CLOSING, "Directory send OK");
        return;
      }
      dataWriteCb := ListDone;
      WriteOutput(listing);
    }

    method HandleListCommand(args: seq<string>, env: Env, description: bool)
      modifies this
      ensures View() == List(old(View()), args, env, description)
    {
      hide ParseList, SendListing, IsPathSafe;
      var parsed := ParseListFlags(args, description);
      if parsed.None? {
        controlWriteCb := CloseData;
        SendControlMessage(SYNTAX_ERROR_PARAMS, "Failed to parse parameters");
        return;
      }
      if dataBev.None? {
        SendControlMessage(CANNOT_OPEN_DATA, "Cannot open data connection");
        return;
      }
      var request := parsed.value;
      if !IsPathSafe(request.path) || !env.dirOk {
        controlWriteCb := CloseData;
        SendControlMessage(FILE_ACTION_NOT_TAKEN_PERM, "Invalid path");
        return;
      }
      SendOrPostponeListing(request, env.listing(cwd, request));
    }

    method SendOrPostponeListing(request: ListRequest, listing: Bytes)
      requires dataBev.Some?
      modifies this
      ensures View() == (
        if old(dataTlsRequired) then
          Say(old(View()).(saved := request, tlsCb := ListTls), FILE_STATUS_OKAY, "Here comes the directory listings")
        else
          SendListing(Say(old(View()), FILE_STATUS_OKAY, "Here comes the directory listings"), listing))
    {
      hide SendListing;
      if dataTlsRequired {
        listRequest := request;
        dataTlsEventConnectedCb := ListTls;
      }
      SendControlMessage(FILE_STATUS_OKAY, "Here comes the directory listings");
      if !dataTlsRequired {
        SendListCommandOutput(listing);
      }
    }

    // -------------------------------------------------------------- the other commands

    method UserAuthenticated(args: seq<string>, env: Env)
      modifies this
      ensures View() == User(old(View()), args, env)
    {
      if |args| != 1 {
        controlWriteCb := DisableControl;
        SendControlMessage(SYNTAX_ERROR_PARAMS, "Invalid syntax in parameters");
        return;
      }
      var found := UserExists(args[0], env);
      if found {
        SendControlMessage(USER_NAME_OK, "User name okay, need password");
      } else {
        SendControlMessage(NOT_LOGGED_IN, "User not found");
      }
    }

    /** Stores the name only when it names a user and does not begin with "root". */
    method UserExists(name: string, env: Env) returns (found: bool)
      modifies `username
      ensures found == (Prefix(name, 4) != "root" && env.userExists)
      ensures username == if found then Prefix(name, USERNAME_SIZE) else old(username)
    {
      found := Prefix(name, 4) != "root" && env.userExists;
      if found {
        username := Prefix(name, USERNAME_SIZE);
      }
    }

    method PassAuthenticated(args: seq<string>, env: Env)
      modifies this
      ensures View() == Pass(old(View()), args, env)
    {
      if |args| != 1 {
        controlWriteCb := DisableControl;
        SendControlMessage(SYNTAX_ERROR_PARAMS, "Invalid syntax in parameters");
        return;
      }
      if env.accepts(username, args[0]) {
        SendControlMessage(USER_LOGGED_IN, "User logged in");
        authenticated := true;
        cwd := "/";
        FreeTimeoutEvent();
      } else {
        SendControlMessage(NOT_LOGGED_IN, "Invalid credentials");
      }
    }

    method AuthTls(args: seq<string>)
      modifies this
      ensures View() == Auth(old(View()), args)
    {
      if |args| != 1 {
        SendControlMessage(SYNTAX_ERROR_PARAMS, "File path not provided");
      } else if args[0] == "TLS" {
        SendControlMessage(AUTH_TLS_OK, "AUTH TLS Success");
        upgradedToTls := true;
      } else {
        SendControlMessage(SYNTAX_ERROR_PARAMS, "Invalid parameter");
      }
    }

    method ProtCommand(args: seq<string>)
      modifies this
      ensures View() == Prot(old(View()), args)
    {
      if |args| != 1 {
        SendControlMessage(SYNTAX_ERROR_PARAMS, "File path not provided");
      } else if args[0] == "P" {
        dataTlsRequired := true;
        SendControlMessage(COMMAND_OK, "PROT now Private");
      } else {
        SendControlMessage(NOT_IMPLEMENTED, "Unsupported PROT level");
      }
    }

    method TypeCommand(args: seq<string>)
      modifies this
      ensures View() == SetType(old(View()), args)
    {
      if |args| != 1 {
        SendControlMessage(SYNTAX_ERROR_PARAMS, "File path not provided");
      } else if args[0] == "I" {
        transferMode := Binary;
        SendControlMessage(COMMAND_OK, "Type set to I");
      } else if args[0] == "A" {
        transferMode := Ascii;
        SendControlMessage(COMMAND_OK, "Type set to A");
      } else {
        SendControlMessage(UNSUPPORTED_TYPE, "Unsupported type");
      }
    }

    method AborCommand()
      modifies this
      ensures View() == Abor(old(View()))
    {
      if dataActive != 0 {
        CloseDataConnection();
        SendControlMessage(ACTION_ABORTED, "closed data connection; tansfer aborted");
      } else {
        controlWriteCb := CloseData;
        SendControlMessage(DATA_CONNECTION_CLOSING, "No transfer in progress");
      }
    }

    method StorCommand(site: Site, args: seq<string>, env: Env)
      modifies this
      ensures View() == Stor(old(View()), site, args, env)
    {
      if |args| != 1 {
        SendControlMessage(SYNTAX_ERROR_PARAMS, "File path not provided");
        return;
      }
      assert args == [args[0]];
      RecvFile(site, args[0], env);
    }

    method RetrCommand(site: Site, args: seq<string>, env: Env)
      modifies this
      ensures View() == Retr(old(View()), site, args, env)
    {
      if |args| != 1 {
        SendControlMessage(SYNTAX_ERROR_PARAMS, "File path not provided");
        return;
      }
      assert args == [args[0]];
      if dataTlsRequired {
        SendFileWithEvbuffer(site, args[0], env);
      } else {
        SendFilePlain(site, args[0], env);
      }
    }

    // -------------------------------------------------------------- events

    /** What the installed callback of a handshake does. */
    method TlsConnectedCb(listing: Lister)
      requires dataBev.Some?
      modifies this
      ensures View() == match old(dataTlsEventConnectedCb)
        case NoTls => old(View())
        case StorTls => old(View()).(readCb := StorRead)
        case ListTls => SendListing(old(View()), listing(old(cwd), old(listRequest)))
        case CloseOnTls => Close(old(View()))
    {
      hide SendListing, Close;
      match dataTlsEventConnectedCb
      case NoTls =>
      case StorTls => dataReadCb := StorRead;
      case ListTls => SendListCommandOutput(listing(cwd, listRequest));
      case CloseOnTls => CloseDataConnection();
    }

    method DataConnected(listing: Lister)
      requires dataBev.Some?
      modifies this
      ensures View() == OnConnected(old(View()), listing)
    {
      hide SendListing, Close;
      dataActive := dataActive + 1;
      dataBev := Some(dataBev.value.(handshaken := true));
      if dataTlsRequired {
        TlsConnectedCb(listing);
      }
    }

    /** Several things can be reported at once. */
    method DataConnectionEventCb(connected: bool, timeout: bool, error: bool, eof: bool,
                                 listing: Lister)
      requires Inv(View()) && dataBev.Some?
      requires connected ==> dataBev.value.tls && !dataBev.value.handshaken
      modifies this
      ensures View() == OnDataEvent(old(View()), connected, timeout, error, eof, listing)
    {
      hide Inv, OnConnected, Close;
      if connected {
        ConnectedInv(View(), listing);
        DataConnected(listing);
      }
      if eof {
        StorReady(View());
        if dataEofEventCb == StorEof {
          OnEofEventCb();
        }
      }
      if eof || error || timeout {
        CloseDataConnection();
      }
    }

    method DataConnectionReadCb()
      requires Inv(View()) && dataBev.Some?
      modifies this
      ensures View() == OnDataRead(old(View()))
    {
      StorReady(View());
      if dataReadCb == StorRead {
        OnStorRead();
      }
    }

    method DataConnectionWriteCb(drained: bool, got: int)
      requires Inv(View()) && dataBev.Some?
      modifies this
      ensures View() == OnDataWrite(old(View()), drained, got)
    {
      hide SendNextChunk, Inv;
      StreamReady(View());
      match dataWriteCb
      case NoWrite =>
      case NextChunk => SendNextChunkCb(got);
      case PlainDone =>
        if drained {
          Complete("Transfer complete");
        }
      case RetrDone => Complete("Transfer complete");
      case ListDone => Complete("Directory send OK");
    }

    /** A transfer is over: the data connection is closed once the reply has been written. */
    method Complete(text: string)
      modifies this
      ensures View() == Say(old(View()).(controlCb := CloseData), DATA_CONNECTION_CLOSING, text)
    {
      controlWriteCb := CloseData;
      SendControlMessage(DATA_CONNECTION_CLOSING, text);
    }

    method DisableConnectionCb()
      modifies `loop
      ensures View() == OnControlGone(old(View()))
    {
      loop := loop.(closed := true);
    }

    /** The callback runs once. */
    method OnWrite()
      modifies this
      ensures View() == OnControlWritten(old(View()))
    {
      hide Close;
      match controlWriteCb {
        case NoControl =>
        case CloseData => CloseDataConnection();
        case DisableControl => DisableConnectionCb();
      }
      controlWriteCb := NoControl;
    }

    method TimerFired(id: nat)
      modifies this
      ensures View() == OnTimer(old(View()), id)
    {
      hide DropListener;
      loop := loop.(armed := loop.armed - {id});
      if id == AUTH_TIMER {
        controlWriteCb := DisableControl;
        SendControlMessage(SERVICE_NOT_AVAILABLE, "Control connection timed out !");
      } else {
        FreeListener();
      }
    }

    method SegmentArrives(bytes: Bytes)
      requires dataBev.Some?
      modifies `dataBev
      ensures View() == OnSegment(old(View()), bytes)
    {
      var b := dataBev.value;
      dataBev := Some(b.(received := b.received + bytes, input := b.input + bytes));
    }

    method CwdCommand(site: Site, args: seq<string>, env: Env)
      modifies this
      ensures View() == Cwd(old(View()), site, args, env)
    {
      hide IsPathSafe;
      if |args| != 1 {
        SendControlMessage(SYNTAX_ERROR_PARAMS, "Invalid syntax in parameters");
      } else if args[0] == "" {
        SendControlMessage(SYNTAX_ERROR_PARAMS, "Path not provided");
      } else if !IsPathSafe(args[0]) {
        SendControlMessage(FILE_ACTION_NOT_TAKEN_PERM, "Invalid path");
      } else if !env.dirOk {
        SendControlMessage(FILE_ACTION_NOT_TAKEN_PERM, "Not a directory.");
      } else {
        cwd := site.enter(cwd, args[0]);
        SendControlMessage(FILE_ACTION_OK, "Directory successfully changed.");
      }
    }

    method DeleCommand(env: Env)
      modifies `loop
      ensures View() == Dele(old(View()), env)
    {
      loop := loop.(disk := Unlink(loop.disk, env.removed));
      FileCommand(env);
    }

    /** SIZE, MDTM, PWD, MKD and RMD as far as the record goes. */
    method FileCommand(env: Env)
      modifies `loop
      ensures View() == FileReply(old(View()), env)
    {
      var codes := {FILE_STATUS, FILE_ACTION_OK, PATHNAME_CREATED, SYNTAX_ERROR_PARAMS, FILE_NAME_NOT_ALLOWED};
      SendControlMessage(if env.fileReply in codes then env.fileReply else FILE_ACTION_NOT_TAKEN_PERM, "");
    }

    method Call(site: Site, handler: Handler, args: seq<string>, env: Env)
      requires InWord(site.range) && ScanEnds(site.range, env.free)
      modifies this
      ensures View() == OnCommand(old(View()), site, handler, args, env)
    {
      hide User, Pass, Auth, Prot, SetType, Abor, ListenerConfig, Stor, Retr, List, FileReply, Cwd, Dele, Say;
      match handler
      case UserAction => UserAuthenticated(args, env);
      case PassAction => PassAuthenticated(args, env);
      case AuthAction => AuthTls(args);
      case ProtAction => ProtCommand(args);
      case TypeAction => TypeCommand(args);
      case AborAction => AborCommand();
      case EpsvAction => DataConnectionListenerConfig(site, env, true);
      case PasvAction => DataConnectionListenerConfig(site, env, false);
      case StorAction => StorCommand(site, args, env);
      case RetrAction => RetrCommand(site, args, env);
      case CwdAction => CwdCommand(site, args, env);
      case DeleAction => DeleCommand(env);
      case ListAction => HandleListCommand(args, env, true);
      case NlstAction => HandleListCommand(args, env, false);
      case SystAction => SendControlMessage(SYSTEM_TYPE, "UNIX Type: L8");
      case QuitAction => SendControlMessage(SERVICE_CLOSING, "Goodbye");
      case PbszAction => SendControlMessage(COMMAND_OK, "PBSZ=0");
      case NoopAction => SendControlMessage(COMMAND_OK, "NOOP command successful");
      case FeatAction => SendControlMessage(0, FEATURES);
      case NonAuthenticated => SendControlMessage(NOT_LOGGED_IN, "Not logged in");
      case AlreadyAuthenticated => SendControlMessage(USER_LOGGED_IN, "Already logged in");
      case InvalidAction => SendControlMessage(NOT_IMPLEMENTED, "Unknown command");
      case SizeAction | MdtmAction | PwdAction | MkdAction | RmdAction => FileCommand(env);
    }

    /** One line: parsed, looked up in the hash table of commands, and run. */
    method OnRead(registry: HashTable<Callbacks>, site: Site, input: string, env: Env)
      requires Registered(registry, COMMAND_ACTIONS)
      requires InWord(site.range) && ScanEnds(site.range, env.free)
      modifies this
      ensures View() == Step(old(View()), site, Line(input, env))
    {
      hide OnCommand, Select, Parse, Registered, COMMAND_ACTIONS, ScanEnds;
      var handler, cmd := ExecuteFtpCommand(registry, input, authenticated);
      Call(site, handler, cmd.args, env);
    }

    /** One turn of the event loop. */
    method Dispatch(registry: HashTable<Callbacks>, site: Site, e: Event)
      requires Registered(registry, COMMAND_ACTIONS)
      requires InWord(site.range) && Inv(View()) && Enabled(View(), site, e)
      modifies this
      ensures View() == Step(old(View()), site, e) && Inv(View())
    {
      hide Inv, Registered, COMMAND_ACTIONS, ScanEnds, OnCommand, Select, Parse;
      hide OnAccept, OnSegment, OnDataEvent, OnDataRead, OnDataWrite, OnControlWritten, OnControlGone, OnTimer;
      StepInv(View(), site, e);
      match e
      case Line(input, env) => OnRead(registry, site, input, env);
      case Accept(peer, created) =>
        ListenerReady(View());
        DataConnectionAcceptCb(site, peer, created);
      case Segment(bytes) => SegmentArrives(bytes);
      case DataEvent(connected, timeout, error, eof, listing) =>
        DataConnectionEventCb(connected, timeout, error, eof, listing);
      case DataRead => DataConnectionReadCb();
      case DataWrite(drained, got) => DataConnectionWriteCb(drained, got);
      case ControlWritten => OnWrite();
      case ControlGone => DisableConnectionCb();
      case TimerFires(id) => TimerFired(id);
    }

    /** The event loop: whatever comes, the object ends up in the state the run of the session leads
        to, and every turn keeps the invariant. */
    method DispatchAll(registry: HashTable<Callbacks>, site: Site, events: seq<Event>)
      requires Registered(registry, COMMAND_ACTIONS)
      requires InWord(site.range) && Inv(View()) && RunEnabled(View(), site, events)
      modifies this
      ensures View() == Run(old(View()), site, events) && Inv(View())
    {
      hide Inv, Registered, COMMAND_ACTIONS, Enabled, Step;
      ghost var start := View();
      var i := 0;
      while i < |events|
        invariant 0 <= i <= |events|
        invariant Registered(registry, COMMAND_ACTIONS)
        invariant Inv(View()) && View() == Run(start, site, events[..i])
      {
        RunSplit(start, site, events, i);
        Dispatch(registry, site, events[i]);
        i := i + 1;
      }
      assert events[..i] == events;
    }
  }

  /** What the invariant gives the callbacks: an upload has an open file, and without a data connection
      there is none. */
  lemma StorReady(s: State)
    requires Inv(s)
    ensures s.readCb == StorRead ==> s.eofCb == StorEof
    ensures s.eofCb == StorEof ==> s.bev.Some? && s.uploadFd.File? && s.uploadFd.file in s.w.disk.files
  {
    hide LoopOk, LoginOk, RetrOk, DiskOk;
  }

  lemma AppendNothing(d: Disk, file: nat)
    requires file in d.files
    ensures Append(d, file, "") == d
  {
    assert d.files[file] + "" == d.files[file];
    assert d.files[file := d.files[file]] == d.files;
  }

  lemma AppendTwice(d: Disk, file: nat, a: Bytes, b: Bytes)
    ensures Append(Append(d, file, a), file, b) == Append(d, file, a + b)
  {
    assert Content(d, file) + a + b == Content(d, file) + (a + b);
  }

  lemma StreamReady(s: State)
    requires Inv(s)
    ensures s.writeCb == NextChunk ==> s.stream.Some?
  {
    hide LoopOk, LoginOk, DataOk, StorOk, DiskOk;
  }

  lemma ListenerReady(s: State)
    requires Inv(s) && s.w.listeners != {}
    ensures s.listener.Some?
  {
    hide LoginOk, DataOk, StorOk, RetrOk, DiskOk;
  }

  /** A server process from the accept of the control connection on. */
  method Serve(site: Site, disk: Disk, events: seq<Event>) returns (connection: Connection)
    requires InWord(site.range) && Sound(disk) && RunEnabled(Init(disk), site, events)
    ensures fresh(connection)
    ensures connection.View() == Run(Init(disk), site, events) && Inv(connection.View())
  {
    hide Inv, Registered, COMMAND_ACTIONS, Enabled, Step, Run, RunEnabled;
    var registry := InitializeExecutionEngine();
    connection := new Connection(disk);
    InitInv(disk);
    connection.DispatchAll(registry, site, events);
  }
}
