/** What every reachable state of a session satisfies, whatever the order of commands and events. */
module SessionInvariant {
  import opened Options
  import opened CommandOptions
  import opened CommandParser
  import opened CommandWords
  import opened Disks
  import opened Dispatch
  import opened PassiveMode
  import opened Replies
  import opened Session

  // ---------------------------------------------------------------- the invariant

  ghost predicate NoDuplicates(s: seq<nat>) {
    forall i, j :: 0 <= i < j < |s| ==> s[i] != s[j]
  }

  /** One listener at most, the one pointed to; timers are released once and not used again; the timer
      pointed to is live as long as its release may still come. */
  ghost predicate LoopOk(listener: Option<nat>, timer: nat, listeners: set<nat>, armed: set<nat>,
                         timers: set<nat>, released: seq<nat>, nextId: nat) {
    && listeners == (if listener.Some? then {listener.value} else {})
    && armed <= timers
    && NoDuplicates(released)
    && (forall t :: t in timers ==> t < nextId && t !in released)
    && (forall t :: t in released ==> t < nextId)
    && nextId > AUTH_TIMER
    && (listener.Some? ==> timer in timers)
  }

  /** Before login only the authentication timer exists and nothing is open; login releases that timer; a name
      never begins with "root". A data connection's number has been given out. */
  ghost predicate LoginOk(authenticated: bool, username: string, listener: Option<nat>, bev: Option<Bev>,
                          timer: nat, timers: set<nat>, released: seq<nat>, nextId: nat) {
    && (bev.Some? ==> bev.value.id < nextId)
    && (!authenticated ==>
         listener.None? && bev.None? && timer == AUTH_TIMER && AUTH_TIMER in timers)
    && (authenticated ==> AUTH_TIMER in released)
    && Prefix(username, 4) != "root"
  }

  /** Without a data connection no data callback is installed; with one, `data_active` tells whether it
      is ready. The handshake callback that closes the connection is installed only when no handshake is to come. */
  ghost predicate DataOk(bev: Option<Bev>, readCb: ReadCb, writeCb: WriteCb, tlsCb: TlsCb, eofCb: EofCb,
                         stream: Option<Stream>, dataActive: nat, tlsRequired: bool) {
    match bev
    case None =>
      readCb == NoRead && writeCb == NoWrite && tlsCb == NoTls && eofCb == NoEof
      && stream.None? && dataActive == 0
    case Some(b) =>
      && dataActive == (if !b.tls || b.handshaken then 1 else 0) && (b.tls ==> tlsRequired)
      && (tlsCb == CloseOnTls ==> dataActive == 1)
  }

  /** Bytes received leave the buffer in order and only for a STOR, and the file being stored is what
      was taken since its STOR. */
  ghost predicate StorOk(bev: Option<Bev>, readCb: ReadCb, tlsCb: TlsCb, eofCb: EofCb, uploadFd: UploadFd,
                         storBase: nat, files: map<nat, Bytes>) {
    && (readCb == StorRead || tlsCb == StorTls ==> eofCb == StorEof)
    && (eofCb == StorEof ==> uploadFd.File? && uploadFd.file in files)
    && match bev
       case None => true
       case Some(b) =>
         && |b.input| <= |b.received| && b.input == b.received[Taken(b)..]
         && (eofCb == NoEof ==> Taken(b) == 0)
         && (eofCb == StorEof ==>
              storBase <= Taken(b) && files[uploadFd.file] == b.received[storBase..Taken(b)])
  }

  /** As long as the file under way is what it was when it was opened, the chunks handed over are its
      beginning, and the completion callback waits for the last one. */
  ghost predicate RetrOk(bev: Option<Bev>, writeCb: WriteCb, stream: Option<Stream>, files: map<nat, Bytes>) {
    match stream
    case None => writeCb != NextChunk && writeCb != RetrDone
    case Some(fs) =>
      && fs.filesize == |fs.source|
      && (fs.intact ==>
           && fs.file in files && files[fs.file] == fs.source && fs.offset <= fs.filesize
           && (writeCb == RetrDone ==> fs.offset == fs.filesize)
           && (fs.alone && bev.Some? ==>
                (fs.base <= |bev.value.output| && bev.value.output[fs.base..] == fs.source[..fs.offset])))
  }

  /** File numbers are handed out once, and open files have one. */
  ghost predicate DiskOk(disk: Disk, uploadFd: UploadFd, stream: Option<Stream>) {
    && Sound(disk)
    && (uploadFd.File? ==> uploadFd.file < disk.next)
    && (stream.Some? ==> stream.value.file < disk.next)
  }

  ghost predicate Inv(s: State) {
    && LoopOk(s.listener, s.timer, s.w.listeners, s.w.armed, s.w.timers, s.w.released, s.w.nextId)
    && LoginOk(s.authenticated, s.username, s.listener, s.bev, s.timer, s.w.timers, s.w.released, s.w.nextId)
    && DataOk(s.bev, s.readCb, s.writeCb, s.tlsCb, s.eofCb, s.stream, s.dataActive, s.tlsRequired)
    && StorOk(s.bev, s.readCb, s.tlsCb, s.eofCb, s.uploadFd, s.storBase, s.w.disk.files)
    && RetrOk(s.bev, s.writeCb, s.stream, s.w.disk.files)
    && DiskOk(s.w.disk, s.uploadFd, s.stream)
  }

  /** No data connection, so no data callback, no file under way, and the active flag down. */
  ghost predicate NoDataConnection(s: State) {
    && s.bev.None? && s.stream.None? && s.dataActive == 0
    && s.readCb == NoRead && s.writeCb == NoWrite && s.tlsCb == NoTls && s.eofCb == NoEof
  }

  lemma InitInv(disk: Disk)
    requires Sound(disk)
    ensures Inv(Init(disk))
  {
  }

  // ---------------------------------------------------------------- small steps

  lemma SayInv(s: State, code: nat, text: string)
    requires Inv(s)
    ensures Inv(Say(s, code, text))
  {
    hide LoopOk, LoginOk, DataOk, StorOk, RetrOk, DiskOk;
  }

  lemma ControlInv(s: State, cb: ControlCb)
    requires Inv(s)
    ensures Inv(s.(controlCb := cb))
  {
    hide LoopOk, LoginOk, DataOk, StorOk, RetrOk, DiskOk;
  }

  lemma ReplyInv(s: State, cb: ControlCb, code: nat, text: string)
    requires Inv(s)
    ensures Inv(Say(s.(controlCb := cb), code, text))
  {
    hide *;
    ControlInv(s, cb);
    SayInv(s.(controlCb := cb), code, text);
  }

  lemma CloseInv(s: State)
    requires Inv(s)
    ensures Inv(Close(s)) && NoDataConnection(Close(s)) && Close(s).uploadFd == Closed && Close(s).w == s.w
  {
    hide LoopOk;
  }

  lemma DropListenerInv(s: State)
    requires Inv(s)
    ensures Inv(DropListener(s)) && DropListener(s).listener.None?
  {
    hide DataOk, StorOk, RetrOk, DiskOk;
  }

  /** Releasing the timer pointed to, once nothing needs it any more; logging in is one reason. */
  lemma ReleaseInv(s: State, cwd: string)
    requires Inv(s) && s.listener.None? && s.timer in s.w.timers
    ensures s.authenticated ==> Inv(Release(s, s.timer))
    ensures !s.authenticated ==> Inv(Release(s.(authenticated := true, cwd := cwd), s.timer))
  {
    hide DataOk, StorOk, RetrOk, DiskOk;
    forall i, j | 0 <= i < j < |s.w.released + [s.timer]|
      ensures (s.w.released + [s.timer])[i] != (s.w.released + [s.timer])[j]
    {
      assert j == |s.w.released| ==> s.w.released[i] in s.w.released;
    }
  }

  lemma DrainInv(s: State)
    requires Inv(s) && s.bev.Some? && s.eofCb == StorEof
    ensures Inv(Drain(s)) && Drain(s).bev.Some?
    ensures var b := Drain(s).bev.value;
      b.input == "" && b.received == s.bev.value.received && Taken(b) == |b.received|
  {
    hide LoopOk, RetrOk, DiskOk;
    var b := s.bev.value;
    var taken := Taken(b);
    assert b.received[s.storBase..taken] + b.input == b.received[s.storBase..];
    assert b.received[|b.received|..] == "";
    assert b.received[s.storBase..|b.received|] == b.received[s.storBase..];
    DrainRetrOk(s);
    DrainDiskOk(s);
  }

  lemma DrainRetrOk(s: State)
    requires s.bev.Some? && RetrOk(s.bev, s.writeCb, s.stream, s.w.disk.files)
    ensures RetrOk(Drain(s).bev, s.writeCb, Drain(s).stream, Drain(s).w.disk.files)
  {
  }

  lemma DrainDiskOk(s: State)
    requires DiskOk(s.w.disk, s.uploadFd, s.stream) && (s.uploadFd.File? ==> s.uploadFd.file in s.w.disk.files)
    ensures DiskOk(Drain(s).w.disk, s.uploadFd, Drain(s).stream)
  {
  }

  /** Output does not matter to the other parts of the invariant. */
  lemma OutputElsewhere(s: State, b: Bev)
    requires Inv(s) && s.bev.Some? && b == s.bev.value.(output := b.output)
    ensures LoginOk(s.authenticated, s.username, s.listener, Some(b), s.timer, s.w.timers, s.w.released, s.w.nextId)
    ensures StorOk(Some(b), s.readCb, s.tlsCb, s.eofCb, s.uploadFd, s.storBase, s.w.disk.files)
  {
    hide LoopOk, RetrOk, DiskOk, DataOk;
  }

  lemma NextChunkOk(b: Bev, fs: Stream, content: Bytes, n: nat, files: map<nat, Bytes>)
    requires RetrOk(Some(b), NextChunk, Some(fs), files)
    requires content == (if fs.file in files then files[fs.file] else "")
    requires 0 < n && fs.offset + n <= |content|
    ensures RetrOk(Some(b.(output := b.output + content[fs.offset..fs.offset + n])),
      if fs.offset + n == fs.filesize then RetrDone else NextChunk, Some(fs.(offset := fs.offset + n)), files)
  {
    var chunk := content[fs.offset..fs.offset + n];
    if fs.intact {
      assert fs.source[..fs.offset] + chunk == fs.source[..fs.offset + n];
      if fs.alone {
        assert (b.output + chunk)[fs.base..] == b.output[fs.base..] + chunk;
      }
    }
  }

  lemma ReadFailedOk(b: Bev, fs: Stream, n: int, files: map<nat, Bytes>)
    requires RetrOk(Some(b), NextChunk, Some(fs), files) && -1 <= n <= 0
    ensures RetrOk(Some(b), if fs.offset + n == fs.filesize then RetrDone else NextChunk,
      Some(fs.(open := false)), files)
  {
  }

  lemma SendNextChunkInv(s: State, got: int)
    requires Inv(s) && s.bev.Some? && s.stream.Some? && s.writeCb == NextChunk
    ensures Inv(SendNextChunk(s, got))
  {
    hide LoopOk, LoginOk, StorOk, RetrOk, ReadCount;
    var b, fs, content := s.bev.value, s.stream.value, Content(s.w.disk, s.stream.value.file);
    var n := ReadCount(fs, content, got);
    if n > 0 {
      NextChunkOk(b, fs, content, n, s.w.disk.files);
      OutputElsewhere(s, b.(output := b.output + content[fs.offset..fs.offset + n]));
    } else {
      ReadFailedOk(b, fs, n, s.w.disk.files);
    }
  }

  lemma QueueInv(s: State, bytes: Bytes)
    requires Inv(s)
    ensures Inv(NotAlone(Queue(s, bytes)))
  {
    hide LoopOk, LoginOk, StorOk;
    if s.bev.Some? {
      OutputElsewhere(s, s.bev.value.(output := s.bev.value.output + bytes));
    }
  }

  lemma WriteCbInv(s: State, cb: WriteCb)
    requires Inv(s) && s.bev.Some? && cb != NextChunk && cb != RetrDone
    ensures Inv(s.(writeCb := cb))
  {
    hide LoopOk, LoginOk, StorOk;
  }

  lemma SendListingInv(s: State, listing: Bytes)
    requires Inv(s) && s.bev.Some? && s.dataActive == 1
    ensures Inv(SendListing(s, listing))
  {
    hide LoopOk, LoginOk, RetrOk, DiskOk;
    if listing == "" {
      SayInv(s.(controlCb := CloseData, tlsCb := CloseOnTls), DATA_CONNECTION_CLOSING, "Directory send OK");
    } else {
      WriteCbInv(s, ListDone);
      QueueInv(s.(writeCb := ListDone), listing);
    }
  }

  // ---------------------------------------------------------------- who may do what

  predicate AllowedFor(h: Handler, authenticated: bool) {
    OpenHandler(h) ||
    if authenticated then h != UserAction && h != PassAction && h != NonAuthenticated
    else h == UserAction || h == PassAction || h == NonAuthenticated
  }

  /** The command table never hands an unauthenticated client to an action that needs a login, nor an
      authenticated one to USER or PASS. */
  lemma SelectRespectsLogin(name: string, authenticated: bool)
    ensures AllowedFor(Select(name, authenticated), authenticated)
  {
    hide Select, ActionOf;
    SelectExactly(name, authenticated);
    ActionWord(name);
  }

  // ---------------------------------------------------------------- commands

  lemma UserInv(s: State, args: seq<string>, env: Env)
    requires Inv(s)
    ensures Inv(User(s, args, env))
  {
    hide LoopOk, DataOk, StorOk, RetrOk, DiskOk;
    if |args| == 1 {
      var name := Prefix(args[0], USERNAME_SIZE);
      assert Prefix(name, 4) == Prefix(args[0], 4);
    }
  }

  lemma PassReady(s: State)
    requires Inv(s) && !s.authenticated
    ensures s.listener.None? && s.timer in s.w.timers
  {
    hide LoopOk, DataOk, StorOk, RetrOk, DiskOk;
  }

  lemma PassInv(s: State, args: seq<string>, env: Env)
    requires Inv(s) && !s.authenticated
    ensures Inv(Pass(s, args, env))
  {
    hide LoopOk, DataOk, StorOk, RetrOk, DiskOk;
    SayInv(s, USER_LOGGED_IN, "User logged in");
    ReplyInv(s, DisableControl, SYNTAX_ERROR_PARAMS, "Invalid syntax in parameters");
    SayInv(s, NOT_LOGGED_IN, "Invalid credentials");
    PassReady(s);
    ReleaseInv(Say(s, USER_LOGGED_IN, "User logged in"), "/");
  }

  /** Flags the invariant does not constrain; the TLS requirement can only be raised. */
  lemma FlagsInv(s: State, mode: TransferMode, upgraded: bool, tlsRequired: bool)
    requires Inv(s) && (s.tlsRequired ==> tlsRequired)
    ensures Inv(s.(mode := mode, upgraded := upgraded, tlsRequired := tlsRequired))
  {
    hide LoopOk, LoginOk, StorOk, RetrOk, DiskOk;
  }

  lemma ProtInv(s: State, args: seq<string>)
    requires Inv(s)
    ensures Inv(Prot(s, args))
  {
    hide Inv, Say;
    FlagsInv(s, s.mode, s.upgraded, true);
    SayInv(s.(tlsRequired := true), COMMAND_OK, "PROT now Private");
    SayInv(s, SYNTAX_ERROR_PARAMS, "File path not provided");
    SayInv(s, NOT_IMPLEMENTED, "Unsupported PROT level");
  }

  lemma AuthInv(s: State, args: seq<string>)
    requires Inv(s)
    ensures Inv(Auth(s, args))
  {
    hide Inv, Say;
    var t := Say(s, AUTH_TLS_OK, "AUTH TLS Success");
    SayInv(s, AUTH_TLS_OK, "AUTH TLS Success");
    FlagsInv(t, t.mode, true, t.tlsRequired);
    SayInv(s, SYNTAX_ERROR_PARAMS, "File path not provided");
    SayInv(s, SYNTAX_ERROR_PARAMS, "Invalid parameter");
  }

  lemma TypeInv(s: State, args: seq<string>)
    requires Inv(s)
    ensures Inv(SetType(s, args))
  {
    hide Inv, Say;
    FlagsInv(s, Binary, s.upgraded, s.tlsRequired);
    FlagsInv(s, Ascii, s.upgraded, s.tlsRequired);
    SayInv(s.(mode := Binary), COMMAND_OK, "Type set to I");
    SayInv(s.(mode := Ascii), COMMAND_OK, "Type set to A");
    SayInv(s, SYNTAX_ERROR_PARAMS, "File path not provided");
    SayInv(s, UNSUPPORTED_TYPE, "Unsupported type");
  }

  lemma FileReplyInv(s: State, env: Env)
    requires Inv(s)
    ensures Inv(FileReply(s, env))
  {
    hide Inv, Say;
    SayInv(s, env.fileReply, "");
    SayInv(s, FILE_ACTION_NOT_TAKEN_PERM, "");
  }

  lemma CwdInv(s: State, site: Site, args: seq<string>, env: Env)
    requires Inv(s)
    ensures Inv(Cwd(s, site, args, env))
  {
    hide Inv, Say, IsPathSafe;
    SayInv(s, SYNTAX_ERROR_PARAMS, "Invalid syntax in parameters");
    SayInv(s, SYNTAX_ERROR_PARAMS, "Path not provided");
    SayInv(s, FILE_ACTION_NOT_TAKEN_PERM, "Invalid path");
    SayInv(s, FILE_ACTION_NOT_TAKEN_PERM, "Not a directory.");
    if |args| == 1 {
      CwdAlone(s, site.enter(s.cwd, args[0]));
      SayInv(s.(cwd := site.enter(s.cwd, args[0])), FILE_ACTION_OK, "Directory successfully changed.");
    }
  }

  lemma CwdAlone(s: State, cwd: string)
    requires Inv(s)
    ensures Inv(s.(cwd := cwd))
  {
    hide LoopOk, LoginOk, DataOk, StorOk, RetrOk, DiskOk;
  }

  lemma DeleInv(s: State, env: Env)
    requires Inv(s)
    ensures Inv(Dele(s, env))
  {
    hide FileReply;
    var t := s.(w := s.w.(disk := Unlink(s.w.disk, env.removed)));
    assert Inv(t) by {
      hide LoopOk, LoginOk, DataOk, StorOk, RetrOk;
    }
    FileReplyInv(t, env);
  }

  lemma ListeningInv(s: State, site: Site, port: nat, ephemeral: nat, extended: bool)
    requires Inv(s) && s.authenticated && s.listener.None?
    ensures Inv(Listening(s, site, port, ephemeral, extended))
  {
    hide DataOk, StorOk, RetrOk, DiskOk, PassiveReply;
  }

  lemma ListenerConfigInv(s: State, site: Site, env: Env, extended: bool)
    requires Inv(s) && s.authenticated
    ensures Inv(ListenerConfig(s, site, env, extended))
  {
    hide LoopOk, LoginOk, DataOk, StorOk, RetrOk, DiskOk, Listening, PassivePort;
    DropListenerInv(s);
    var t := DropListener(s);
    assert t.authenticated;
    match PassivePort(site.range, env.free)
    case Some(port) => ListeningInv(t, site, port, env.ephemeral, extended);
    case None =>
  }

  lemma StorInv(s: State, site: Site, args: seq<string>, env: Env)
    requires Inv(s)
    ensures Inv(Stor(s, site, args, env))
  {
    hide Inv, OpenForWriting;
    ReplyInv(s, CloseData, FILE_ACTION_NOT_TAKEN_PERM, "Failed to open file for writing");
    SayInv(s, SYNTAX_ERROR_PARAMS, "File path not provided");
    SayInv(s, CANNOT_OPEN_DATA, "Cannot open data connection");
    if |args| == 1 && s.bev.Some? && env.openOk {
      var name := site.resolve(s.cwd, args[0]);
      OpenForWritingInv(s, name);
      var t := OpenForWriting(s, name);
      StorCallbackInv(t, if s.tlsRequired then t.(tlsCb := StorTls) else t.(readCb := StorRead));
      SayInv(if s.tlsRequired then t.(tlsCb := StorTls) else t.(readCb := StorRead),
        FILE_STATUS_OKAY, "Read to receive");
    }
  }

  lemma OpenForWritingInv(s: State, name: string)
    requires Inv(s) && s.bev.Some?
    ensures Inv(OpenForWriting(s, name)) && OpenForWriting(s, name).bev == s.bev
    ensures OpenForWriting(s, name).eofCb == StorEof
  {
    hide LoopOk, LoginOk, RetrOk, DiskOk;
    var b := s.bev.value;
    assert b.received[Taken(b)..Taken(b)] == "";
    WrittenRetrOk(s, name);
    CreateDiskOk(s, name);
  }

  lemma WrittenRetrOk(s: State, name: string)
    requires RetrOk(s.bev, s.writeCb, s.stream, s.w.disk.files)
    ensures var file := Target(s.w.disk, name);
      RetrOk(s.bev, s.writeCb, Written(s.stream, file), Create(s.w.disk, name).files)
  {
  }

  lemma CreateDiskOk(s: State, name: string)
    requires DiskOk(s.w.disk, s.uploadFd, s.stream)
    ensures var file := Target(s.w.disk, name);
      DiskOk(Create(s.w.disk, name), File(file), Written(s.stream, file))
  {
  }

  /** The callback that reads an upload may be installed once there is an upload. */
  lemma StorCallbackInv(s: State, t: State)
    requires Inv(s) && s.bev.Some? && s.eofCb == StorEof
    requires t == s.(tlsCb := StorTls) || t == s.(readCb := StorRead)
    ensures Inv(t)
  {
    hide LoopOk, LoginOk, RetrOk, DiskOk;
  }

  lemma OpenForReadingInv(s: State, file: nat)
    requires Inv(s) && s.bev.Some? && file in s.w.disk.files
    ensures var t := OpenForReading(s, file);
      Inv(t) && t.bev.Some? && t.stream.Some? && t.writeCb == NextChunk
  {
    hide LoopOk, LoginOk, StorOk;
    var content := s.w.disk.files[file];
    assert s.bev.value.output[|s.bev.value.output|..] == "" == content[..0];
  }

  lemma NamesLead(s: State, name: string)
    requires Inv(s) && name in s.w.disk.names
    ensures s.w.disk.names[name] in s.w.disk.files
  {
    hide LoopOk, LoginOk, DataOk, StorOk, RetrOk;
  }

  lemma RetrInv(s: State, site: Site, args: seq<string>, env: Env)
    requires Inv(s)
    ensures Inv(Retr(s, site, args, env))
  {
    hide LoopOk, LoginOk, StorOk, RetrOk, DiskOk, SendNextChunk, OpenForReading, Queue, NotAlone;
    if |args| == 1 && s.bev.Some? && env.openOk && site.resolve(s.cwd, args[0]) in s.w.disk.names {
      var name := site.resolve(s.cwd, args[0]);
      var t := Say(s, FILE_STATUS_OKAY, "Sending file");
      SayInv(s, FILE_STATUS_OKAY, "Sending file");
      if s.tlsRequired {
        NamesLead(t, name);
        OpenForReadingInv(t, s.w.disk.names[name]);
        SendNextChunkInv(OpenForReading(t, s.w.disk.names[name]), env.got);
      } else {
        WriteCbInv(t, PlainDone);
        QueueInv(t.(writeCb := PlainDone), Content(s.w.disk, s.w.disk.names[name]));
      }
    }
  }

  lemma ListInv(s: State, args: seq<string>, env: Env, description: bool)
    requires Inv(s)
    ensures Inv(List(s, args, env, description))
  {
    hide LoopOk, LoginOk, RetrOk, DiskOk, ParseList, SendListing, IsPathSafe;
    ReplyInv(s, CloseData, SYNTAX_ERROR_PARAMS, "Failed to parse parameters");
    ReplyInv(s, CloseData, FILE_ACTION_NOT_TAKEN_PERM, "Invalid path");
    var t := Say(s, FILE_STATUS_OKAY, "Here comes the directory listings");
    SayInv(s, FILE_STATUS_OKAY, "Here comes the directory listings");
    if s.bev.Some? && !s.tlsRequired && ParseList(args, description).Some? {
      SendListingInv(t, env.listing(s.cwd, ParseList(args, description).value));
    }
  }

  lemma AborInv(s: State)
    requires Inv(s)
    ensures Inv(Abor(s))
  {
    hide LoopOk, LoginOk, DataOk, StorOk, RetrOk, DiskOk, Close;
    CloseInv(s);
    SayInv(Close(s), ACTION_ABORTED, "closed data connection; tansfer aborted");
  }

  lemma CommandInv(s: State, site: Site, handler: Handler, args: seq<string>, env: Env)
    requires Inv(s) && AllowedFor(handler, s.authenticated)
    ensures Inv(OnCommand(s, site, handler, args, env))
  {
    hide Inv, User, Pass, Auth, Prot, SetType, Abor, ListenerConfig, Stor, Retr, List, FileReply, Cwd, Dele, Say;
    match handler
    case UserAction => UserInv(s, args, env);
    case PassAction => PassInv(s, args, env);
    case ProtAction => ProtInv(s, args);
    case AborAction => AborInv(s);
    case EpsvAction => ListenerConfigInv(s, site, env, true);
    case PasvAction => ListenerConfigInv(s, site, env, false);
    case StorAction => StorInv(s, site, args, env);
    case RetrAction => RetrInv(s, site, args, env);
    case CwdAction => CwdInv(s, site, args, env);
    case DeleAction => DeleInv(s, env);
    case ListAction => ListInv(s, args, env, true);
    case NlstAction => ListInv(s, args, env, false);
    case AuthAction => AuthInv(s, args);
    case TypeAction => TypeInv(s, args);
    case SizeAction | MdtmAction | PwdAction | MkdAction | RmdAction => FileReplyInv(s, env);
    case SystAction => SayInv(s, SYSTEM_TYPE, "UNIX Type: L8");
    case QuitAction => SayInv(s, SERVICE_CLOSING, "Goodbye");
    case PbszAction => SayInv(s, COMMAND_OK, "PBSZ=0");
    case NoopAction => SayInv(s, COMMAND_OK, "NOOP command successful");
    case FeatAction => SayInv(s, 0, FEATURES);
    case NonAuthenticated => SayInv(s, NOT_LOGGED_IN, "Not logged in");
    case AlreadyAuthenticated => SayInv(s, USER_LOGGED_IN, "Already logged in");
    case InvalidAction => SayInv(s, NOT_IMPLEMENTED, "Unknown command");
  }

  // ---------------------------------------------------------------- events

  lemma AcceptInv(s: State, site: Site, peer: string, created: bool)
    requires Inv(s) && s.bev.None? && s.listener.Some?
    ensures var t := OnAccept(s, site, peer, created);
      && Inv(t)
      && (t.bev.Some? <==> created && Prefix(site.sourceIp, 4) == Prefix(peer, 4))
      && (t.listener.Some? <==> Prefix(site.sourceIp, 4) != Prefix(peer, 4))
      && (t.listener.Some? ==> t == s)
      && (t.bev.Some? ==>
           && t.listener.None? && t.w.listeners == {}
           && t.bev.value == Bev(s.w.nextId, s.tlsRequired, false, "", "", "")
           && s.timer !in s.w.released && t.w.released == s.w.released + [s.timer])
  {
    hide StorOk, RetrOk, DiskOk;
    DropListenerInv(s);
    var t := DropListener(s);
    if created && Prefix(site.sourceIp, 4) == Prefix(peer, 4) {
      var u := t.(bev := Some(Bev(s.w.nextId, s.tlsRequired, false, "", "", "")),
        dataActive := if s.tlsRequired then 0 else 1, w := t.w.(nextId := s.w.nextId + 1));
      FreshBevOk(t, u.bev.value);
      assert Inv(u);
      ReleaseInv(u, u.cwd);
    }
  }

  lemma FreshBevOk(s: State, b: Bev)
    requires Inv(s) && s.bev.None? && b.received == b.input == b.output == ""
    ensures StorOk(Some(b), s.readCb, s.tlsCb, s.eofCb, s.uploadFd, s.storBase, s.w.disk.files)
    ensures RetrOk(Some(b), s.writeCb, s.stream, s.w.disk.files)
  {
    hide LoopOk, LoginOk;
  }

  lemma SegmentInv(s: State, bytes: Bytes)
    requires Inv(s) && s.bev.Some?
    ensures Inv(OnSegment(s, bytes))
  {
    hide LoopOk, RetrOk, DiskOk;
    var b := s.bev.value;
    SegmentStorOk(b, s.readCb, s.tlsCb, s.eofCb, s.uploadFd, s.storBase, s.w.disk.files, bytes);
    SegmentRetrOk(s, b.(received := b.received + bytes, input := b.input + bytes));
  }

  lemma SegmentStorOk(b: Bev, readCb: ReadCb, tlsCb: TlsCb, eofCb: EofCb, uploadFd: UploadFd,
                      storBase: nat, files: map<nat, Bytes>, bytes: Bytes)
    requires StorOk(Some(b), readCb, tlsCb, eofCb, uploadFd, storBase, files)
    ensures var b' := b.(received := b.received + bytes, input := b.input + bytes);
      Taken(b') == Taken(b) && StorOk(Some(b'), readCb, tlsCb, eofCb, uploadFd, storBase, files)
  {
    var taken := Taken(b);
    assert (b.received + bytes)[taken..] == b.received[taken..] + bytes;
    assert forall i :: 0 <= i <= taken ==> (b.received + bytes)[i..taken] == b.received[i..taken];
  }

  lemma SegmentRetrOk(s: State, b: Bev)
    requires s.bev.Some? && RetrOk(s.bev, s.writeCb, s.stream, s.w.disk.files) && b.output == s.bev.value.output
    ensures RetrOk(Some(b), s.writeCb, s.stream, s.w.disk.files)
  {
  }

  lemma ConnectedInv(s: State, listing: Lister)
    requires Inv(s) && s.bev.Some? && s.bev.value.tls && !s.bev.value.handshaken
    ensures Inv(OnConnected(s, listing))
  {
    hide LoopOk, Close, SendListing;
    var b := s.bev.value.(handshaken := true);
    var t := s.(dataActive := s.dataActive + 1, bev := Some(b));
    assert Inv(t) by {
      SegmentRetrOk(s, b);
      hide RetrOk, DiskOk;
    }
    CloseInv(t);
    SendListingInv(t, listing(t.cwd, t.saved));
  }

  lemma EofInv(s: State)
    requires Inv(s)
    ensures Inv(Close(OnEof(s)))
  {
    hide LoopOk, LoginOk, RetrOk, DiskOk;
    if s.eofCb == StorEof && s.bev.Some? {
      DrainInv(s);
      var t := Drain(s);
      CloseInv(t);
      CloseForgets(t, t.(uploadFd := Closed), DATA_CONNECTION_CLOSING, "Transfer complete");
      SayInv(Close(t), DATA_CONNECTION_CLOSING, "Transfer complete");
    } else {
      CloseInv(s);
    }
  }

  /** Closing forgets the upload descriptor, and a reply before or after it is the same reply. */
  lemma CloseForgets(t: State, u: State, code: nat, text: string)
    requires u == t.(uploadFd := u.uploadFd)
    ensures Close(Say(u, code, text)) == Say(Close(t), code, text)
  {
    hide Close;
    CloseSaid(u, code, text);
    CloseDescriptor(t, u.uploadFd);
  }

  lemma CloseSaid(s: State, code: nat, text: string)
    ensures Close(Say(s, code, text)) == Say(Close(s), code, text)
  {
    hide Close;
    CloseWorld(s, Say(s, code, text).w);
  }

  lemma CloseWorld(s: State, w: World)
    ensures Close(s.(w := w)) == Close(s).(w := w) && Close(s).w == s.w
  {
  }

  lemma CloseDescriptor(s: State, fd: UploadFd)
    ensures Close(s.(uploadFd := fd)) == Close(s)
  {
  }

  lemma DataEventInv(s: State, connected: bool, timeout: bool, error: bool, eof: bool,
                     listing: Lister)
    requires Inv(s) && s.bev.Some?
    requires connected ==> s.bev.value.tls && !s.bev.value.handshaken
    ensures Inv(OnDataEvent(s, connected, timeout, error, eof, listing))
  {
    hide Inv, OnConnected, OnEof, Close;
    if connected {
      ConnectedInv(s, listing);
    }
    var t := if connected then OnConnected(s, listing) else s;
    EofInv(t);
    CloseInv(t);
  }

  lemma DataReadInv(s: State)
    requires Inv(s) && s.bev.Some?
    ensures Inv(OnDataRead(s))
  {
    hide LoopOk, LoginOk, DataOk, RetrOk, DiskOk, Drain;
    if s.readCb == StorRead {
      DrainInv(s);
    }
  }

  lemma DataWriteInv(s: State, drained: bool, got: int)
    requires Inv(s) && s.bev.Some?
    ensures Inv(OnDataWrite(s, drained, got))
  {
    hide LoopOk, LoginOk, DataOk, StorOk, SendNextChunk;
    match s.writeCb
    case NextChunk => SendNextChunkInv(s, got);
    case NoWrite =>
    case ListDone => ReplyInv(s, CloseData, DATA_CONNECTION_CLOSING, "Directory send OK");
    case _ => ReplyInv(s, CloseData, DATA_CONNECTION_CLOSING, "Transfer complete");
  }

  lemma GoneInv(s: State)
    requires Inv(s)
    ensures Inv(OnControlGone(s))
  {
    hide LoopOk, LoginOk, DataOk, StorOk, RetrOk, DiskOk;
  }

  lemma ControlWrittenInv(s: State)
    requires Inv(s)
    ensures Inv(OnControlWritten(s))
  {
    hide Inv, Close, OnControlGone;
    CloseInv(s);
    GoneInv(s);
    ControlInv(s, NoControl);
    ControlInv(Close(s), NoControl);
    ControlInv(OnControlGone(s), NoControl);
  }

  lemma TimerInv(s: State, id: nat)
    requires Inv(s)
    ensures Inv(OnTimer(s, id))
  {
    hide DataOk, StorOk, RetrOk, DiskOk, DropListener;
    var t := s.(w := s.w.(armed := s.w.armed - {id}));
    assert Inv(t);
    DropListenerInv(t);
    ReplyInv(t, DisableControl, SERVICE_NOT_AVAILABLE, "Control connection timed out !");
  }

  // ---------------------------------------------------------------- every step, every run

  /** Every command and every event keeps the invariant, in whatever order they come. */
  lemma StepInv(s: State, site: Site, e: Event)
    requires Inv(s) && Enabled(s, site, e)
    ensures Inv(Step(s, site, e))
  {
    hide OnAccept, OnSegment, OnDataEvent, OnDataRead, OnDataWrite, OnControlWritten, OnControlGone, OnTimer;
    hide OnCommand, Select, Parse, DataOk, StorOk, RetrOk, DiskOk, LoginOk, ScanEnds;
    match e
    case Line(input, env) =>
      var cmd := Parse(input);
      SelectRespectsLogin(cmd.command, s.authenticated);
      CommandInv(s, site, Select(cmd.command, s.authenticated), cmd.args, env);
    case Accept(peer, created) => AcceptInv(s, site, peer, created);
    case Segment(bytes) => SegmentInv(s, bytes);
    case DataEvent(connected, timeout, error, eof, listing) =>
      DataEventInv(s, connected, timeout, error, eof, listing);
    case DataRead => DataReadInv(s);
    case DataWrite(drained, got) => DataWriteInv(s, drained, got);
    case ControlWritten => ControlWrittenInv(s);
    case ControlGone => GoneInv(s);
    case TimerFires(id) => TimerInv(s, id);
  }

  lemma {:induction false} RunInv(s: State, site: Site, events: seq<Event>)
    requires Inv(s) && RunEnabled(s, site, events)
    ensures Inv(Run(s, site, events))
    decreases events
  {
    hide Inv, Step, Enabled;
    if events != [] {
      StepInv(s, site, events[0]);
      RunInv(Step(s, site, events[0]), site, events[1..]);
    }
  }

  lemma {:induction false} RunConcat(s: State, site: Site, a: seq<Event>, b: seq<Event>)
    ensures Run(s, site, a + b) == Run(Run(s, site, a), site, b)
    ensures RunEnabled(s, site, a + b) <==> RunEnabled(s, site, a) && RunEnabled(Run(s, site, a), site, b)
    decreases a
  {
    hide Step, Enabled;
    if a == [] {
      assert a + b == b;
    } else {
      assert (a + b)[1..] == a[1..] + b;
      RunConcat(Step(s, site, a[0]), site, a[1..], b);
    }
  }

  lemma RunEnabledPrefix(s: State, site: Site, events: seq<Event>, n: nat)
    requires RunEnabled(s, site, events) && n <= |events|
    ensures RunEnabled(s, site, events[..n])
  {
    assert events == events[..n] + events[n..];
    RunConcat(s, site, events[..n], events[n..]);
  }

  /** The last event of a run comes in the state the others lead to. */
  lemma RunSplit(s: State, site: Site, events: seq<Event>, i: nat)
    requires RunEnabled(s, site, events) && i < |events|
    ensures Enabled(Run(s, site, events[..i]), site, events[i])
    ensures Run(s, site, events[..i + 1]) == Step(Run(s, site, events[..i]), site, events[i])
  {
    hide Step, Enabled;
    RunEnabledPrefix(s, site, events, i + 1);
    assert events[..i + 1] == events[..i] + [events[i]];
    RunConcat(s, site, events[..i], [events[i]]);
    RunOne(Run(s, site, events[..i]), site, events[i]);
  }

  lemma RunOne(s: State, site: Site, e: Event)
    ensures Run(s, site, [e]) == Step(s, site, e)
    ensures RunEnabled(s, site, [e]) <==> Enabled(s, site, e)
  {
    hide Step, Enabled;
    assert [e][1..] == [];
  }
}
