/** What the commands of a session leave alone. */
module SessionFrames {
  import opened Options
  import opened CommandOptions
  import opened Disks
  import opened Dispatch
  import opened PassiveMode
  import opened Replies
  import opened Session

  /** No reply says that storing failed. */
  ghost predicate Clean(replies: seq<Reply>) {
    forall i :: 0 <= i < |replies| ==> replies[i].code != INSUFFICIENT_STORAGE
  }

  /** Numbers of connections, listeners and timers are not given out twice, and no storage error is
      reported. */
  ghost predicate Grows(w: World, w': World) {
    w.nextId <= w'.nextId && (Clean(w.replies) ==> Clean(w'.replies))
  }

  ghost predicate SameLogin(s: State, t: State) {
    t.authenticated == s.authenticated && t.username == s.username
  }

  /** Paths lead where they led. */
  ghost predicate SamePlaces(s: State, t: State) {
    t.cwd == s.cwd && t.w.disk.names == s.w.disk.names
  }

  ghost predicate SameSelf(s: State, t: State) {
    SameLogin(s, t) && SamePlaces(s, t)
  }

  ghost predicate SameReceived(b: Bev, c: Bev) {
    c.id == b.id && c.tls == b.tls && c.received == b.received && c.input == b.input
  }

  ghost predicate SameSent(b: Bev, c: Bev) {
    c.id == b.id && c.tls == b.tls && c.output == b.output && (b.handshaken ==> c.handshaken)
  }

  /** The receiving side is the same: the same data connection with the same bytes in, the same upload,
      the same files. */
  ghost predicate SameUpload(s: State, t: State) {
    && t.bev.Some? == s.bev.Some?
    && (s.bev.Some? ==> SameReceived(s.bev.value, t.bev.value))
    && t.eofCb == s.eofCb && t.uploadFd == s.uploadFd && t.storBase == s.storBase
    && t.w.disk.files == s.w.disk.files && t.w.disk.next == s.w.disk.next && Grows(s.w, t.w)
  }

  /** The same file under way, although it may have been written to. */
  ghost predicate SameStream(a: Option<Stream>, b: Option<Stream>) {
    a.Some? == b.Some? && (a.Some? ==> b.value == a.value.(intact := b.value.intact))
  }

  /** The sending side is the same: the same data connection with the same bytes out, the same file
      under way, the same callbacks. */
  ghost predicate SameDownload(s: State, t: State) {
    && t.bev.Some? == s.bev.Some?
    && (s.bev.Some? ==> SameSent(s.bev.value, t.bev.value))
    && SameStream(s.stream, t.stream) && t.writeCb == s.writeCb
    && (t.tlsCb == ListTls ==> s.tlsCb == ListTls)
  }

  /** Everything about the data connection is the same. */
  ghost predicate SameData(s: State, t: State) {
    && t.bev == s.bev && t.stream == s.stream
    && t.readCb == s.readCb && t.writeCb == s.writeCb && t.tlsCb == s.tlsCb && t.eofCb == s.eofCb
    && t.uploadFd == s.uploadFd && t.storBase == s.storBase && t.dataActive == s.dataActive
    && t.saved == s.saved && t.w.disk == s.w.disk && Grows(s.w, t.w)
  }

  lemma DataIsBoth(s: State, t: State)
    requires SameData(s, t)
    ensures SameUpload(s, t) && SameDownload(s, t)
  {
  }

  // ---------------------------------------------------------------- small steps

  /** A reply changes nothing but the log of replies. */
  lemma SayFrame(s: State, u: State, code: nat, text: string)
    requires code != INSUFFICIENT_STORAGE
    ensures Grows(s.w, u.w) ==> Grows(s.w, Say(u, code, text).w)
    ensures SameUpload(s, u) ==> SameUpload(s, Say(u, code, text))
    ensures SameData(s, u) ==> SameData(s, Say(u, code, text))
  {
    hide SameReceived;
  }

  lemma ReleaseFrame(s: State, u: State, timer: nat)
    ensures SameData(s, u) ==> SameData(s, Release(u, timer))
  {
    hide Clean;
  }

  lemma DropFrame(s: State)
    ensures SameData(s, DropListener(s)) && SameSelf(s, DropListener(s))
  {
    hide Clean;
  }

  lemma QueueFrame(s: State, bytes: Bytes)
    ensures SameUpload(s, Queue(s, bytes)) && SameSelf(s, Queue(s, bytes)) && Queue(s, bytes).w == s.w
    ensures Queue(s, bytes).tlsCb == s.tlsCb
  {
    hide Clean;
  }

  lemma CloseFrame(s: State)
    ensures SameSelf(s, Close(s)) && Close(s).w == s.w && Close(s).bev.None? && Close(s).eofCb == NoEof
  {
  }

  lemma ChunkFrame(s: State, got: int)
    requires s.stream.Some?
    ensures SameUpload(s, SendNextChunk(s, got)) && SameSelf(s, SendNextChunk(s, got))
    ensures SendNextChunk(s, got).w == s.w && SendNextChunk(s, got).tlsCb == s.tlsCb
  {
    hide ReadCount, Clean, Queue, Content;
    var fs := s.stream.value;
    var content := Content(s.w.disk, fs.file);
    var n := ReadCount(fs, content, got);
    var t := if fs.offset + n == fs.filesize then s.(writeCb := RetrDone) else s;
    assert SameUpload(s, t) && SameSelf(s, t);
    if n > 0 {
      QueueFrame(t, content[fs.offset..fs.offset + n]);
    }
  }

  lemma ListingFrame(s: State, listing: Bytes)
    ensures SameUpload(s, SendListing(s, listing)) && SameSelf(s, SendListing(s, listing))
  {
    hide Clean;
    if listing == "" {
      hide SameReceived;
      var t := s.(controlCb := CloseData, tlsCb := CloseOnTls);
      assert SameUpload(s, t);
      SayFrame(s, t, DATA_CONNECTION_CLOSING, "Directory send OK");
    } else {
      hide Queue;
      QueueFrame(s.(writeCb := ListDone), listing);
    }
  }

  // ---------------------------------------------------------------- commands

  lemma RetrFrame(s: State, site: Site, args: seq<string>, env: Env)
    ensures SameUpload(s, Retr(s, site, args, env)) && SameSelf(s, Retr(s, site, args, env))
  {
    hide SendNextChunk, Say, Queue, SameReceived, Clean, Content;
    UploadReflexive(s);
    SayFrame(s, s, SYNTAX_ERROR_PARAMS, "File path not provided");
    SayFrame(s, s, FILE_ACTION_NOT_TAKEN_PERM, "Failed to open file");
    var t := Say(s, FILE_STATUS_OKAY, "Sending file");
    SayFrame(s, s, FILE_STATUS_OKAY, "Sending file");
    SaySame(s, FILE_STATUS_OKAY, "Sending file");
    SaySame(s, SYNTAX_ERROR_PARAMS, "File path not provided");
    SaySame(s, FILE_ACTION_NOT_TAKEN_PERM, "Failed to open file");
    if |args| == 1 && s.bev.Some? && env.openOk && site.resolve(s.cwd, args[0]) in s.w.disk.names {
      var file := s.w.disk.names[site.resolve(s.cwd, args[0])];
      if s.tlsRequired {
        ChunkFrame(OpenForReading(t, file), env.got);
      } else {
        QueueFrame(t.(writeCb := PlainDone), Content(s.w.disk, file));
      }
      UploadTransitive(s, t, Retr(s, site, args, env));
    }
  }

  lemma UploadReflexive(s: State)
    ensures SameUpload(s, s)
  {
    hide Clean;
  }

  lemma UploadTransitive(s: State, t: State, u: State)
    requires SameUpload(s, t)
    ensures SameUpload(t, u) ==> SameUpload(s, u)
  {
    hide Clean;
  }

  lemma SaySame(s: State, code: nat, text: string)
    ensures Say(s, code, text) == s.(w := Say(s, code, text).w) && Say(s, code, text).w.disk == s.w.disk
    ensures SameSelf(s, Say(s, code, text))
  {
  }

  lemma ListFrame(s: State, args: seq<string>, env: Env, description: bool)
    ensures SameUpload(s, List(s, args, env, description)) && SameSelf(s, List(s, args, env, description))
  {
    hide SendListing, ParseList, IsPathSafe, Clean, SameReceived;
    UploadReflexive(s);
    SayFrame(s, s.(controlCb := CloseData), SYNTAX_ERROR_PARAMS, "Failed to parse parameters");
    SayFrame(s, s.(controlCb := CloseData), FILE_ACTION_NOT_TAKEN_PERM, "Invalid path");
    SayFrame(s, s, CANNOT_OPEN_DATA, "Cannot open data connection");
    var t := Say(s, FILE_STATUS_OKAY, "Here comes the directory listings");
    SayFrame(s, s, FILE_STATUS_OKAY, "Here comes the directory listings");
    if ParseList(args, description).Some? {
      var request := ParseList(args, description).value;
      SayFrame(s, s.(saved := request, tlsCb := ListTls), FILE_STATUS_OKAY, "Here comes the directory listings");
      ListingFrame(t, env.listing(s.cwd, request));
      UploadTransitive(s, t, SendListing(t, env.listing(s.cwd, request)));
    }
  }

  lemma ListeningFrame(s: State, site: Site, port: nat, ephemeral: nat, extended: bool)
    ensures var t := Listening(s, site, port, ephemeral, extended); SameData(s, t) && SameSelf(s, t)
  {
    hide PassiveReply, Clean, Say;
    var id := s.w.nextId;
    var reply := PassiveReply(site, port, extended);
    var t := s.(dataPort := port, listener := Some(id), timer := id + 1,
        w := s.w.(listeners := s.w.listeners + {id}, listening := BoundPort(port, ephemeral),
          armed := s.w.armed + {id + 1}, timers := s.w.timers + {id + 1}, nextId := id + 2));
    PassiveCode(site, port, extended);
    SayFrame(s, t, reply.code, reply.text);
    SaySame(t, reply.code, reply.text);
  }

  lemma PassiveCode(site: Site, port: nat, extended: bool)
    ensures PassiveReply(site, port, extended).code != INSUFFICIENT_STORAGE
  {
  }

  lemma ListenerFrame(s: State, site: Site, env: Env, extended: bool)
    ensures var t := ListenerConfig(s, site, env, extended); SameData(s, t) && SameSelf(s, t)
  {
    hide PassivePort, Listening, DropListener, Clean;
    DropFrame(s);
    var t := DropListener(s);
    var port := PassivePort(site.range, env.free);
    SayFrame(s, t, CANNOT_OPEN_DATA, "Can't open passive connection");
    if port.Some? {
      ListeningFrame(t, site, port.value, env.ephemeral, extended);
    } else {
      SayFrame(s, t.(dataPort := if site.range.start <= site.range.end then site.range.end else t.dataPort),
        CANNOT_OPEN_DATA, "Can't open passive connection");
    }
  }

  /** A STOR that opens its file. */
  predicate StorOpens(s: State, args: seq<string>, env: Env) {
    |args| == 1 && s.bev.Some? && env.openOk
  }

  /** STOR leaves the data connection, the sending side and the other files alone. */
  lemma StorFrame(s: State, site: Site, args: seq<string>, env: Env)
    ensures var t := Stor(s, site, args, env);
      SameLogin(s, t) && t.cwd == s.cwd && SameDownload(s, t) && Grows(s.w, t.w) && t.bev == s.bev
    ensures !StorOpens(s, args, env) ==>
      var t := Stor(s, site, args, env);
      t == s.(controlCb := t.controlCb, w := t.w) && t.w.disk == s.w.disk
    ensures StorOpens(s, args, env) ==>
      var t := Stor(s, site, args, env);
      var name := site.resolve(s.cwd, args[0]);
      && t.uploadFd == File(Target(s.w.disk, name)) && t.eofCb == StorEof && t.storBase == Taken(s.bev.value)
      && t.w.disk == Create(s.w.disk, name) && t.stream == Written(s.stream, Target(s.w.disk, name))
      && (s.tlsRequired ==> t.tlsCb == StorTls)
  {
    hide Say, Clean, Taken, Create, Target;
    SayFrame(s, s, SYNTAX_ERROR_PARAMS, "File path not provided");
    SaySame(s, SYNTAX_ERROR_PARAMS, "File path not provided");
    SayFrame(s, s, CANNOT_OPEN_DATA, "Cannot open data connection");
    SaySame(s, CANNOT_OPEN_DATA, "Cannot open data connection");
    var failed := s.(controlCb := CloseData);
    SayFrame(s, failed, FILE_ACTION_NOT_TAKEN_PERM, "Failed to open file for writing");
    SaySame(failed, FILE_ACTION_NOT_TAKEN_PERM, "Failed to open file for writing");
    if |args| == 1 && s.bev.Some? && env.openOk {
      var t := OpenForWriting(s, site.resolve(s.cwd, args[0]));
      var u := if s.tlsRequired then t.(tlsCb := StorTls) else t.(readCb := StorRead);
      SayFrame(s, u, FILE_STATUS_OKAY, "Read to receive");
      SaySame(u, FILE_STATUS_OKAY, "Read to receive");
    }
  }

  lemma CwdFrame(s: State, site: Site, args: seq<string>, env: Env)
    ensures var t := Cwd(s, site, args, env); SameData(s, t) && SameLogin(s, t)
    ensures ChangesDirectory(args, env) || Cwd(s, site, args, env).cwd == s.cwd
  {
    hide Say, Clean, IsPathSafe;
    SayFrame(s, s, SYNTAX_ERROR_PARAMS, "Invalid syntax in parameters");
    SaySame(s, SYNTAX_ERROR_PARAMS, "Invalid syntax in parameters");
    SayFrame(s, s, SYNTAX_ERROR_PARAMS, "Path not provided");
    SaySame(s, SYNTAX_ERROR_PARAMS, "Path not provided");
    SayFrame(s, s, FILE_ACTION_NOT_TAKEN_PERM, "Invalid path");
    SaySame(s, FILE_ACTION_NOT_TAKEN_PERM, "Invalid path");
    SayFrame(s, s, FILE_ACTION_NOT_TAKEN_PERM, "Not a directory.");
    SaySame(s, FILE_ACTION_NOT_TAKEN_PERM, "Not a directory.");
    if |args| == 1 {
      var t := s.(cwd := site.enter(s.cwd, args[0]));
      SayFrame(s, t, FILE_ACTION_OK, "Directory successfully changed.");
      SaySame(t, FILE_ACTION_OK, "Directory successfully changed.");
    }
  }

  /** A CWD that succeeds. */
  predicate ChangesDirectory(args: seq<string>, env: Env) {
    |args| == 1 && args[0] != "" && IsPathSafe(args[0]) && env.dirOk
  }

  lemma DeleFrame(s: State, env: Env)
    ensures var t := Dele(s, env);
      SameUpload(s, t) && SameDownload(s, t) && SameLogin(s, t) && t.cwd == s.cwd && t.bev == s.bev
      && t.w.disk == Unlink(s.w.disk, env.removed) && t.stream == s.stream && t.uploadFd == s.uploadFd
      && t.tlsCb == s.tlsCb && t.saved == s.saved && t.readCb == s.readCb
  {
    hide FileReply, Clean;
    var t := s.(w := s.w.(disk := Unlink(s.w.disk, env.removed)));
    FileReplyFrame(t, env);
  }

  lemma UserFrame(s: State, args: seq<string>, env: Env)
    ensures SameData(s, User(s, args, env))
  {
    hide Say, Clean;
    SayFrame(s, s.(controlCb := DisableControl), SYNTAX_ERROR_PARAMS, "Invalid syntax in parameters");
    SayFrame(s, s, NOT_LOGGED_IN, "User not found");
    if |args| == 1 {
      SayFrame(s, s.(username := Prefix(args[0], USERNAME_SIZE)), USER_NAME_OK, "User name okay, need password");
    }
  }

  lemma PassFrame(s: State, args: seq<string>, env: Env)
    ensures SameData(s, Pass(s, args, env))
  {
    hide Say, Release, Clean;
    SayFrame(s, s.(controlCb := DisableControl), SYNTAX_ERROR_PARAMS, "Invalid syntax in parameters");
    SayFrame(s, s, NOT_LOGGED_IN, "Invalid credentials");
    SayFrame(s, s, USER_LOGGED_IN, "User logged in");
    ReleaseFrame(s, Say(s, USER_LOGGED_IN, "User logged in").(authenticated := true, cwd := "/"), s.timer);
  }

  lemma AuthFrame(s: State, args: seq<string>)
    ensures SameData(s, Auth(s, args)) && SameSelf(s, Auth(s, args))
  {
    hide Say, Clean;
    SayFrame(s, s, AUTH_TLS_OK, "AUTH TLS Success");
    SaySame(s, AUTH_TLS_OK, "AUTH TLS Success");
    SayFrame(s, s, SYNTAX_ERROR_PARAMS, "File path not provided");
    SaySame(s, SYNTAX_ERROR_PARAMS, "File path not provided");
    SayFrame(s, s, SYNTAX_ERROR_PARAMS, "Invalid parameter");
    SaySame(s, SYNTAX_ERROR_PARAMS, "Invalid parameter");
  }

  lemma ProtFrame(s: State, args: seq<string>)
    ensures SameData(s, Prot(s, args)) && SameSelf(s, Prot(s, args))
  {
    hide Say, Clean;
    SayFrame(s, s.(tlsRequired := true), COMMAND_OK, "PROT now Private");
    SaySame(s.(tlsRequired := true), COMMAND_OK, "PROT now Private");
    SayFrame(s, s, SYNTAX_ERROR_PARAMS, "File path not provided");
    SaySame(s, SYNTAX_ERROR_PARAMS, "File path not provided");
    SayFrame(s, s, NOT_IMPLEMENTED, "Unsupported PROT level");
    SaySame(s, NOT_IMPLEMENTED, "Unsupported PROT level");
  }

  lemma TypeFrame(s: State, args: seq<string>)
    ensures SameData(s, SetType(s, args)) && SameSelf(s, SetType(s, args))
  {
    hide Say, Clean;
    SayFrame(s, s.(mode := Binary), COMMAND_OK, "Type set to I");
    SaySame(s.(mode := Binary), COMMAND_OK, "Type set to I");
    SayFrame(s, s.(mode := Ascii), COMMAND_OK, "Type set to A");
    SaySame(s.(mode := Ascii), COMMAND_OK, "Type set to A");
    SayFrame(s, s, SYNTAX_ERROR_PARAMS, "File path not provided");
    SaySame(s, SYNTAX_ERROR_PARAMS, "File path not provided");
    SayFrame(s, s, UNSUPPORTED_TYPE, "Unsupported type");
    SaySame(s, UNSUPPORTED_TYPE, "Unsupported type");
  }

  lemma FileReplyFrame(s: State, env: Env)
    ensures SameData(s, FileReply(s, env)) && SameSelf(s, FileReply(s, env))
  {
    hide Say, Clean;
    if env.fileReply != INSUFFICIENT_STORAGE {
      SayFrame(s, s, env.fileReply, "");
    }
    SaySame(s, env.fileReply, "");
    SayFrame(s, s, FILE_ACTION_NOT_TAKEN_PERM, "");
    SaySame(s, FILE_ACTION_NOT_TAKEN_PERM, "");
  }

  predicate TransferHandler(h: Handler) {
    h in {StorAction, RetrAction, ListAction, NlstAction, AborAction, CwdAction, DeleAction}
  }

  lemma StorRuns(s: State, site: Site, args: seq<string>, env: Env)
    ensures OnCommand(s, site, StorAction, args, env) == Stor(s, site, args, env)
  {
    hide Stor;
  }

  lemma RetrRuns(s: State, site: Site, args: seq<string>, env: Env)
    ensures OnCommand(s, site, RetrAction, args, env) == Retr(s, site, args, env)
  {
    hide Retr;
  }

  lemma ListRuns(s: State, site: Site, args: seq<string>, env: Env)
    ensures OnCommand(s, site, ListAction, args, env) == List(s, args, env, true)
  {
    hide List;
  }

  lemma NlstRuns(s: State, site: Site, args: seq<string>, env: Env)
    ensures OnCommand(s, site, NlstAction, args, env) == List(s, args, env, false)
  {
    hide List;
  }

  lemma AborRuns(s: State, site: Site, args: seq<string>, env: Env)
    ensures OnCommand(s, site, AborAction, args, env) == Abor(s)
  {
    hide Abor;
  }

  lemma CwdRuns(s: State, site: Site, args: seq<string>, env: Env)
    ensures OnCommand(s, site, CwdAction, args, env) == Cwd(s, site, args, env)
  {
    hide Cwd;
  }

  lemma DeleRuns(s: State, site: Site, args: seq<string>, env: Env)
    ensures OnCommand(s, site, DeleAction, args, env) == Dele(s, env)
  {
    hide Dele;
  }

  /** What runs for the handlers that touch the data connection or what paths lead to. */
  lemma TransferRuns(s: State, site: Site, args: seq<string>, env: Env)
    ensures OnCommand(s, site, StorAction, args, env) == Stor(s, site, args, env)
    ensures OnCommand(s, site, RetrAction, args, env) == Retr(s, site, args, env)
    ensures OnCommand(s, site, ListAction, args, env) == List(s, args, env, true)
    ensures OnCommand(s, site, NlstAction, args, env) == List(s, args, env, false)
    ensures OnCommand(s, site, AborAction, args, env) == Abor(s)
    ensures OnCommand(s, site, CwdAction, args, env) == Cwd(s, site, args, env)
    ensures OnCommand(s, site, DeleAction, args, env) == Dele(s, env)
  {
    hide *;
    StorRuns(s, site, args, env);
    RetrRuns(s, site, args, env);
    ListRuns(s, site, args, env);
    NlstRuns(s, site, args, env);
    AborRuns(s, site, args, env);
    CwdRuns(s, site, args, env);
    DeleRuns(s, site, args, env);
  }

  /** Only STOR, RETR, LIST, NLST and ABOR touch the data connection, and only STOR, CWD and DELE what
      paths lead to. */
  lemma BystanderFrame(s: State, site: Site, handler: Handler, args: seq<string>, env: Env)
    requires !TransferHandler(handler)
    ensures SameData(s, OnCommand(s, site, handler, args, env))
    ensures handler != UserAction && handler != PassAction ==> SameSelf(s, OnCommand(s, site, handler, args, env))
  {
    hide ListenerConfig, User, Pass, Auth, Prot, SetType, FileReply, Say, Clean;
    match handler
    case EpsvAction => ListenerFrame(s, site, env, true);
    case PasvAction => ListenerFrame(s, site, env, false);
    case UserAction => UserFrame(s, args, env);
    case PassAction => PassFrame(s, args, env);
    case AuthAction => AuthFrame(s, args);
    case ProtAction => ProtFrame(s, args);
    case TypeAction => TypeFrame(s, args);
    case SizeAction | MdtmAction | PwdAction | MkdAction | RmdAction => FileReplyFrame(s, env);
    case SystAction => AnswerFrame(s, SYSTEM_TYPE, "UNIX Type: L8");
    case QuitAction => AnswerFrame(s, SERVICE_CLOSING, "Goodbye");
    case PbszAction => AnswerFrame(s, COMMAND_OK, "PBSZ=0");
    case NoopAction => AnswerFrame(s, COMMAND_OK, "NOOP command successful");
    case FeatAction => AnswerFrame(s, 0, FEATURES);
    case NonAuthenticated => AnswerFrame(s, NOT_LOGGED_IN, "Not logged in");
    case AlreadyAuthenticated => AnswerFrame(s, USER_LOGGED_IN, "Already logged in");
    case InvalidAction => AnswerFrame(s, NOT_IMPLEMENTED, "Unknown command");
  }

  lemma AnswerFrame(s: State, code: nat, text: string)
    requires code != INSUFFICIENT_STORAGE
    ensures SameData(s, Say(s, code, text)) && SameSelf(s, Say(s, code, text))
  {
    hide Clean;
    SayFrame(s, s, code, text);
  }

  /** ABOR closes the data connection when there is one ready, and otherwise leaves it alone. */
  lemma AborFrame(s: State)
    ensures SameSelf(s, Abor(s)) && Grows(s.w, Abor(s).w)
    ensures SameData(s, Abor(s)) || (Abor(s).bev.None? && Abor(s).eofCb == NoEof && Abor(s).w.disk == s.w.disk)
  {
    hide Close, Say, Clean;
    CloseFrame(s);
    SayFrame(s, Close(s), ACTION_ABORTED, "closed data connection; tansfer aborted");
    SaySame(Close(s), ACTION_ABORTED, "closed data connection; tansfer aborted");
    var t := s.(controlCb := CloseData);
    SayFrame(s, t, DATA_CONNECTION_CLOSING, "No transfer in progress");
    SaySame(t, DATA_CONNECTION_CLOSING, "No transfer in progress");
  }

  /** Whether the data connection may have been closed, which ends every transfer on it. */
  ghost predicate Ended(s: State, t: State) {
    t.bev.None? && t.eofCb == NoEof && t.w.disk.files == s.w.disk.files && t.w.disk.next == s.w.disk.next
    && Grows(s.w, t.w)
  }

  /** No command but STOR changes what an upload is about, unless it closes the connection. */
  lemma CommandUpload(s: State, site: Site, handler: Handler, args: seq<string>, env: Env)
    requires handler != StorAction
    ensures var t := OnCommand(s, site, handler, args, env); SameUpload(s, t) || Ended(s, t)
  {
    hide OnCommand, Stor, Retr, List, Abor, Cwd, Dele, Clean;
    TransferRuns(s, site, args, env);
    if TransferHandler(handler) {
      match handler
      case CwdAction => CwdFrame(s, site, args, env); DataIsBoth(s, Cwd(s, site, args, env));
      case DeleAction => DeleFrame(s, env);
      case RetrAction => RetrFrame(s, site, args, env);
      case ListAction => ListFrame(s, args, env, true);
      case NlstAction => ListFrame(s, args, env, false);
      case AborAction => AborFrame(s); if SameData(s, Abor(s)) { DataIsBoth(s, Abor(s)); }
    } else {
      hide SameData;
      BystanderFrame(s, site, handler, args, env);
      DataIsBoth(s, OnCommand(s, site, handler, args, env));
    }
  }

  /** No command but RETR, LIST and NLST changes what a download is about, unless it closes the
      connection. */
  lemma CommandDownload(s: State, site: Site, handler: Handler, args: seq<string>, env: Env)
    requires handler !in {RetrAction, ListAction, NlstAction}
    ensures var t := OnCommand(s, site, handler, args, env);
      && (SameDownload(s, t) || t.bev.None?) && Grows(s.w, t.w)
      && (handler != StorAction ==> t.stream == s.stream || t.bev.None?)
  {
    hide OnCommand, Stor, Retr, List, Abor, Cwd, Dele, Clean;
    TransferRuns(s, site, args, env);
    if TransferHandler(handler) {
      match handler
      case CwdAction => CwdFrame(s, site, args, env); DataIsBoth(s, Cwd(s, site, args, env));
      case DeleAction => DeleFrame(s, env);
      case StorAction => StorFrame(s, site, args, env);
      case AborAction => AborFrame(s); if SameData(s, Abor(s)) { DataIsBoth(s, Abor(s)); }
    } else {
      BystanderFrame(s, site, handler, args, env);
      DataIsBoth(s, OnCommand(s, site, handler, args, env));
    }
  }

  lemma CommandLogin(s: State, site: Site, handler: Handler, args: seq<string>, env: Env)
    requires handler != UserAction && handler != PassAction
    ensures SameLogin(s, OnCommand(s, site, handler, args, env))
  {
    hide OnCommand, Stor, Retr, List, Abor, Cwd, Dele, SameUpload, SameData, SameDownload, Grows;
    TransferRuns(s, site, args, env);
    if TransferHandler(handler) {
      match handler
      case CwdAction => CwdFrame(s, site, args, env);
      case DeleAction => DeleFrame(s, env);
      case RetrAction => RetrFrame(s, site, args, env);
      case ListAction => ListFrame(s, args, env, true);
      case NlstAction => ListFrame(s, args, env, false);
      case StorAction => StorFrame(s, site, args, env);
      case AborAction => AborFrame(s);
    } else {
      BystanderFrame(s, site, handler, args, env);
    }
  }

  /** Paths lead where they led unless STOR creates a file, DELE removes one, CWD moves or PASS logs in. */
  lemma CommandPlaces(s: State, site: Site, handler: Handler, args: seq<string>, env: Env)
    requires handler !in {UserAction, PassAction, StorAction, DeleAction}
    requires handler == CwdAction ==> !ChangesDirectory(args, env)
    ensures SamePlaces(s, OnCommand(s, site, handler, args, env))
  {
    hide OnCommand, Stor, Retr, List, Abor, Cwd, Dele, ChangesDirectory, SameUpload, SameDownload, Grows, Clean;
    TransferRuns(s, site, args, env);
    if TransferHandler(handler) {
      match handler
      case RetrAction => RetrFrame(s, site, args, env);
      case ListAction => ListFrame(s, args, env, true);
      case NlstAction => ListFrame(s, args, env, false);
      case AborAction => AborFrame(s);
      case CwdAction => CwdFrame(s, site, args, env);
    } else {
      BystanderFrame(s, site, handler, args, env);
    }
  }
}
