/** What a client is told: every line is answered, by which codes, and what those codes mean. */
module SessionReplies {
  import opened Options
  import opened CommandOptions
  import opened CommandParser
  import opened CommandWords
  import opened Disks
  import opened Dispatch
  import opened PassiveMode
  import opened Replies
  import opened Session
  import opened SessionInvariant
  import opened SessionFrames
  import opened SessionListing
  import opened SessionLogin

  /** The codes with which each action answers. FEAT sends its lines with their codes in them. */
  function RepliesFor(h: Handler): set<nat> {
    match h
    case UserAction => {331, 501, 530}
    case PassAction => {230, 501, 530}
    case AuthAction => {234, 501}
    case ProtAction => {200, 501, 502}
    case TypeAction => {200, 501, 504}
    case AborAction => {226, 451}
    case EpsvAction => {229, 425}
    case PasvAction => {227, 425}
    case StorAction => {150, 425, 501, 550}
    case RetrAction => {150, 501, 550}
    case ListAction | NlstAction => {150, 226, 425, 501, 550}
    case CwdAction => {250, 501, 550}
    case SizeAction | MdtmAction | PwdAction | MkdAction | RmdAction | DeleAction => {213, 250, 257, 501, 550, 553}
    case SystAction => {215}
    case QuitAction => {221}
    case PbszAction | NoopAction => {200}
    case FeatAction => {0}
    case NonAuthenticated => {530}
    case AlreadyAuthenticated => {230}
    case InvalidAction => {502}
  }

  /** Replies are only ever added; here `n` of them, with codes among these. */
  ghost predicate Speaks(s: State, t: State, n: nat, codes: set<nat>) {
    && |t.w.replies| == |s.w.replies| + n && s.w.replies <= t.w.replies
    && forall i :: |s.w.replies| <= i < |t.w.replies| ==> t.w.replies[i].code in codes
  }

  /** A reply with this code was added. */
  ghost predicate Says(s: State, t: State, code: nat) {
    exists i :: |s.w.replies| <= i < |t.w.replies| && t.w.replies[i].code == code
  }

  /** A reply of the kinds 4yz and 5yz was added. */
  ghost predicate Refuses(s: State, t: State) {
    exists i :: |s.w.replies| <= i < |t.w.replies| && t.w.replies[i].code >= 400
  }

  /** Nothing but the replies and what is to be closed after them is different. */
  ghost predicate NothingDone(s: State, t: State) {
    t == s.(controlCb := t.controlCb, w := s.w.(replies := t.w.replies))
  }

  /** The modes of the connection. */
  ghost predicate SameModes(s: State, t: State) {
    t.tlsRequired == s.tlsRequired && t.upgraded == s.upgraded && t.mode == s.mode
  }

  /** The data connection is to be closed after the reply, if anything new is to be. */
  ghost predicate KeepsControl(s: State, t: State) {
    (t.controlCb == s.controlCb || t.controlCb == CloseData) && t.w.closed == s.w.closed
  }

  ghost predicate SameControl(s: State, t: State) {
    t.controlCb == s.controlCb && t.w.closed == s.w.closed
  }

  /** What a command does on the control side. */
  ghost predicate Quiet(s: State, t: State) {
    SameModes(s, t) && KeepsControl(s, t)
  }

  lemma SaySpeaks(s: State, u: State, n: nat, codes: set<nat>, code: nat, text: string)
    requires Speaks(s, u, n, codes) && code in codes
    ensures Speaks(s, Say(u, code, text), n + 1, codes)
    ensures Quiet(s, u) ==> Quiet(s, Say(u, code, text))
  {
  }

  /** One reply to what is otherwise `u`. */
  lemma OneReply(s: State, u: State, code: nat, text: string, codes: set<nat>)
    requires u.w.replies == s.w.replies && code in codes
    ensures var t := Say(u, code, text);
      && t == u.(w := u.w.(replies := t.w.replies))
      && Speaks(s, t, 1, codes) && (Refuses(s, t) <==> code >= 400) && (forall c :: Says(s, t, c) <==> c == code)
      && (SameModes(s, u) ==> SameModes(s, t)) && (KeepsControl(s, u) ==> KeepsControl(s, t))
      && (NothingDone(s, u) ==> NothingDone(s, t))
  {
    var t := Say(u, code, text);
    assert t.w.replies[|s.w.replies|].code == code;
  }

  lemma CloseQuiet(s: State)
    ensures Quiet(s, Close(s)) && Close(s).w == s.w && Close(s).controlCb == s.controlCb
  {
  }

  lemma DropQuiet(s: State)
    ensures Quiet(s, DropListener(s)) && DropListener(s).w.replies == s.w.replies
    ensures DropListener(s).controlCb == s.controlCb
  {
  }

  lemma QueueQuiet(s: State, bytes: Bytes)
    ensures var t := NotAlone(Queue(s, bytes)); Quiet(s, t) && t.w == s.w && t.controlCb == s.controlCb
    ensures Quiet(s, Queue(s, bytes)) && Queue(s, bytes).w == s.w && Queue(s, bytes).controlCb == s.controlCb
  {
  }

  lemma ChunkQuiet(s: State, got: int)
    requires s.stream.Some?
    ensures var t := SendNextChunk(s, got); Quiet(s, t) && t.w == s.w && t.controlCb == s.controlCb
  {
    hide ReadCount, Queue, Content;
    var fs := s.stream.value;
    var content := Content(s.w.disk, fs.file);
    var n := ReadCount(fs, content, got);
    if n > 0 {
      QueueQuiet(if fs.offset + n == fs.filesize then s.(writeCb := RetrDone) else s,
        content[fs.offset..fs.offset + n]);
    }
  }

  lemma ListingSpeaks(s: State, u: State, n: nat, codes: set<nat>, listing: Bytes)
    requires Speaks(s, u, n, codes) && Quiet(s, u) && DATA_CONNECTION_CLOSING in codes
    ensures var t := SendListing(u, listing);
      Speaks(s, t, if listing == "" then n + 1 else n, codes) && Quiet(s, t)
  {
    hide Say, Queue, NotAlone;
    if listing == "" {
      SaySpeaks(s, u.(controlCb := CloseData, tlsCb := CloseOnTls), n, codes, DATA_CONNECTION_CLOSING,
        "Directory send OK");
    } else {
      QueueQuiet(u.(writeCb := ListDone), listing);
    }
  }

  // ---------------------------------------------------------------- one command

  lemma UserSpeaks(s: State, args: seq<string>, env: Env)
    ensures var t := User(s, args, env);
      && Speaks(s, t, 1, RepliesFor(UserAction)) && SameModes(s, t) && t.w.closed == s.w.closed
      && t.controlCb == (if |args| != 1 then DisableControl else s.controlCb)
      && (Says(s, t, SYNTAX_ERROR_PARAMS) <==> |args| != 1)
      && (Refuses(s, t) ==> NothingDone(s, t))
      && (Says(s, t, USER_NAME_OK) <==> |args| == 1 && Prefix(args[0], 4) != "root" && env.userExists)
  {
    hide Prefix, Say, Speaks, Says, Refuses;
    var codes := RepliesFor(UserAction);
    OneReply(s, s.(controlCb := DisableControl), SYNTAX_ERROR_PARAMS, "Invalid syntax in parameters", codes);
    OneReply(s, s, NOT_LOGGED_IN, "User not found", codes);
    if |args| == 1 {
      OneReply(s, s.(username := Prefix(args[0], USERNAME_SIZE)), USER_NAME_OK, "User name okay, need password", codes);
    }
  }

  lemma PassSpeaks(s: State, args: seq<string>, env: Env)
    ensures var t := Pass(s, args, env);
      && Speaks(s, t, 1, RepliesFor(PassAction)) && SameModes(s, t) && t.w.closed == s.w.closed
      && t.controlCb == (if |args| != 1 then DisableControl else s.controlCb)
      && (Says(s, t, SYNTAX_ERROR_PARAMS) <==> |args| != 1)
      && (Refuses(s, t) ==> NothingDone(s, t))
      && (Says(s, t, USER_LOGGED_IN) <==> |args| == 1 && env.accepts(s.username, args[0]))
  {
    hide Say, Speaks, Says, Refuses;
    var codes := RepliesFor(PassAction);
    OneReply(s, s.(controlCb := DisableControl), SYNTAX_ERROR_PARAMS, "Invalid syntax in parameters", codes);
    OneReply(s, s, NOT_LOGGED_IN, "Invalid credentials", codes);
    OneReply(s, s, USER_LOGGED_IN, "User logged in", codes);
    var t := Say(s, USER_LOGGED_IN, "User logged in");
    SameReplies(s, t, Release(t.(authenticated := true, cwd := "/"), s.timer), codes);
  }

  /** What is said is read off the log of replies alone. */
  lemma SameReplies(s: State, t: State, u: State, codes: set<nat>)
    requires t.w.replies == u.w.replies
    ensures forall n :: Speaks(s, t, n, codes) <==> Speaks(s, u, n, codes)
    ensures Refuses(s, t) <==> Refuses(s, u)
    ensures forall c :: Says(s, t, c) <==> Says(s, u, c)
  {
  }

  lemma AuthSpeaks(s: State, args: seq<string>)
    ensures var t := Auth(s, args);
      && Speaks(s, t, 1, RepliesFor(AuthAction)) && SameControl(s, t) && (Refuses(s, t) ==> NothingDone(s, t))
      && t.tlsRequired == s.tlsRequired && t.mode == s.mode
      && t.upgraded == (s.upgraded || Says(s, t, AUTH_TLS_OK)) && (Says(s, t, AUTH_TLS_OK) <==> args == ["TLS"])
  {
    hide Say, Speaks, Says, Refuses;
    var codes := RepliesFor(AuthAction);
    OneReply(s, s, AUTH_TLS_OK, "AUTH TLS Success", codes);
    var t := Say(s, AUTH_TLS_OK, "AUTH TLS Success");
    SameReplies(s, t, t.(upgraded := true), codes);
    OneReply(s, s, SYNTAX_ERROR_PARAMS, "File path not provided", codes);
    OneReply(s, s, SYNTAX_ERROR_PARAMS, "Invalid parameter", codes);
  }
  lemma ProtSpeaks(s: State, args: seq<string>)
    ensures var t := Prot(s, args);
      && Speaks(s, t, 1, RepliesFor(ProtAction)) && SameControl(s, t) && (Refuses(s, t) ==> NothingDone(s, t))
      && t.upgraded == s.upgraded && t.mode == s.mode
      && t.tlsRequired == (s.tlsRequired || Says(s, t, COMMAND_OK)) && (Says(s, t, COMMAND_OK) <==> args == ["P"])
  {
    hide Say, Speaks, Says, Refuses;
    var codes := RepliesFor(ProtAction);
    OneReply(s, s.(tlsRequired := true), COMMAND_OK, "PROT now Private", codes);
    OneReply(s, s, SYNTAX_ERROR_PARAMS, "File path not provided", codes);
    OneReply(s, s, NOT_IMPLEMENTED, "Unsupported PROT level", codes);
  }

  lemma TypeSpeaks(s: State, args: seq<string>)
    ensures var t := SetType(s, args);
      && Speaks(s, t, 1, RepliesFor(TypeAction)) && KeepsControl(s, t) && (Refuses(s, t) ==> NothingDone(s, t))
      && t.upgraded == s.upgraded && t.tlsRequired == s.tlsRequired
      && t.mode == (if args == ["I"] then Binary else if args == ["A"] then Ascii else s.mode)
      && (Says(s, t, COMMAND_OK) <==> args == ["I"] || args == ["A"])
  {
    hide Say, Speaks, Says, Refuses;
    var codes := RepliesFor(TypeAction);
    OneReply(s, s.(mode := Binary), COMMAND_OK, "Type set to I", codes);
    OneReply(s, s.(mode := Ascii), COMMAND_OK, "Type set to A", codes);
    OneReply(s, s, SYNTAX_ERROR_PARAMS, "File path not provided", codes);
    OneReply(s, s, UNSUPPORTED_TYPE, "Unsupported type", codes);
  }

  lemma AborSpeaks(s: State)
    ensures var t := Abor(s);
      && Speaks(s, t, 1, RepliesFor(AborAction)) && Quiet(s, t)
      && (Says(s, t, ACTION_ABORTED) <==> s.dataActive != 0)
  {
    hide Close, Say, Speaks, Says, Refuses;
    var codes := RepliesFor(AborAction);
    CloseQuiet(s);
    OneReply(s, Close(s), ACTION_ABORTED, "closed data connection; tansfer aborted", codes);
    OneReply(s, s.(controlCb := CloseData), DATA_CONNECTION_CLOSING, "No transfer in progress", codes);
  }

  lemma PassiveSpeaks(s: State, site: Site, env: Env, extended: bool)
    ensures var t := ListenerConfig(s, site, env, extended);
      Speaks(s, t, 1, RepliesFor(if extended then EpsvAction else PasvAction)) && Quiet(s, t)
  {
    hide PassivePort, DropListener, PassiveText, ExtendedText, Say, Speaks, Says, Refuses, Listening;
    var codes := RepliesFor(if extended then EpsvAction else PasvAction);
    var t := DropListener(s);
    DropQuiet(s);
    OneReply(s, t, CANNOT_OPEN_DATA, "Can't open passive connection", codes);
    OneReply(s, t.(dataPort := if site.range.start <= site.range.end then site.range.end else t.dataPort),
      CANNOT_OPEN_DATA, "Can't open passive connection", codes);
    if PassivePort(site.range, env.free).Some? {
      ListeningSpeaks(s, t, site, PassivePort(site.range, env.free).value, env.ephemeral, extended);
    }
  }

  lemma ListeningSpeaks(s: State, t: State, site: Site, port: nat, ephemeral: nat, extended: bool)
    requires Quiet(s, t) && t.w.replies == s.w.replies
    ensures var u := Listening(t, site, port, ephemeral, extended);
      Speaks(s, u, 1, RepliesFor(if extended then EpsvAction else PasvAction)) && Quiet(s, u)
  {
    hide PassiveText, ExtendedText, Say, Speaks, Says, Refuses;
    var id := t.w.nextId;
    var reply := PassiveReply(site, port, extended);
    OneReply(s, t.(dataPort := port, listener := Some(id), timer := id + 1,
        w := t.w.(listeners := t.w.listeners + {id}, listening := BoundPort(port, ephemeral),
          armed := t.w.armed + {id + 1}, timers := t.w.timers + {id + 1}, nextId := id + 2)),
      reply.code, reply.text, RepliesFor(if extended then EpsvAction else PasvAction));
  }

  lemma StorSpeaks(s: State, site: Site, args: seq<string>, env: Env)
    ensures var t := Stor(s, site, args, env);
      && Speaks(s, t, 1, RepliesFor(StorAction)) && Quiet(s, t) && (Refuses(s, t) ==> NothingDone(s, t))
      && (Says(s, t, SYNTAX_ERROR_PARAMS) <==> |args| != 1)
      && (Says(s, t, CANNOT_OPEN_DATA) <==> |args| == 1 && s.bev.None?)
      && (Says(s, t, FILE_STATUS_OKAY) <==> |args| == 1 && s.bev.Some? && env.openOk)
      && t.controlCb == (if Says(s, t, FILE_ACTION_NOT_TAKEN_PERM) then CloseData else s.controlCb)
  {
    hide Target, Create, Written, Taken, Say, Speaks, Says, Refuses;
    var codes := RepliesFor(StorAction);
    OneReply(s, s, SYNTAX_ERROR_PARAMS, "File path not provided", codes);
    OneReply(s, s, CANNOT_OPEN_DATA, "Cannot open data connection", codes);
    OneReply(s, s.(controlCb := CloseData), FILE_ACTION_NOT_TAKEN_PERM, "Failed to open file for writing", codes);
    if |args| == 1 && s.bev.Some? {
      var t := OpenForWriting(s, site.resolve(s.cwd, args[0]));
      OneReply(s, if s.tlsRequired then t.(tlsCb := StorTls) else t.(readCb := StorRead),
        FILE_STATUS_OKAY, "Read to receive", codes);
    }
  }

  /** A RETR that is not answered: there is no data connection, or over TLS the file cannot be opened. */
  predicate RetrUnanswered(s: State, site: Site, args: seq<string>, env: Env) {
    && |args| == 1
    && (s.bev.None? ||
         (s.tlsRequired && !(env.openOk && site.resolve(s.cwd, args[0]) in s.w.disk.names)))
  }

  lemma RetrSpeaks(s: State, site: Site, args: seq<string>, env: Env)
    ensures var t := Retr(s, site, args, env);
      && Speaks(s, t, if RetrUnanswered(s, site, args, env) then 0 else 1, RepliesFor(RetrAction)) && Quiet(s, t)
      && (Refuses(s, t) ==> NothingDone(s, t)) && (RetrUnanswered(s, site, args, env) ==> t == s)
      && (Says(s, t, SYNTAX_ERROR_PARAMS) <==> |args| != 1)
      && (Says(s, t, FILE_STATUS_OKAY) <==>
           |args| == 1 && s.bev.Some? && env.openOk && site.resolve(s.cwd, args[0]) in s.w.disk.names)
      && t.controlCb == s.controlCb
  {
    hide SendNextChunk, Queue, NotAlone, Content, Say, Speaks, Says, Refuses;
    var codes := RepliesFor(RetrAction);
    OneReply(s, s, SYNTAX_ERROR_PARAMS, "File path not provided", codes);
    OneReply(s, s, FILE_ACTION_NOT_TAKEN_PERM, "Failed to open file", codes);
    NothingSaid(s, codes);
    if |args| == 1 && s.bev.Some? && env.openOk && site.resolve(s.cwd, args[0]) in s.w.disk.names {
      var t := Say(s, FILE_STATUS_OKAY, "Sending file");
      OneReply(s, s, FILE_STATUS_OKAY, "Sending file", codes);
      var file := s.w.disk.names[site.resolve(s.cwd, args[0])];
      ChunkQuiet(OpenForReading(t, file), env.got);
      QueueQuiet(t.(writeCb := PlainDone), Content(s.w.disk, file));
      SameReplies(s, t, Retr(s, site, args, env), codes);
    }
  }

  lemma NothingSaid(s: State, codes: set<nat>)
    ensures Speaks(s, s, 0, codes) && !Refuses(s, s) && forall c :: !Says(s, s, c)
  {
  }

  /** A LIST or NLST that opens its directory. */
  predicate ListOpens(s: State, args: seq<string>, env: Env, description: bool) {
    && ParseList(args, description).Some? && s.bev.Some?
    && IsPathSafe(ParseList(args, description).value.path) && env.dirOk
  }

  /** One that has nothing to send, and says so at once. */
  predicate ListsNothing(s: State, args: seq<string>, env: Env, description: bool) {
    && ListOpens(s, args, env, description) && !s.tlsRequired
    && env.listing(s.cwd, ParseList(args, description).value) == ""
  }

  lemma ListSpeaks(s: State, args: seq<string>, env: Env, description: bool)
    ensures var t := List(s, args, env, description);
      && Speaks(s, t, if ListsNothing(s, args, env, description) then 2 else 1, RepliesFor(ListAction)) && Quiet(s, t)
      && (Refuses(s, t) ==> NothingDone(s, t))
      && (Says(s, t, SYNTAX_ERROR_PARAMS) <==> ParseList(args, description).None?)
      && (Says(s, t, CANNOT_OPEN_DATA) <==> ParseList(args, description).Some? && s.bev.None?)
      && (Says(s, t, FILE_STATUS_OKAY) <==> ListOpens(s, args, env, description))
      && (Says(s, t, SYNTAX_ERROR_PARAMS) || Says(s, t, FILE_ACTION_NOT_TAKEN_PERM) ==> t.controlCb == CloseData)
      && (Says(s, t, CANNOT_OPEN_DATA) ==> t.controlCb == s.controlCb)
  {
    hide SendListing, ParseList, IsPathSafe, Say, Speaks, Says, Refuses;
    var codes := RepliesFor(ListAction);
    OneReply(s, s.(controlCb := CloseData), SYNTAX_ERROR_PARAMS, "Failed to parse parameters", codes);
    OneReply(s, s, CANNOT_OPEN_DATA, "Cannot open data connection", codes);
    OneReply(s, s.(controlCb := CloseData), FILE_ACTION_NOT_TAKEN_PERM, "Invalid path", codes);
    if ListOpens(s, args, env, description) {
      OpenedListSpeaks(s, ParseList(args, description).value, env);
    }
  }

  lemma OpenedListSpeaks(s: State, request: ListRequest, env: Env)
    requires s.bev.Some?
    ensures
      var listing := env.listing(s.cwd, request);
      var t := if s.tlsRequired then
          Say(s.(saved := request, tlsCb := ListTls), FILE_STATUS_OKAY, "Here comes the directory listings")
        else SendListing(Say(s, FILE_STATUS_OKAY, "Here comes the directory listings"), listing);
      && Speaks(s, t, if !s.tlsRequired && listing == "" then 2 else 1, RepliesFor(ListAction)) && Quiet(s, t)
      && !Refuses(s, t) && Says(s, t, FILE_STATUS_OKAY)
      && !Says(s, t, SYNTAX_ERROR_PARAMS) && !Says(s, t, CANNOT_OPEN_DATA) && !Says(s, t, FILE_ACTION_NOT_TAKEN_PERM)
  {
    hide SendListing, Say;
    var codes := {FILE_STATUS_OKAY, DATA_CONNECTION_CLOSING};
    var listing := env.listing(s.cwd, request);
    var t := Say(s, FILE_STATUS_OKAY, "Here comes the directory listings");
    OneReply(s, s.(saved := request, tlsCb := ListTls), FILE_STATUS_OKAY, "Here comes the directory listings", codes);
    OneReply(s, s, FILE_STATUS_OKAY, "Here comes the directory listings", codes);
    ListingSpeaks(s, t, 1, codes, listing);
    KeepsSaying(s, t, listing);
  }

  lemma KeepsSaying(s: State, t: State, listing: Bytes)
    requires Says(s, t, FILE_STATUS_OKAY)
    ensures Says(s, SendListing(t, listing), FILE_STATUS_OKAY)
  {
    hide Queue, NotAlone;
    QueueQuiet(t.(writeCb := ListDone), listing);
    var i :| |s.w.replies| <= i < |t.w.replies| && t.w.replies[i].code == FILE_STATUS_OKAY;
    assert SendListing(t, listing).w.replies[i] == t.w.replies[i];
  }

  lemma CwdSpeaks(s: State, site: Site, args: seq<string>, env: Env)
    ensures var t := Cwd(s, site, args, env);
      && Speaks(s, t, 1, RepliesFor(CwdAction)) && Quiet(s, t) && (Refuses(s, t) ==> NothingDone(s, t))
      && (Says(s, t, FILE_ACTION_OK) <==> |args| == 1 && args[0] != "" && IsPathSafe(args[0]) && env.dirOk)
      && (Says(s, t, FILE_ACTION_OK) ==> t.cwd == site.enter(s.cwd, args[0]))
  {
    hide IsPathSafe, Say, Speaks, Says, Refuses;
    var codes := RepliesFor(CwdAction);
    OneReply(s, s, SYNTAX_ERROR_PARAMS, "Invalid syntax in parameters", codes);
    OneReply(s, s, SYNTAX_ERROR_PARAMS, "Path not provided", codes);
    OneReply(s, s, FILE_ACTION_NOT_TAKEN_PERM, "Invalid path", codes);
    OneReply(s, s, FILE_ACTION_NOT_TAKEN_PERM, "Not a directory.", codes);
    if |args| == 1 {
      OneReply(s, s.(cwd := site.enter(s.cwd, args[0])), FILE_ACTION_OK, "Directory successfully changed.", codes);
    }
  }

  lemma FileReplySpeaks(s: State, env: Env)
    ensures var t := FileReply(s, env);
      Speaks(s, t, 1, RepliesFor(DeleAction)) && Quiet(s, t) && NothingDone(s, t)
  {
    hide Say, Speaks, Says, Refuses;
    var codes := RepliesFor(DeleAction);
    if env.fileReply in codes {
      OneReply(s, s, env.fileReply, "", codes);
    }
    OneReply(s, s, FILE_ACTION_NOT_TAKEN_PERM, "", codes);
  }

  // ---------------------------------------------------------------- one line

  /** Actions whose refusal may still leave something done: DELE may have removed part of a tree, PASV and EPSV
      have closed the old listener, and 451 is how ABOR says that it closed the data connection. */
  predicate MayRefuseLate(h: Handler) {
    h in {AborAction, EpsvAction, PasvAction, DeleAction}
  }

  /** How often a line is answered. */
  function AnswerCount(s: State, site: Site, h: Handler, args: seq<string>, env: Env): nat {
    if h == RetrAction && RetrUnanswered(s, site, args, env) then 0
    else if (h == ListAction || h == NlstAction) && ListsNothing(s, args, env, h == ListAction) then 2
    else 1
  }

  /** Everything about a command's answer. */
  ghost predicate Answers(s: State, site: Site, h: Handler, args: seq<string>, env: Env, t: State) {
    && Speaks(s, t, AnswerCount(s, site, h, args, env), RepliesFor(h)) && t.w.closed == s.w.closed
    && (!MayRefuseLate(h) && Refuses(s, t) ==> NothingDone(s, t))
    && (AnswerCount(s, site, h, args, env) == 0 ==> t == s)
    && (h !in {UserAction, PassAction} ==> KeepsControl(s, t))
    && (OpenHandler(h) || h == NonAuthenticated ==> SameControl(s, t))
    && (h in {UserAction, PassAction} ==> t.controlCb == s.controlCb || t.controlCb == DisableControl)
    && (h !in {ProtAction, AuthAction, TypeAction} ==> SameModes(s, t))
  }

  lemma AnswerOnce(s: State, site: Site, h: Handler, args: seq<string>, env: Env, code: nat, text: string)
    requires h !in {RetrAction, ListAction, NlstAction, UserAction, PassAction} && code in RepliesFor(h)
    ensures Answers(s, site, h, args, env, Say(s, code, text))
  {
    hide Say, Speaks, Refuses, RetrUnanswered, ListsNothing;
    OneReply(s, s, code, text, RepliesFor(h));
  }

  /** Actions that only answer. */
  predicate OnlyAnswers(h: Handler) {
    h in {SystAction, QuitAction, PbszAction, NoopAction, FeatAction, NonAuthenticated, AlreadyAuthenticated,
          InvalidAction}
  }

  lemma AnswerSpeaks(s: State, site: Site, h: Handler, args: seq<string>, env: Env)
    requires OnlyAnswers(h)
    ensures Answers(s, site, h, args, env, OnCommand(s, site, h, args, env))
  {
    hide Answers, Say;
    match h
    case SystAction => AnswerOnce(s, site, h, args, env, SYSTEM_TYPE, "UNIX Type: L8");
    case QuitAction => AnswerOnce(s, site, h, args, env, SERVICE_CLOSING, "Goodbye");
    case PbszAction => AnswerOnce(s, site, h, args, env, COMMAND_OK, "PBSZ=0");
    case NoopAction => AnswerOnce(s, site, h, args, env, COMMAND_OK, "NOOP command successful");
    case FeatAction => AnswerOnce(s, site, h, args, env, 0, FEATURES);
    case NonAuthenticated => AnswerOnce(s, site, h, args, env, NOT_LOGGED_IN, "Not logged in");
    case AlreadyAuthenticated => AnswerOnce(s, site, h, args, env, USER_LOGGED_IN, "Already logged in");
    case InvalidAction => AnswerOnce(s, site, h, args, env, NOT_IMPLEMENTED, "Unknown command");
  }

  lemma CommandSpeaks(s: State, site: Site, h: Handler, args: seq<string>, env: Env)
    ensures Answers(s, site, h, args, env, OnCommand(s, site, h, args, env))
  {
    hide User, Pass, Auth, Prot, SetType, Abor, ListenerConfig, Stor, Retr, List, FileReply, Cwd, Dele, Say;
    hide Speaks, Refuses, Says, NothingDone, RetrUnanswered, ListsNothing;
    if OnlyAnswers(h) {
      hide OnCommand, Answers;
      AnswerSpeaks(s, site, h, args, env);
    } else {
      match h
      case UserAction => UserSpeaks(s, args, env);
      case PassAction => PassSpeaks(s, args, env);
      case AuthAction => AuthSpeaks(s, args);
      case ProtAction => ProtSpeaks(s, args);
      case TypeAction => TypeSpeaks(s, args);
      case AborAction => AborSpeaks(s);
      case EpsvAction => PassiveSpeaks(s, site, env, true);
      case PasvAction => PassiveSpeaks(s, site, env, false);
      case StorAction => StorSpeaks(s, site, args, env);
      case RetrAction => RetrSpeaks(s, site, args, env);
      case CwdAction => CwdSpeaks(s, site, args, env);
      case DeleAction => DeleSpeaks(s, env);
      case ListAction => ListSpeaks(s, args, env, true);
      case NlstAction => ListSpeaks(s, args, env, false);
      case SizeAction | MdtmAction | PwdAction | MkdAction | RmdAction => FileReplySpeaks(s, env);
    }
  }

  lemma DeleSpeaks(s: State, env: Env)
    ensures var t := Dele(s, env); Speaks(s, t, 1, RepliesFor(DeleAction)) && Quiet(s, t)
  {
    hide FileReply, Refuses, Says;
    var u := s.(w := s.w.(disk := Unlink(s.w.disk, env.removed)));
    FileReplySpeaks(u, env);
    FromSameReplies(s, u, Dele(s, env), RepliesFor(DeleAction));
  }

  lemma FromSameReplies(s: State, u: State, t: State, codes: set<nat>)
    requires u.w.replies == s.w.replies
    ensures forall n :: Speaks(u, t, n, codes) <==> Speaks(s, t, n, codes)
  {
  }

  /** Which handler a line runs, on which arguments. */
  function HandlerFor(s: State, e: Event): Handler
    requires e.Line?
  {
    Select(Parse(e.input).command, s.authenticated)
  }

  lemma LineRuns(s: State, site: Site, e: Event)
    requires e.Line?
    ensures Step(s, site, e) == OnCommand(s, site, HandlerFor(s, e), Parse(e.input).args, e.env)
  {
    hide OnCommand, Parse, Select;
  }

  /** A RETR line that is not answered at all: it has its one argument, and there is no data connection, or it is
      to go over TLS and the file cannot be opened. */
  predicate Unanswered(s: State, site: Site, e: Event) {
    e.Line? && HandlerFor(s, e) == RetrAction && RetrUnanswered(s, site, Parse(e.input).args, e.env)
  }

  /** A listing without TLS that turns out empty. */
  predicate AnsweredTwice(s: State, e: Event) {
    && e.Line? && HandlerFor(s, e) in {ListAction, NlstAction}
    && ListsNothing(s, Parse(e.input).args, e.env, HandlerFor(s, e) == ListAction)
  }

  /** Every line is answered: once, but for the empty listing, which is begun and completed at once, and for the
      RETR that is not answered and then changes nothing. The codes are those of its command, and a command
      that is refused has not been carried out, not even in part, unless it is PASV, EPSV or DELE; what ABOR
      answers is no refusal. */
  lemma EveryLineIsAnswered(s: State, site: Site, e: Event)
    requires e.Line?
    ensures
      var t := Step(s, site, e);
      && s.w.replies <= t.w.replies
      && |t.w.replies| - |s.w.replies| == (if Unanswered(s, site, e) then 0 else if AnsweredTwice(s, e) then 2 else 1)
      && (forall i :: |s.w.replies| <= i < |t.w.replies| ==> t.w.replies[i].code in RepliesFor(HandlerFor(s, e)))
      && (Unanswered(s, site, e) ==> t == s)
      && (!MayRefuseLate(HandlerFor(s, e)) && Refuses(s, t) ==> NothingDone(s, t))
  {
    hide Step, HandlerFor, RetrUnanswered, ListsNothing, Refuses, NothingDone, OnCommand, RepliesFor, Parse;
    LineRuns(s, site, e);
    CommandSpeaks(s, site, HandlerFor(s, e), Parse(e.input).args, e.env);
  }

  /** The arguments a transfer command takes. */
  predicate TakesArguments(h: Handler, args: seq<string>) {
    if h == ListAction || h == NlstAction then !TwoOperands(args, {"-a", "-h", "-R"}) else |args| == 1
  }

  /** Whether what a transfer command names can be opened. */
  predicate Opens(s: State, site: Site, h: Handler, args: seq<string>, env: Env) {
    match h
    case StorAction => |args| == 1 && env.openOk
    case RetrAction => |args| == 1 && env.openOk && site.resolve(s.cwd, args[0]) in s.w.disk.names
    case _ =>
      && ParseList(args, h == ListAction).Some?
      && IsPathSafe(ParseList(args, h == ListAction).value.path) && env.dirOk
  }

  predicate IsTransfer(h: Handler) {
    h in {StorAction, RetrAction, ListAction, NlstAction}
  }

  /** STOR, RETR, LIST and NLST answer 501 exactly to arguments they do not take, 150 exactly when they take
      their arguments, a data connection is there and what they name can be opened, and 425 exactly when only
      the data connection is missing and the command is not RETR. */
  lemma TransferAnswers(s: State, site: Site, e: Event)
    requires e.Line? && IsTransfer(HandlerFor(s, e))
    ensures
      var t := Step(s, site, e);
      var h, args := HandlerFor(s, e), Parse(e.input).args;
      && (Says(s, t, SYNTAX_ERROR_PARAMS) <==> !TakesArguments(h, args))
      && (Says(s, t, CANNOT_OPEN_DATA) <==> TakesArguments(h, args) && s.bev.None? && h != RetrAction)
      && (Says(s, t, FILE_STATUS_OKAY) <==>
           TakesArguments(h, args) && s.bev.Some? && Opens(s, site, h, args, e.env))
  {
    hide Step, HandlerFor, Parse, Says, Stor, Retr, List, ParseList, RetrUnanswered, IsPathSafe, TwoOperands, Refuses;
    var h, args := HandlerFor(s, e), Parse(e.input).args;
    LineRuns(s, site, e);
    TransferRuns(s, site, args, e.env);
    ListArguments(args, h == ListAction);
    match h
    case StorAction => StorSpeaks(s, site, args, e.env);
    case RetrAction =>
      RetrSpeaks(s, site, args, e.env);
      CodesOnly(s, Retr(s, site, args, e.env), RetrAction, CANNOT_OPEN_DATA);
    case ListAction => ListSpeaks(s, args, e.env, true);
    case NlstAction => ListSpeaks(s, args, e.env, false);
  }

  /** Refusals after which the data connection is closed: every one of LIST and NLST but 425, and the 550 of
      STOR. */
  ghost predicate ClosesOnRefusal(s: State, t: State, h: Handler) {
    match h
    case StorAction => Says(s, t, FILE_ACTION_NOT_TAKEN_PERM)
    case ListAction | NlstAction => Says(s, t, SYNTAX_ERROR_PARAMS) || Says(s, t, FILE_ACTION_NOT_TAKEN_PERM)
    case _ => false
  }

  /** A refused transfer has the data connection closed after the reply exactly in these cases, unless that was to
      happen anyway. */
  lemma RefusalCloses(s: State, site: Site, e: Event)
    requires e.Line? && IsTransfer(HandlerFor(s, e)) && Refuses(s, Step(s, site, e))
    ensures Step(s, site, e).controlCb
         == if ClosesOnRefusal(s, Step(s, site, e), HandlerFor(s, e)) then CloseData else s.controlCb
  {
    hide Step, HandlerFor, Parse, Says, Stor, Retr, List, ParseList, IsPathSafe;
    hide RetrUnanswered, ListOpens, ListsNothing;
    var h, args := HandlerFor(s, e), Parse(e.input).args;
    LineRuns(s, site, e);
    TransferRuns(s, site, args, e.env);
    var t := Step(s, site, e);
    match h
    case StorAction => StorSpeaks(s, site, args, e.env);
    case RetrAction => RetrSpeaks(s, site, args, e.env);
    case ListAction => ListSpeaks(s, args, e.env, true); WhichRefusal(s, t);
    case NlstAction => ListSpeaks(s, args, e.env, false); WhichRefusal(s, t);
  }

  lemma WhichRefusal(s: State, t: State)
    requires Refuses(s, t) && exists n :: Speaks(s, t, n, RepliesFor(ListAction))
    ensures Says(s, t, SYNTAX_ERROR_PARAMS) || Says(s, t, FILE_ACTION_NOT_TAKEN_PERM) || Says(s, t, CANNOT_OPEN_DATA)
  {
    var i :| |s.w.replies| <= i < |t.w.replies| && t.w.replies[i].code >= 400;
  }

  lemma CodesOnly(s: State, t: State, h: Handler, code: nat)
    requires code !in RepliesFor(h)
    requires exists n :: Speaks(s, t, n, RepliesFor(h))
    ensures !Says(s, t, code)
  {
  }

  /** Before login 331 is said exactly to an accepted USER and 230 exactly to an accepted PASS. */
  lemma LoginAnswers(s: State, site: Site, e: Event)
    requires e.Line? && !s.authenticated
    ensures Says(s, Step(s, site, e), USER_NAME_OK) <==> IsAcceptedUser(s, e)
    ensures Says(s, Step(s, site, e), USER_LOGGED_IN) <==> IsAcceptedPass(s, e)
  {
    hide Step, Select, Parse, Says, User, Pass, OnCommand, RepliesFor;
    hide ListsNothing, RetrUnanswered, Refuses, NothingDone;
    var cmd := Parse(e.input);
    var h := HandlerFor(s, e);
    var t := Step(s, site, e);
    LineRuns(s, site, e);
    SelectNames(cmd.command, false);
    SelectRespectsLogin(cmd.command, false);
    LoginRuns(s, site, cmd.args, e.env);
    CommandSpeaks(s, site, h, cmd.args, e.env);
    UserSpeaks(s, cmd.args, e.env);
    PassSpeaks(s, cmd.args, e.env);
    LoginCodes(h);
    if h != UserAction {
      CodesOnly(s, t, h, USER_NAME_OK);
    }
    if h != PassAction {
      CodesOnly(s, t, h, USER_LOGGED_IN);
    }
  }

  lemma LoginCodes(h: Handler)
    ensures h != UserAction ==> USER_NAME_OK !in RepliesFor(h)
    ensures h != PassAction && h != AlreadyAuthenticated ==> USER_LOGGED_IN !in RepliesFor(h)
    ensures SERVICE_NOT_AVAILABLE !in RepliesFor(h)
  {
  }

  lemma LoginRuns(s: State, site: Site, args: seq<string>, env: Env)
    ensures OnCommand(s, site, UserAction, args, env) == User(s, args, env)
    ensures OnCommand(s, site, PassAction, args, env) == Pass(s, args, env)
  {
    hide User, Pass;
  }
}
