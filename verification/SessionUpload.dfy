/** STOR: whatever the order of commands and events, the file ends up as the bytes received. */
module SessionUpload {
  import opened Options
  import opened CommandParser
  import opened Disks
  import opened Dispatch
  import opened Replies
  import opened Session
  import opened SessionInvariant
  import opened SessionFrames

  // ---------------------------------------------------------------- what events do to an upload

  ghost predicate Continues(s: State, t: State) {
    SameUpload(s, t) || Ended(s, t)
  }

  lemma DataWriteUpload(s: State, drained: bool, got: int)
    ensures SameUpload(s, OnDataWrite(s, drained, got))
  {
    hide SendNextChunk, Say, SameUpload;
    UploadReflexive(s);
    ControlUpload(s, CloseData);
    SayFrame(s, s.(controlCb := CloseData), DATA_CONNECTION_CLOSING, "Transfer complete");
    SayFrame(s, s.(controlCb := CloseData), DATA_CONNECTION_CLOSING, "Directory send OK");
    if s.stream.Some? {
      ChunkFrame(s, got);
    }
  }

  lemma ControlUpload(s: State, cb: ControlCb)
    ensures SameUpload(s, s.(controlCb := cb))
  {
    hide Clean;
  }

  lemma TimerUpload(s: State, id: nat)
    ensures SameUpload(s, OnTimer(s, id))
  {
    hide Say, DropListener, Clean, SameReceived;
    UploadReflexive(s);
    var t := s.(w := s.w.(armed := s.w.armed - {id}));
    assert SameUpload(s, t);
    SayFrame(s, t.(controlCb := DisableControl), SERVICE_NOT_AVAILABLE, "Control connection timed out !");
    DropFrame(t);
    DataIsBoth(t, DropListener(t));
    UploadTransitive(s, t, DropListener(t));
  }

  lemma CloseEnds(s: State)
    ensures Ended(s, Close(s)) && SameSelf(s, Close(s))
  {
    hide Clean, Close;
    CloseFrame(s);
  }

  lemma ControlWrittenUpload(s: State)
    ensures Continues(s, OnControlWritten(s))
    ensures var t := OnControlWritten(s); t.uploadFd == Closed || t.uploadFd == s.uploadFd
  {
    hide Close, Clean;
    CloseEnds(s);
    CloseForgetsUpload(s);
  }

  lemma ConnectedUpload(s: State, listing: Lister)
    ensures Continues(s, OnConnected(s, listing))
  {
    hide SendListing, Close, Clean;
    if s.bev.Some? {
      var t := s.(dataActive := s.dataActive + 1, bev := Some(s.bev.value.(handshaken := true)));
      assert SameUpload(s, t);
      ListingFrame(t, listing(t.cwd, t.saved));
      UploadTransitive(s, t, SendListing(t, listing(t.cwd, t.saved)));
      CloseEnds(t);
    }
  }

  lemma DataEventUpload(s: State, connected: bool, timeout: bool, error: bool, listing: Lister)
    ensures Continues(s, OnDataEvent(s, connected, timeout, error, false, listing))
  {
    hide OnConnected, Close, Clean, SameReceived;
    UploadReflexive(s);
    ConnectedUpload(s, listing);
    var t := if connected then OnConnected(s, listing) else s;
    CloseEnds(t);
  }

  // ---------------------------------------------------------------- the end of the stream

  /** At the end of the stream the connection is closed. If an upload is under way its file is then
      everything received since the STOR and one 226 says so; if none is, nothing is said and no file
      changes. The storage error is never reported. */
  lemma EofCompletes(s: State, timeout: bool, error: bool, listing: Lister)
    requires Inv(s) && s.bev.Some?
    ensures var t := OnDataEvent(s, false, timeout, error, true, listing);
      && t.bev.None? && t.eofCb == NoEof && t.uploadFd == Closed && SameSelf(s, t) && t.w.nextId == s.w.nextId
      && (if s.eofCb == StorEof
          then t.w.replies == s.w.replies + [Reply(DATA_CONNECTION_CLOSING, "Transfer complete")]
            && s.uploadFd.File? && s.storBase <= |s.bev.value.received|
            && t.w.disk == s.w.disk.(
              files := s.w.disk.files[s.uploadFd.file := s.bev.value.received[s.storBase..]])
          else t.w.replies == s.w.replies && t.w.disk == s.w.disk)
  {
    hide LoopOk, LoginOk, DataOk, RetrOk, DiskOk, Close;
    CloseFrame(OnEof(s));
    CloseForgetsUpload(OnEof(s));
    if s.eofCb == StorEof {
      DrainInv(s);
      var b := s.bev.value;
      assert b.received[s.storBase..Taken(b)] + b.input == b.received[s.storBase..];
    }
  }

  lemma CloseForgetsUpload(s: State)
    ensures Close(s).uploadFd == Closed
  {
  }

  /** The same when the handshake is reported together with the end. */
  lemma EofGrows(s: State, connected: bool, timeout: bool, error: bool, listing: Lister)
    requires Inv(s) && s.bev.Some?
    requires connected ==> s.bev.value.tls && !s.bev.value.handshaken
    ensures var t := OnDataEvent(s, connected, timeout, error, true, listing);
      t.bev.None? && t.eofCb == NoEof && Grows(s.w, t.w)
  {
    hide Inv, OnConnected, OnEof, Close, Clean;
    var t := if connected then OnConnected(s, listing) else s;
    if connected {
      ConnectedInv(s, listing);
      ConnectedUpload(s, listing);
    }
    CloseFrame(OnEof(t));
    if t.bev.Some? {
      EofCompletes(t, timeout, error, listing);
      AddedReply(t.w.replies, DATA_CONNECTION_CLOSING, "Transfer complete");
    } else {
      NothingToEnd(t);
    }
    assert Grows(t.w, OnEof(t).w);
  }

  lemma NothingToEnd(s: State)
    requires s.bev.None?
    ensures OnEof(s) == s
  {
  }

  lemma AddedReply(replies: seq<Reply>, code: nat, text: string)
    requires code != INSUFFICIENT_STORAGE
    ensures Clean(replies) ==> Clean(replies + [Reply(code, text)])
  {
  }

  // ---------------------------------------------------------------- one step

  /** Whether the event is a line that runs STOR. */
  predicate RunsStor(s: State, e: Event) {
    e.Line? && Select(Parse(e.input).command, s.authenticated) == StorAction
  }

  /** Whether it is one that opens a file. */
  predicate StartsUpload(s: State, e: Event) {
    RunsStor(s, e) && StorOpens(s, Parse(e.input).args, e.env)
  }

  /** Whether it is one that opens this file. */
  predicate StorsInto(s: State, site: Site, e: Event, file: nat) {
    StartsUpload(s, e) && Target(s.w.disk, site.resolve(s.cwd, Parse(e.input).args[0])) == file
  }

  function SegmentOf(e: Event): Bytes {
    if e.Segment? then e.bytes else ""
  }

  /** What arrived over the data connection during these events. */
  function Sent(events: seq<Event>): Bytes {
    if events == [] then "" else SegmentOf(events[0]) + Sent(events[1..])
  }

  /** Reading only takes bytes out of the buffer and writes them to the file of the upload. */
  lemma DataReadUpload(s: State)
    requires Inv(s) && s.bev.Some?
    ensures var t := OnDataRead(s);
      && t.bev.Some? && t.bev.value.id == s.bev.value.id && t.bev.value.received == s.bev.value.received
      && t.eofCb == s.eofCb && t.uploadFd == s.uploadFd && t.storBase == s.storBase && Grows(s.w, t.w)
      && t.w.disk.next == s.w.disk.next
      && forall file :: s.uploadFd != File(file) ==> SameFile(s.w.disk, t.w.disk, file)
  {
    hide LoopOk, LoginOk, DataOk, RetrOk, DiskOk, Clean;
  }

  lemma AcceptGrows(s: State, site: Site, peer: string, created: bool)
    requires s.bev.None?
    ensures var t := OnAccept(s, site, peer, created);
      && Grows(s.w, t.w) && t.w.disk == s.w.disk && t.eofCb == s.eofCb && t.uploadFd == s.uploadFd
      && (t.bev.Some? ==> t.bev.value.id == s.w.nextId && t.bev.value.received == "")
  {
    hide Clean;
  }

  lemma SegmentUpload(s: State, bytes: Bytes)
    requires s.bev.Some?
    ensures var t := OnSegment(s, bytes);
      && t.bev.Some? && t.bev.value.id == s.bev.value.id && t.bev.value.received == s.bev.value.received + bytes
      && t.eofCb == s.eofCb && t.uploadFd == s.uploadFd && t.storBase == s.storBase && t.w == s.w
  {
  }

  /** The file is none that is being written, and the event does not open it for writing. */
  ghost predicate LeavesFile(s: State, site: Site, e: Event, file: nat) {
    file < s.w.disk.next && s.uploadFd != File(file) && !StorsInto(s, site, e, file)
  }

  /** What one step does for receiving: a connection is the one before or a new one, what it received
      is extended by what arrived, an upload goes on unless a STOR or the end of the connection
      intervenes, and a file that no upload is about does not change. */
  ghost predicate Receives(s: State, site: Site, e: Event, t: State) {
    && Grows(s.w, t.w)
    && (t.bev.Some? && !(s.bev.Some? && t.bev.value.id == s.bev.value.id) ==> t.bev.value.id >= s.w.nextId)
    && (t.bev.Some? && s.bev.Some? && t.bev.value.id == s.bev.value.id ==>
         && t.bev.value.received == s.bev.value.received + SegmentOf(e)
         && (!StartsUpload(s, e) ==> t.eofCb == s.eofCb && t.uploadFd == s.uploadFd && t.storBase == s.storBase))
    && (!StartsUpload(s, e) && s.eofCb == NoEof ==> t.eofCb == NoEof)
    && s.w.disk.next <= t.w.disk.next
    && forall file :: LeavesFile(s, site, e, file) ==>
         t.uploadFd != File(file) && SameFile(s.w.disk, t.w.disk, file)
  }

  lemma ContinuesReceives(s: State, site: Site, e: Event, t: State)
    requires Continues(s, t) && SegmentOf(e) == ""
    requires Ended(s, t) ==> t.uploadFd == Closed || t.uploadFd == s.uploadFd
    ensures Receives(s, site, e, t)
  {
    hide Clean, StartsUpload, StorsInto;
  }

  lemma LineReceives(s: State, site: Site, e: Event)
    requires e.Line?
    ensures Receives(s, site, e, Step(s, site, e))
  {
    hide OnCommand, Select, Parse, Receives, Continues, Clean, SameUpload, Ended;
    var cmd := Parse(e.input);
    var handler := Select(cmd.command, s.authenticated);
    if handler == StorAction {
      StorReceives(s, site, e);
    } else {
      CommandUpload(s, site, handler, cmd.args, e.env);
      JoinContinues(s, Step(s, site, e));
      CommandEnds(s, site, handler, cmd.args, e.env);
      ContinuesReceives(s, site, e, Step(s, site, e));
    }
  }

  lemma JoinContinues(s: State, t: State)
    requires SameUpload(s, t) || Ended(s, t)
    ensures Continues(s, t)
  {
    hide SameUpload, Ended;
  }

  /** A command that closes the connection forgets the upload. */
  lemma CommandEnds(s: State, site: Site, handler: Handler, args: seq<string>, env: Env)
    requires handler != StorAction
    ensures var t := OnCommand(s, site, handler, args, env);
      t.uploadFd == Closed || t.uploadFd == s.uploadFd
  {
    hide OnCommand, Abor, Clean;
    if handler == AborAction {
      AborEnds(s);
      AborRuns(s, site, args, env);
    } else {
      CommandUpload(s, site, handler, args, env);
      CommandOpen(s, site, handler, args, env);
    }
  }

  lemma AborEnds(s: State)
    ensures Abor(s).uploadFd == Closed || Abor(s).uploadFd == s.uploadFd
  {
  }

  lemma CommandOpen(s: State, site: Site, handler: Handler, args: seq<string>, env: Env)
    requires handler != StorAction && handler != AborAction
    ensures OnCommand(s, site, handler, args, env).uploadFd == s.uploadFd
  {
    hide OnCommand, Stor, Retr, List, Abor, Cwd, Dele, Clean, SameReceived;
    TransferRuns(s, site, args, env);
    if TransferHandler(handler) {
      match handler
      case RetrAction => RetrFrame(s, site, args, env);
      case ListAction => ListFrame(s, args, env, true);
      case NlstAction => ListFrame(s, args, env, false);
      case CwdAction => CwdFrame(s, site, args, env);
      case DeleAction => DeleFrame(s, env);
    } else {
      BystanderFrame(s, site, handler, args, env);
    }
  }

  lemma StorReceives(s: State, site: Site, e: Event)
    requires RunsStor(s, e)
    ensures Receives(s, site, e, Step(s, site, e))
  {
    hide Stor, Clean, Select, Parse;
    StorFrame(s, site, Parse(e.input).args, e.env);
  }

  lemma StepReceives(s: State, site: Site, e: Event)
    requires Inv(s) && Enabled(s, site, e)
    ensures Receives(s, site, e, Step(s, site, e))
  {
    hide OnAccept, OnSegment, OnDataEvent, OnDataRead, OnDataWrite, OnControlWritten, OnTimer, OnCommand;
    hide Inv, Select, Parse, SameUpload, Ended, Clean, SameFile;
    SameFileReflexive(s.w.disk);
    match e
    case Line(_, _) => LineReceives(s, site, e);
    case Accept(peer, created) => AcceptGrows(s, site, peer, created);
    case Segment(bytes) => SegmentUpload(s, bytes);
    case DataEvent(connected, timeout, error, eof, listing) =>
      if eof {
        EofGrows(s, connected, timeout, error, listing);
        EofKeepsFiles(s, connected, timeout, error, listing);
      } else {
        DataEventUpload(s, connected, timeout, error, listing);
        DataEventOpen(s, connected, timeout, error, listing);
        ContinuesReceives(s, site, e, Step(s, site, e));
      }
    case DataRead => DataReadUpload(s);
    case DataWrite(drained, got) =>
      DataWriteUpload(s, drained, got);
      KeepsOpen(s, OnDataWrite(s, drained, got));
      ContinuesReceives(s, site, e, Step(s, site, e));
    case ControlWritten =>
      ControlWrittenUpload(s);
      ContinuesReceives(s, site, e, Step(s, site, e));
    case ControlGone =>
      GoneUpload(s);
      KeepsOpen(s, OnControlGone(s));
      ContinuesReceives(s, site, e, Step(s, site, e));
    case TimerFires(id) =>
      TimerUpload(s, id);
      KeepsOpen(s, OnTimer(s, id));
      ContinuesReceives(s, site, e, Step(s, site, e));
  }

  lemma SameFileReflexive(d: Disk)
    ensures forall file :: SameFile(d, d, file)
  {
  }

  lemma KeepsOpen(s: State, t: State)
    requires SameUpload(s, t)
    ensures Continues(s, t) && t.uploadFd == s.uploadFd
  {
    hide SameReceived, Clean;
  }

  lemma GoneUpload(s: State)
    ensures SameUpload(s, OnControlGone(s))
  {
    hide Clean;
  }

  lemma ConnectedOpen(s: State, listing: Lister)
    ensures var t := OnConnected(s, listing); t.uploadFd == Closed || t.uploadFd == s.uploadFd
    ensures s.eofCb == NoEof ==> OnConnected(s, listing).eofCb == NoEof
    ensures OnConnected(s, listing).w.disk == s.w.disk
  {
    hide SendListing, Close, Clean;
    if s.bev.Some? {
      var t := s.(dataActive := s.dataActive + 1, bev := Some(s.bev.value.(handshaken := true)));
      ListingFrame(t, listing(t.cwd, t.saved));
      CloseForgetsUpload(t);
      CloseFrame(t);
    }
  }

  lemma DataEventOpen(s: State, connected: bool, timeout: bool, error: bool, listing: Lister)
    ensures var t := OnDataEvent(s, connected, timeout, error, false, listing);
      t.uploadFd == Closed || t.uploadFd == s.uploadFd
  {
    hide OnConnected, Close;
    ConnectedOpen(s, listing);
    CloseForgetsUpload(if connected then OnConnected(s, listing) else s);
  }

  /** The end of a stream writes only to the file of the upload. */
  lemma EofKeepsFiles(s: State, connected: bool, timeout: bool, error: bool, listing: Lister)
    requires Inv(s) && s.bev.Some?
    requires connected ==> s.bev.value.tls && !s.bev.value.handshaken
    ensures var t := OnDataEvent(s, connected, timeout, error, true, listing);
      && t.uploadFd == Closed && t.w.disk.next == s.w.disk.next
      && forall file :: s.uploadFd != File(file) ==> SameFile(s.w.disk, t.w.disk, file)
  {
    hide Inv, OnConnected, OnEof, Close, Clean;
    var t := if connected then OnConnected(s, listing) else s;
    ConnectedOpen(s, listing);
    if connected {
      ConnectedInv(s, listing);
    }
    CloseFrame(OnEof(t));
    CloseForgetsUpload(OnEof(t));
    EofWrites(t);
  }

  lemma EofWrites(s: State)
    ensures OnEof(s).w.disk.next == s.w.disk.next
    ensures forall file :: s.uploadFd != File(file) ==> SameFile(s.w.disk, OnEof(s).w.disk, file)
  {
    hide Drain, SameFile;
    DrainWrites(s);
    SameFileReflexive(s.w.disk);
  }

  lemma DrainWrites(s: State)
    ensures Drain(s).w.disk.next == s.w.disk.next
    ensures forall file :: s.uploadFd != File(file) ==> SameFile(s.w.disk, Drain(s).w.disk, file)
  {
  }

  // ---------------------------------------------------------------- over a run

  /** A connection number that was given out and is not in use any more. */
  ghost predicate Elsewhere(s: State, id: nat) {
    id < s.w.nextId && !(s.bev.Some? && s.bev.value.id == id)
  }

  /** A data connection that is gone does not come back. */
  lemma {:induction false} GoneForever(s: State, site: Site, events: seq<Event>, id: nat)
    requires Inv(s) && RunEnabled(s, site, events) && Elsewhere(s, id)
    ensures Elsewhere(Run(s, site, events), id)
    decreases events
  {
    hide Inv, Step, Enabled, StartsUpload, LeavesFile, Clean;
    if events != [] {
      StepReceives(s, site, events[0]);
      StepInv(s, site, events[0]);
      GoneForever(Step(s, site, events[0]), site, events[1..], id);
    }
  }

  /** No storage error is ever reported to a client. */
  lemma {:induction false} NeverAStorageError(s: State, site: Site, events: seq<Event>)
    requires Inv(s) && RunEnabled(s, site, events) && Clean(s.w.replies)
    ensures Clean(Run(s, site, events).w.replies)
    decreases events
  {
    hide Inv, Step, Enabled, StartsUpload, LeavesFile, Clean;
    if events != [] {
      StepReceives(s, site, events[0]);
      StepInv(s, site, events[0]);
      NeverAStorageError(Step(s, site, events[0]), site, events[1..]);
    }
  }

  /** No upload starts. */
  ghost predicate NoUploadStarts(s: State, site: Site, events: seq<Event>)
    decreases events
  {
    events != [] ==> !StartsUpload(s, events[0]) && NoUploadStarts(Step(s, site, events[0]), site, events[1..])
  }

  /** No STOR opens this file. */
  ghost predicate NoStorInto(s: State, site: Site, events: seq<Event>, file: nat)
    decreases events
  {
    events != [] ==>
      !StorsInto(s, site, events[0], file) && NoStorInto(Step(s, site, events[0]), site, events[1..], file)
  }

  lemma {:induction false} NoUploadNoStor(s: State, site: Site, events: seq<Event>, file: nat)
    requires NoUploadStarts(s, site, events)
    ensures NoStorInto(s, site, events, file)
    decreases events
  {
    hide Step, StartsUpload;
    if events != [] {
      NoUploadNoStor(Step(s, site, events[0]), site, events[1..], file);
    }
  }

  /** A file that no upload is writing, and that no STOR opens, does not change. */
  lemma {:induction false} FileKept(s: State, site: Site, events: seq<Event>, file: nat)
    requires Inv(s) && RunEnabled(s, site, events) && NoStorInto(s, site, events, file)
    requires file < s.w.disk.next && s.uploadFd != File(file)
    ensures var t := Run(s, site, events);
      t.uploadFd != File(file) && SameFile(s.w.disk, t.w.disk, file)
    decreases events
  {
    hide Inv, Step, Enabled, StorsInto, StartsUpload, Clean;
    if events != [] {
      StepReceives(s, site, events[0]);
      StepInv(s, site, events[0]);
      assert LeavesFile(s, site, events[0], file);
      FileKept(Step(s, site, events[0]), site, events[1..], file);
    }
  }

  /** While its connection lives an upload goes on, and what it received grows by what is sent. */
  lemma {:induction false} UploadGoesOn(s: State, site: Site, events: seq<Event>)
    requires Inv(s) && RunEnabled(s, site, events) && NoUploadStarts(s, site, events) && s.bev.Some?
    requires var t := Run(s, site, events); t.bev.Some? && t.bev.value.id == s.bev.value.id
    ensures var t := Run(s, site, events);
      && t.bev.value.received == s.bev.value.received + Sent(events)
      && t.eofCb == s.eofCb && t.uploadFd == s.uploadFd && t.storBase == s.storBase
    decreases events
  {
    hide Inv, Step, Enabled, StartsUpload, LeavesFile, Clean;
    if events != [] {
      var t := Step(s, site, events[0]);
      BevNumbered(s);
      StepReceives(s, site, events[0]);
      StepInv(s, site, events[0]);
      if Elsewhere(t, s.bev.value.id) {
        GoneForever(t, site, events[1..], s.bev.value.id);
      }
      UploadGoesOn(t, site, events[1..]);
    }
  }

  lemma BevNumbered(s: State)
    requires Inv(s)
    ensures s.bev.Some? ==> s.bev.value.id < s.w.nextId
  {
    hide LoopOk, DataOk, StorOk, RetrOk, DiskOk;
  }

  /** A STOR line that opens this file. */
  ghost predicate AcceptsStor(s: State, site: Site, e: Event, name: string) {
    StartsUpload(s, e) && site.resolve(s.cwd, Parse(e.input).args[0]) == name
  }

  lemma StorStarts(s: State, site: Site, e: Event, name: string)
    requires Inv(s) && s.eofCb == NoEof && AcceptsStor(s, site, e, name)
    ensures var t := Step(s, site, e);
      && s.bev.Some? && t.bev == s.bev && t.eofCb == StorEof && t.storBase == 0
      && t.uploadFd == File(Target(s.w.disk, name)) && t.w.disk == Create(s.w.disk, name)
  {
    hide LoopOk, LoginOk, DataOk, RetrOk, DiskOk, Select, Parse, Stor;
    StorFrame(s, site, Parse(e.input).args, e.env);
  }

  /** The file has this content, and every other file that was there has the one it had. */
  ghost predicate Stored(s: State, t: State, file: nat, content: Bytes) {
    && file in t.w.disk.files && t.w.disk.files[file] == content
    && forall other: nat :: other < s.w.disk.next && other != file ==> SameFile(s.w.disk, t.w.disk, other)
  }

  /** The first STOR on a data connection, then anything but another STOR while the connection lives,
      then the end of the stream: the file is everything the client sent on that connection, the reply
      to the end of the stream is one 226, and the connection is closed. Every other file that was
      there is as before the STOR, and names are as before the end. The handshake of a TLS connection
      may come before the STOR, among the events, or not at all; a DELE may even take away the name. */
  lemma UploadStoresWhatWasSent(s: State, site: Site, line: Event, name: string, events: seq<Event>,
                                timeout: bool, error: bool, listing: Lister)
    requires Inv(s) && s.eofCb == NoEof && AcceptsStor(s, site, line, name)
    requires RunEnabled(s, site, [line] + events) && NoUploadStarts(Step(s, site, line), site, events)
    requires var m := Run(s, site, [line] + events);
      m.bev.Some? && m.bev.value.id == s.bev.value.id && !m.w.closed
    ensures
      var m := Run(s, site, [line] + events);
      var end := DataEvent(false, timeout, error, true, listing);
      var t := Run(s, site, [line] + events + [end]);
      && RunEnabled(s, site, [line] + events + [end])
      && Stored(s, t, Target(s.w.disk, name), s.bev.value.received + Sent(events))
      && SamePlaces(m, t)
      && t.w.replies == m.w.replies + [Reply(DATA_CONNECTION_CLOSING, "Transfer complete")]
      && t.bev.None? && t.eofCb == NoEof && t.uploadFd == Closed && Inv(t)
  {
    hide Inv, Step, StartsUpload, AcceptsStor, Select, Parse, Clean, OnDataEvent, Create, Target, SameFile;
    var file := Target(s.w.disk, name);
    var end := DataEvent(false, timeout, error, true, listing);
    var u := Step(s, site, line);
    var m := Run(s, site, [line] + events);
    RunConcat(s, site, [line], events);
    RunOne(s, site, line);
    StorStarts(s, site, line, name);
    StepInv(s, site, line);
    RunInv(u, site, events);
    UploadGoesOn(u, site, events);
    RunConcat(s, site, [line] + events, [end]);
    RunOne(m, site, end);
    EofCompletes(m, timeout, error, listing);
    StepInv(m, site, end);
    EndStep(m, site, timeout, error, listing);
    assert m.bev.value.received[0..] == m.bev.value.received;
    forall other: nat | other < s.w.disk.next && other != file
      ensures SameFile(s.w.disk, Step(m, site, end).w.disk, other)
    {
      OtherFileCreated(s.w.disk, name, other);
      NoUploadNoStor(u, site, events, other);
      FileKept(u, site, events, other);
      OtherFileWritten(m.w.disk, Step(m, site, end).w.disk, file, other);
      SameFileTransitive(s.w.disk, u.w.disk, m.w.disk, other);
      SameFileTransitive(s.w.disk, m.w.disk, Step(m, site, end).w.disk, other);
    }
  }

  lemma OtherFileCreated(d: Disk, name: string, other: nat)
    requires other != Target(d, name) && other < d.next
    ensures SameFile(d, Create(d, name), other) && other < Create(d, name).next
  {
  }

  lemma OtherFileWritten(d: Disk, d': Disk, file: nat, other: nat)
    requires other != file && d'.files.Keys == d.files.Keys + {file}
    requires forall f :: f in d.files && f != file ==> f in d'.files && d'.files[f] == d.files[f]
    ensures SameFile(d, d', other)
  {
  }

  lemma SameFileTransitive(a: Disk, b: Disk, c: Disk, file: nat)
    requires SameFile(a, b, file) && SameFile(b, c, file)
    ensures SameFile(a, c, file)
  {
  }

  lemma EndStep(s: State, site: Site, timeout: bool, error: bool, listing: Lister)
    ensures var end := DataEvent(false, timeout, error, true, listing);
      Step(s, site, end) == OnDataEvent(s, false, timeout, error, true, listing)
  {
    hide OnDataEvent;
  }

  // ---------------------------------------------------------------- once per STOR

  /** Whether this event ends a stream with an upload under way, so that its 226 is sent. */
  predicate CompletesUpload(s: State, e: Event) {
    && e.DataEvent? && e.eof
    && (if e.connected then OnConnected(s, e.listing) else s).eofCb == StorEof
  }

  function Completions(s: State, site: Site, events: seq<Event>): nat
    decreases events
  {
    if events == [] then 0
    else (if CompletesUpload(s, events[0]) then 1 else 0) + Completions(Step(s, site, events[0]), site, events[1..])
  }

  function UploadsStarted(s: State, site: Site, events: seq<Event>): nat
    decreases events
  {
    if events == [] then 0
    else (if StartsUpload(s, events[0]) then 1 else 0) + UploadsStarted(Step(s, site, events[0]), site, events[1..])
  }

  function Pending(s: State): nat {
    if s.eofCb == StorEof then 1 else 0
  }

  lemma PendingStep(s: State, site: Site, e: Event)
    requires Inv(s) && Enabled(s, site, e)
    ensures (if CompletesUpload(s, e) then 1 else 0) + Pending(Step(s, site, e))
         <= (if StartsUpload(s, e) then 1 else 0) + Pending(s)
  {
    hide Inv, OnConnected, StartsUpload, LeavesFile, Clean, Step;
    StepReceives(s, site, e);
    if CompletesUpload(s, e) {
      NotAStor(s, e);
      EofGrows(s, e.connected, e.timeout, e.error, e.listing);
      EofStep(s, site, e);
      if e.connected {
        ConnectedUpload(s, e.listing);
      }
    }
  }

  lemma NotAStor(s: State, e: Event)
    requires !e.Line?
    ensures !StartsUpload(s, e)
  {
  }

  lemma EofStep(s: State, site: Site, e: Event)
    requires e.DataEvent? && e.eof
    ensures Step(s, site, e) == OnDataEvent(s, e.connected, e.timeout, e.error, true, e.listing)
  {
    hide OnDataEvent;
  }

  /** Every STOR that opens a file completes at most once: with a 226 sent at the end of a stream it is
      used up. */
  lemma {:induction false} EachStorCompletesOnce(s: State, site: Site, events: seq<Event>)
    requires Inv(s) && RunEnabled(s, site, events)
    ensures Completions(s, site, events) + Pending(Run(s, site, events)) <= UploadsStarted(s, site, events) + Pending(s)
    decreases events
  {
    hide Inv, Step, Enabled, StartsUpload, CompletesUpload, Pending;
    if events != [] {
      PendingStep(s, site, events[0]);
      StepInv(s, site, events[0]);
      EachStorCompletesOnce(Step(s, site, events[0]), site, events[1..]);
    }
  }
}
