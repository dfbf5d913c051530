/** How transfers end: the reply that says so, the data connection closed after it, and what ABOR and a broken
    connection leave behind. */
module SessionEndings {
  import opened Options
  import opened CommandOptions
  import opened CommandParser
  import opened Disks
  import opened Dispatch
  import opened Replies
  import opened Session
  import opened SessionInvariant
  import opened SessionFrames
  import opened SessionLogin
  import opened SessionUpload
  import opened SessionDownload
  import opened SessionListing
  import opened SessionReplies
  import opened SessionControl

  // ---------------------------------------------------------------- completion

  /** The event says that a transfer is over, in one reply and with nothing else said, and whatever comes then,
      once a reply has been written there is no data connection, no data callback and no upload any more. */
  ghost predicate CompletesWith(s: State, site: Site, e: Event, later: seq<Event>, reply: Reply) {
    var t := Run(s, site, [e] + later + [ControlWritten]);
    && Step(s, site, e).w.replies == s.w.replies + [reply]
    && s.w.replies + [reply] <= t.w.replies
    && NoDataConnection(t) && t.uploadFd == Closed && t.controlCb == NoControl && !t.w.closed
  }

  lemma CompletionSaid(s: State, drained: bool, got: int)
    requires s.writeCb in {PlainDone, RetrDone, ListDone} && (drained || s.writeCb != PlainDone)
    ensures
      var t := OnDataWrite(s, drained, got);
      && t.controlCb == CloseData && t.writeCb == s.writeCb && t.bev == s.bev
      && t.w.replies == s.w.replies + [CompletionOf(s.writeCb)]
  {
  }

  lemma ClosesNext(s: State, site: Site, e: Event, later: seq<Event>, reply: Reply)
    requires Inv(s) && s.authenticated && NoFlush(later) && RunEnabled(s, site, [e] + later + [ControlWritten])
    requires Step(s, site, e).controlCb == CloseData && Step(s, site, e).w.replies == s.w.replies + [reply]
    ensures CompletesWith(s, site, e, later, reply)
  {
    hide Inv, Step, Enabled, Run, RunEnabled, NoFlush, NoDataConnection;
    assert [e] + later + [ControlWritten] == [e] + (later + [ControlWritten]);
    RunConcat(s, site, [e], later + [ControlWritten]);
    RunOne(s, site, e);
    StepInv(s, site, e);
    LoginStep(s, site, e);
    ClosesAfterTheReply(Step(s, site, e), site, later);
    RepliesStay(Step(s, site, e), site, later + [ControlWritten]);
  }

  /** With a completion callback installed, the next write callback ends the transfer. */
  lemma WriteCompletes(s: State, site: Site, write: Event, later: seq<Event>)
    requires Inv(s) && s.authenticated && s.writeCb in {PlainDone, RetrDone, ListDone}
    requires write.DataWrite? && (write.drained || s.writeCb != PlainDone)
    requires NoFlush(later) && RunEnabled(s, site, [write] + later + [ControlWritten])
    ensures CompletesWith(s, site, write, later, CompletionOf(s.writeCb))
  {
    hide Inv, Step, Enabled, Run, RunEnabled, NoFlush, OnDataWrite, CompletesWith, CompletionOf;
    WriteStep(s, site, write);
    CompletionSaid(s, write.drained, write.got);
    ClosesNext(s, site, write, later, CompletionOf(s.writeCb));
  }

  lemma StaysLoggedIn(s: State, site: Site, e: Event, events: seq<Event>)
    requires e.Line? && HandlerFor(s, e) in {RetrAction, ListAction, NlstAction}
    ensures s.authenticated && Run(s, site, [e] + events).authenticated
  {
    hide Run, Select, Parse;
    SelectRespectsLogin(Parse(e.input).command, s.authenticated);
    LoginIsForever(s, site, [e] + events);
  }

  /** RETR over TLS, as above, then one more write callback: it says that the transfer is complete, and then the
      data connection is closed, exactly when the whole file has been handed over; before that it says nothing. */
  lemma TlsRetrCompletes(s: State, site: Site, line: Event, file: nat, events: seq<Event>, write: Event,
                         later: seq<Event>)
    requires Inv(s) && !ListingDue(s) && AcceptsRetr(s, site, line, file) && s.uploadFd != File(file)
    requires RunEnabled(s, site, [line] + events) && Undisturbed(Step(s, site, line), site, events, file)
    requires var t := Run(s, site, [line] + events);
      && s.bev.Some? && t.bev.Some? && t.bev.value.id == s.bev.value.id
      && write.DataWrite? && NoFlush(later) && RunEnabled(t, site, [write] + later + [ControlWritten])
    ensures
      var t := Run(s, site, [line] + events);
      var whole := |t.bev.value.output| >= |s.bev.value.output|
        && t.bev.value.output[|s.bev.value.output|..] == Content(s.w.disk, file);
      && (whole ==> CompletesWith(t, site, write, later, Reply(226, "Transfer complete")))
      && (!whole ==> Step(t, site, write).w == t.w)
      && (Writes(events) + 1 >= |Content(s.w.disk, file)| ==> whole)
  {
    hide Inv, Step, Enabled, AcceptsRetr, Undisturbed, Content, Run, RunEnabled, NoFlush, CompletesWith, OnDataWrite;
    var t := Run(s, site, [line] + events);
    DownloadHandsOverTheFile(s, site, line, file, events);
    RetrLine(s, site, line, file);
    StaysLoggedIn(s, site, line, events);
    RunInv(s, site, [line] + events);
    WriteStep(t, site, write);
    ContentThere(s.w.disk, file);
    SendingOrDone(s, site, line, file, events);
    if t.writeCb == RetrDone {
      WriteCompletes(t, site, write, later);
    } else {
      ChunkSaysNothing(t, write.drained, write.got);
    }
  }

  lemma RetrLine(s: State, site: Site, e: Event, file: nat)
    requires AcceptsRetr(s, site, e, file)
    ensures e.Line? && HandlerFor(s, e) == RetrAction
  {
    hide Select, Parse;
  }

  lemma ContentThere(d: Disk, file: nat)
    ensures file in d.files ==> Content(d, file) == d.files[file]
  {
  }

  lemma SendingOrDone(s: State, site: Site, line: Event, file: nat, events: seq<Event>)
    requires Inv(s) && !ListingDue(s) && AcceptsRetr(s, site, line, file) && s.uploadFd != File(file)
    requires RunEnabled(s, site, [line] + events) && Undisturbed(Step(s, site, line), site, events, file)
    requires var t := Run(s, site, [line] + events);
      s.bev.Some? && t.bev.Some? && t.bev.value.id == s.bev.value.id
    ensures Run(s, site, [line] + events).writeCb in {NextChunk, RetrDone}
  {
    hide Inv, Step, Enabled, AcceptsRetr, Undisturbed, Offset;
    RunConcat(s, site, [line], events);
    RunOne(s, site, line);
    StepInv(s, site, line);
    RetrStarts(s, site, line, file);
    DownloadGoesOn(Step(s, site, line), site, events, s.bev.value.id, file, s.w.disk.files[file], |s.bev.value.output|);
  }

  lemma ChunkSaysNothing(s: State, drained: bool, got: int)
    requires s.writeCb == NextChunk
    ensures OnDataWrite(s, drained, got).w == s.w
  {
    hide SendNextChunk;
    if s.stream.Some? {
      ChunkQuiet(s, got);
    }
  }

  /** RETR without TLS, as above, then a write callback with nothing left to send: it says that the transfer is
      complete, and then the data connection is closed. */
  lemma PlainRetrCompletes(s: State, site: Site, line: Event, file: nat, events: seq<Event>, write: Event,
                           later: seq<Event>)
    requires Inv(s) && AcceptsPlainRetr(s, site, line, file) && s.uploadFd != File(file)
    requires RunEnabled(s, site, [line] + events) && NoSender(Step(s, site, line), site, events)
    requires NoStorInto(Step(s, site, line), site, events, file)
    requires var t := Run(s, site, [line] + events);
      && s.bev.Some? && t.bev.Some? && t.bev.value.id == s.bev.value.id
      && write.DataWrite? && write.drained && NoFlush(later) && RunEnabled(t, site, [write] + later + [ControlWritten])
    ensures CompletesWith(Run(s, site, [line] + events), site, write, later, Reply(226, "Transfer complete"))
  {
    hide Inv, Step, Enabled, AcceptsPlainRetr, NoSender, NoStorInto, Content, Run, RunEnabled, NoFlush, CompletesWith;
    hide OnDataWrite;
    PlainRetrHandsOverTheFile(s, site, line, file, events, write.got);
    PlainLine(s, site, line, file);
    StaysLoggedIn(s, site, line, events);
    RunInv(s, site, [line] + events);
    WriteCompletes(Run(s, site, [line] + events), site, write, later);
  }

  lemma PlainLine(s: State, site: Site, e: Event, file: nat)
    requires AcceptsPlainRetr(s, site, e, file)
    ensures e.Line? && HandlerFor(s, e) == RetrAction
  {
    hide Select, Parse;
  }

  // ---------------------------------------------------------------- listings

  /** A LIST or NLST line answered 150 on a connection without TLS. */
  predicate AcceptsPlainList(s: State, e: Event, request: ListRequest) {
    && e.Line? && s.bev.Some? && !s.tlsRequired
    && var handler := Select(Parse(e.input).command, s.authenticated);
       && handler in {ListAction, NlstAction}
       && ParseList(Parse(e.input).args, handler == ListAction) == Some(request)
       && IsPathSafe(request.path) && e.env.dirOk
  }

  /** It hands over what the path lists in the working directory; with nothing to list it is complete at once. */
  lemma PlainListStarts(s: State, site: Site, e: Event, request: ListRequest)
    requires Inv(s) && AcceptsPlainList(s, e, request)
    ensures
      var t := Step(s, site, e);
      var listing := e.env.listing(s.cwd, request);
      && s.bev.Some?
      && (listing != "" ==>
           && Delivered(t, s.bev.value.id, ListDone, s.bev.value.output + listing)
           && t.w.replies == s.w.replies + [Reply(150, "Here comes the directory listings")])
      && (listing == "" ==>
           && t.bev == s.bev && t.writeCb == s.writeCb && t.controlCb == CloseData
           && t.w.replies
              == s.w.replies + [Reply(150, "Here comes the directory listings"), Reply(226, "Directory send OK")])
  {
    hide Inv, Select, Parse, ParseList, IsPathSafe, SendListing;
    PlainIsNotTls(s);
    ListingStarts(s, e.env.listing(s.cwd, request));
  }

  lemma ListingStarts(s: State, listing: Bytes)
    requires s.bev.Some? && !s.bev.value.tls
    ensures
      var t := SendListing(Say(s, FILE_STATUS_OKAY, "Here comes the directory listings"), listing);
      && (listing != "" ==>
           && Delivered(t, s.bev.value.id, ListDone, s.bev.value.output + listing)
           && t.w.replies == s.w.replies + [Reply(150, "Here comes the directory listings")])
      && (listing == "" ==>
           && t.bev == s.bev && t.writeCb == s.writeCb && t.controlCb == CloseData
           && t.w.replies
              == s.w.replies + [Reply(150, "Here comes the directory listings"), Reply(226, "Directory send OK")])
  {
  }

  lemma ListLine(s: State, e: Event, request: ListRequest)
    requires AcceptsPlainList(s, e, request)
    ensures e.Line? && HandlerFor(s, e) in {ListAction, NlstAction}
  {
    hide Select, Parse, ParseList;
  }

  /** An accepted LIST or NLST without TLS of a directory with something to list, then anything but another
      sender while the connection lives: 150 was said, exactly the listing has been handed over behind what was
      there before, and the next write callback says that the listing is complete, after which the data
      connection is closed. */
  lemma PlainListGoesOut(s: State, site: Site, line: Event, request: ListRequest, events: seq<Event>, write: Event,
                         later: seq<Event>)
    requires Inv(s) && AcceptsPlainList(s, line, request) && line.env.listing(s.cwd, request) != ""
    requires RunEnabled(s, site, [line] + events) && NoSender(Step(s, site, line), site, events)
    requires var t := Run(s, site, [line] + events);
      && s.bev.Some? && t.bev.Some? && t.bev.value.id == s.bev.value.id
      && write.DataWrite? && NoFlush(later) && RunEnabled(t, site, [write] + later + [ControlWritten])
    ensures
      var t := Run(s, site, [line] + events);
      && Step(s, site, line).w.replies == s.w.replies + [Reply(150, "Here comes the directory listings")]
      && t.bev.value.output == s.bev.value.output + line.env.listing(s.cwd, request)
      && CompletesWith(t, site, write, later, Reply(226, "Directory send OK"))
  {
    hide Inv, Step, Enabled, AcceptsPlainList, NoSender, Run, RunEnabled, NoFlush, CompletesWith;
    ListLine(s, line, request);
    RunConcat(s, site, [line], events);
    RunOne(s, site, line);
    StepInv(s, site, line);
    PlainListStarts(s, site, line, request);
    DeliveredRun(Step(s, site, line), site, events, s.bev.value.id, ListDone,
      s.bev.value.output + line.env.listing(s.cwd, request));
    StaysLoggedIn(s, site, line, events);
    RunInv(s, site, [line] + events);
    WriteCompletes(Run(s, site, [line] + events), site, write, later);
  }

  /** With nothing to list, LIST and NLST without TLS answer 150 and 226 at once, hand nothing over, and then the
      data connection is closed. */
  lemma EmptyListCloses(s: State, site: Site, line: Event, request: ListRequest, later: seq<Event>)
    requires Inv(s) && AcceptsPlainList(s, line, request) && line.env.listing(s.cwd, request) == ""
    requires NoFlush(later) && RunEnabled(s, site, [line] + later + [ControlWritten])
    ensures
      var t := Step(s, site, line);
      var u := Run(s, site, [line] + later + [ControlWritten]);
      && t.w.replies
         == s.w.replies + [Reply(150, "Here comes the directory listings"), Reply(226, "Directory send OK")]
      && t.bev == s.bev && NoDataConnection(u) && u.uploadFd == Closed
  {
    hide Inv, Step, Enabled, AcceptsPlainList, Run, RunEnabled, NoFlush, NoDataConnection;
    assert [line] + later + [ControlWritten] == [line] + (later + [ControlWritten]);
    RunConcat(s, site, [line], later + [ControlWritten]);
    RunOne(s, site, line);
    StepInv(s, site, line);
    PlainListStarts(s, site, line, request);
    ListLine(s, line, request);
    StaysLoggedIn(s, site, line, []);
    LoginStep(s, site, line);
    ClosesAfterTheReply(Step(s, site, line), site, later);
  }

  /** A listing that waits for the handshake: after the handshake, and anything but another sender while the
      connection lives, exactly what its path lists has been handed over, and the next write callback says that
      the listing is complete, after which the data connection is closed; with nothing to list the handshake
      says so itself. */
  lemma TlsListCompletes(s: State, site: Site, listing: Lister, id: nat, request: ListRequest, output: Bytes,
                         events: seq<Event>, write: Event, later: seq<Event>)
    requires Inv(s) && s.authenticated && Waiting(s, id, request, output) && NoFlush(later)
    requires RunEnabled(s, site, [Handshake(listing)] + later + [ControlWritten])
    requires RunEnabled(s, site, [Handshake(listing)] + events)
    requires NoSender(Step(s, site, Handshake(listing)), site, events)
    requires var t := Run(s, site, [Handshake(listing)] + events);
      && t.bev.Some? && t.bev.value.id == id
      && write.DataWrite? && RunEnabled(t, site, [write] + later + [ControlWritten])
    ensures listing(s.cwd, request) == "" ==>
      CompletesWith(s, site, Handshake(listing), later, Reply(226, "Directory send OK"))
    ensures listing(s.cwd, request) != "" ==>
      var t := Run(s, site, [Handshake(listing)] + events);
      && t.bev.value.output == output + listing(s.cwd, request)
      && CompletesWith(t, site, write, later, Reply(226, "Directory send OK"))
  {
    hide Inv, Step, Enabled, NoSender, Run, RunEnabled, NoFlush, CompletesWith, Waiting;
    var shake := Handshake(listing);
    var u := Step(s, site, shake);
    RunConcat(s, site, [shake], events);
    RunOne(s, site, shake);
    HandshakeEnabled(s, site, shake, later, events);
    StepInv(s, site, shake);
    HandshakeAlone(s, site, listing, id, request, output);
    LoginIsForever(s, site, [shake] + events);
    if listing(s.cwd, request) == "" {
      ClosesNext(s, site, shake, later, Reply(226, "Directory send OK"));
    } else {
      DeliveredRun(u, site, events, id, ListDone, output + listing(s.cwd, request));
      RunInv(s, site, [shake] + events);
      WriteCompletes(Run(s, site, [shake] + events), site, write, later);
    }
  }

  lemma HandshakeEnabled(s: State, site: Site, e: Event, later: seq<Event>, events: seq<Event>)
    requires RunEnabled(s, site, [e] + events)
    ensures Enabled(s, site, e)
  {
    hide Step, Enabled;
  }

  // ---------------------------------------------------------------- once too often

  function Times(reply: Reply, n: nat): seq<Reply> {
    if n == 0 then [] else [reply] + Times(reply, n - 1)
  }

  /** A completion callback stays installed: every write callback that comes before the connection is closed says
      once more that the transfer is complete. So it is said exactly once when exactly one comes. */
  lemma {:induction false} CompletionRepeats(s: State, site: Site, writes: seq<Event>)
    requires s.writeCb in {RetrDone, ListDone} && forall i :: 0 <= i < |writes| ==> writes[i].DataWrite?
    ensures Run(s, site, writes).w.replies == s.w.replies + Times(CompletionOf(s.writeCb), |writes|)
    decreases writes
  {
    hide Step, OnDataWrite, CompletionOf;
    if writes != [] {
      WriteStep(s, site, writes[0]);
      CompletionSaid(s, writes[0].drained, writes[0].got);
      CompletionRepeats(Step(s, site, writes[0]), site, writes[1..]);
      var reply := CompletionOf(s.writeCb);
      assert s.w.replies + [reply] + Times(reply, |writes| - 1) == s.w.replies + ([reply] + Times(reply, |writes| - 1));
    }
  }

  // ---------------------------------------------------------------- refused, aborted and broken transfers

  /** A LIST or NLST that is refused, but for want of a data connection, and a STOR whose file cannot be opened cost
      the client its data connection: it is closed after the reply. */
  lemma RefusalLosesConnection(s: State, site: Site, e: Event, later: seq<Event>)
    requires Inv(s) && e.Line? && ClosesOnRefusal(s, Step(s, site, e), HandlerFor(s, e)) && IsTransfer(HandlerFor(s, e))
    requires NoFlush(later) && RunEnabled(s, site, [e] + later + [ControlWritten])
    ensures NothingDone(s, Step(s, site, e))
    ensures var t := Run(s, site, [e] + later + [ControlWritten]); NoDataConnection(t) && t.uploadFd == Closed
  {
    hide Inv, Step, HandlerFor, Select, Parse, NoDataConnection, Run, RunEnabled, NoFlush, ClosesOnRefusal, NothingDone;
    assert [e] + later + [ControlWritten] == [e] + (later + [ControlWritten]);
    RunConcat(s, site, [e], later + [ControlWritten]);
    RunOne(s, site, e);
    StepInv(s, site, e);
    ClosingRefuses(s, Step(s, site, e), HandlerFor(s, e));
    RefusalCloses(s, site, e);
    EveryLineIsAnswered(s, site, e);
    TransferLine(s, e);
    LoginStep(s, site, e);
    ClosesAfterTheReply(Step(s, site, e), site, later);
  }

  lemma ClosingRefuses(s: State, t: State, h: Handler)
    requires ClosesOnRefusal(s, t, h)
    ensures Refuses(s, t)
  {
  }

  lemma TransferLine(s: State, e: Event)
    requires e.Line? && IsTransfer(HandlerFor(s, e))
    ensures s.authenticated
  {
    hide Select, Parse;
    SelectRespectsLogin(Parse(e.input).command, s.authenticated);
  }

  /** ABOR says 451 exactly when there is a data connection that is ready, its handshake over if it has one; the
      connection is then gone at once, and with it any upload, whose file keeps what was stored so far. Otherwise
      it says 226, changes nothing, and whatever data connection there is is closed after the reply. */
  lemma AborExactly(s: State, site: Site, e: Event, later: seq<Event>)
    requires Inv(s) && e.Line? && HandlerFor(s, e) == AborAction
    requires NoFlush(later) && RunEnabled(s, site, [e] + later + [ControlWritten])
    ensures
      var t := Step(s, site, e);
      && |t.w.replies| == |s.w.replies| + 1
      && if s.bev.Some? && !HandshakeToCome(s) then
           Says(s, t, ACTION_ABORTED) && NoDataConnection(t) && t.uploadFd == Closed && t.w.disk == s.w.disk
         else
           && Says(s, t, DATA_CONNECTION_CLOSING) && SameData(s, t)
           && NoDataConnection(Run(s, site, [e] + later + [ControlWritten]))
  {
    hide Inv, Step, HandlerFor, Select, Parse, NoDataConnection, Run, RunEnabled, NoFlush, Says, SameData;
    LineRuns(s, site, e);
    AborRuns(s, site, Parse(e.input).args, e.env);
    ReadyExactly(s);
    AborDoes(s);
    AborLine(s, e);
    assert [e] + later + [ControlWritten] == [e] + (later + [ControlWritten]);
    RunConcat(s, site, [e], later + [ControlWritten]);
    RunOne(s, site, e);
    StepInv(s, site, e);
    LoginStep(s, site, e);
    if s.dataActive == 0 {
      ClosesAfterTheReply(Step(s, site, e), site, later);
    }
  }

  lemma AborLine(s: State, e: Event)
    requires e.Line? && HandlerFor(s, e) == AborAction
    ensures s.authenticated
  {
    hide Select, Parse;
    SelectRespectsLogin(Parse(e.input).command, s.authenticated);
  }

  lemma ReadyExactly(s: State)
    requires Inv(s)
    ensures s.dataActive != 0 <==> s.bev.Some? && !HandshakeToCome(s)
  {
    hide LoopOk, LoginOk, StorOk, RetrOk, DiskOk;
  }

  lemma AborDoes(s: State)
    requires Inv(s)
    ensures
      var t := Abor(s);
      && |t.w.replies| == |s.w.replies| + 1
      && if s.dataActive != 0 then
           Says(s, t, ACTION_ABORTED) && NoDataConnection(t) && t.uploadFd == Closed && t.w.disk == s.w.disk
         else Says(s, t, DATA_CONNECTION_CLOSING) && SameData(s, t) && t.controlCb == CloseData
  {
    hide Inv, Close, Clean;
    CloseInv(s);
    AborSpeaks(s);
    var t := Abor(s);
    assert t.w.replies[|s.w.replies|].code in {ACTION_ABORTED, DATA_CONNECTION_CLOSING};
    SayFrame(s, s.(controlCb := CloseData), DATA_CONNECTION_CLOSING, "No transfer in progress");
    assert SameData(s, s.(controlCb := CloseData));
  }

  /** An error or a timeout on the data connection, without the end of the stream: the connection is gone,
      nothing is said, no file changes, and an upload that was under way leaves a beginning of what was sent. */
  lemma BrokenConnection(s: State, site: Site, timeout: bool, error: bool, listing: Lister)
    requires Inv(s) && s.bev.Some? && (timeout || error)
    ensures
      var t := Step(s, site, DataEvent(false, timeout, error, false, listing));
      && NoDataConnection(t) && t.uploadFd == Closed && t.w == s.w
      && (s.eofCb == StorEof ==>
           && s.uploadFd.File? && s.storBase <= |s.bev.value.received|
           && Content(t.w.disk, s.uploadFd.file) <= s.bev.value.received[s.storBase..])
  {
    hide LoopOk, LoginOk, DataOk, RetrOk, DiskOk, Close, NoDataConnection, OnCommand;
    assert NoDataConnection(Close(s)) && Close(s).uploadFd == Closed && Close(s).w == s.w by {
      hide Inv;
      CloseInv(s);
    }
    if s.eofCb == StorEof {
      var b := s.bev.value;
      assert b.received[s.storBase..Taken(b)] <= b.received[s.storBase..];
    }
  }
}
