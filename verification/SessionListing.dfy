/** LIST and NLST over TLS: the listing goes out with the handshake, and with nothing else. */
module SessionListing {
  import opened Options
  import opened CommandOptions
  import opened CommandParser
  import opened Disks
  import opened Dispatch
  import opened Replies
  import opened Session
  import opened SessionInvariant
  import opened SessionFrames
  import opened SessionUpload
  import opened SessionDownload

  /** The arguments of a listing are refused exactly when two of them are paths. Otherwise the path is the one
      given, "." when none is or an empty one, and each flag is set exactly when its option is given. */
  lemma ListArguments(args: seq<string>, description: bool)
    ensures ParseList(args, description).None? <==> TwoOperands(args, {"-a", "-h", "-R"})
    ensures ParseList(args, description).Some? ==>
      var request := ParseList(args, description).value;
      && request.description == description
      && (request.all <==> exists i :: 0 <= i < |args| && args[i] == "-a")
      && (request.human <==> exists i :: 0 <= i < |args| && args[i] == "-h")
      && (forall k :: OnlyOperand(args, {"-a", "-h", "-R"}, k) ==>
           request.path == if args[k] == "" then "." else args[k])
      && ((forall k :: !OnlyOperand(args, {"-a", "-h", "-R"}, k)) ==> request.path == ".")
  {
    CountOperands(args, LIST_OPTIONS);
    forall k | OnlyOperand(args, LIST_OPTIONS, k)
      ensures Operands(args, LIST_OPTIONS) == [args[k]]
    {
      OneOperand(args, LIST_OPTIONS, k);
    }
  }

  /** A LIST or NLST line answered 150 while TLS is required. */
  predicate AcceptsList(s: State, e: Event, request: ListRequest) {
    && e.Line? && s.bev.Some? && s.tlsRequired
    && var handler := Select(Parse(e.input).command, s.authenticated);
       && handler in {ListAction, NlstAction}
       && ParseList(Parse(e.input).args, handler == ListAction) == Some(request)
       && IsPathSafe(request.path) && e.env.dirOk
  }

  /** The data connection is one whose handshake is still to come. */
  predicate HandshakeToCome(s: State) {
    s.bev.Some? && s.bev.value.tls && !s.bev.value.handshaken
  }

  function Handshake(listing: Lister): Event {
    DataEvent(true, false, false, false, listing)
  }

  predicate IsHandshake(e: Event) {
    e.DataEvent? && e.connected
  }

  predicate Shaken(events: seq<Event>) {
    exists i :: 0 <= i < |events| && IsHandshake(events[i])
  }

  /** What the handshakes among these events list: the path of the request, read in the working directory
      they find. */
  function HandshakeListing(s: State, site: Site, events: seq<Event>, request: ListRequest): Bytes
    decreases events
  {
    if events == [] then ""
    else
      (if IsHandshake(events[0]) then events[0].listing(s.cwd, request) else "")
      + HandshakeListing(Step(s, site, events[0]), site, events[1..], request)
  }

  /** On data connection `id`, to which this much has been handed over and no file is being sent, a
      listing waits for the handshake. */
  ghost predicate Waiting(s: State, id: nat, request: ListRequest, output: Bytes) {
    && HandshakeToCome(s) && s.bev.value.id == id && s.bev.value.output == output && s.writeCb != NextChunk
    && s.tlsCb == ListTls && s.saved == request
  }

  /** On data connection `id` no handshake is to come and no file is being sent. */
  ghost predicate Settled(s: State, id: nat, output: Bytes) {
    && s.bev.Some? && s.bev.value.id == id && s.bev.value.output == output && s.writeCb != NextChunk
    && !HandshakeToCome(s)
  }

  /** No listing is due on data connection `id` and no file is being sent. */
  ghost predicate NothingDue(s: State, id: nat, output: Bytes) {
    && s.bev.Some? && s.bev.value.id == id && s.bev.value.output == output && s.writeCb != NextChunk
    && !ListingDue(s)
  }

  lemma ListStarts(s: State, site: Site, e: Event, request: ListRequest)
    requires AcceptsList(s, e, request)
    ensures
      var t := Step(s, site, e);
      && s.bev.Some? && t.tlsCb == ListTls && t.saved == request && t.bev == s.bev && t.writeCb == s.writeCb
      && t.w.replies == s.w.replies + [Reply(FILE_STATUS_OKAY, "Here comes the directory listings")]
  {
    hide ParseList, IsPathSafe, Parse, Select, SendListing;
  }

  // ---------------------------------------------------------------- one step

  /** An event that sends nothing else and starts no upload, which would take the handshake callback. */
  predicate Calm(s: State, e: Event) {
    !RunsSender(s, e) && !StartsUpload(s, e)
  }

  /** What waits for the handshake, as it was. */
  ghost predicate SameWait(s: State, t: State) {
    && t.bev.Some? && s.bev.Some? && SameSent(s.bev.value, t.bev.value)
    && t.bev.value.handshaken == s.bev.value.handshaken
    && t.tlsCb == s.tlsCb && t.saved == s.saved && t.writeCb == s.writeCb && t.readCb == s.readCb
  }

  lemma DataIsWait(s: State, t: State)
    requires SameData(s, t) && s.bev.Some?
    ensures SameWait(s, t)
  {
  }

  lemma LineWait(s: State, site: Site, e: Event)
    requires e.Line? && s.bev.Some? && Calm(s, e)
    ensures Step(s, site, e).bev.None? || SameWait(s, Step(s, site, e))
  {
    hide Parse, Select, OnCommand, StorOpens, SameData, Clean;
    var cmd := Parse(e.input);
    CommandWait(s, site, Select(cmd.command, s.authenticated), cmd.args, e.env);
  }

  lemma CommandWait(s: State, site: Site, handler: Handler, args: seq<string>, env: Env)
    requires s.bev.Some? && handler !in {RetrAction, ListAction, NlstAction}
    requires handler == StorAction ==> !StorOpens(s, args, env)
    ensures var t := OnCommand(s, site, handler, args, env); t.bev.None? || SameWait(s, t)
  {
    hide OnCommand, Stor, Retr, List, Abor, Cwd, Dele, Clean, StorOpens;
    TransferRuns(s, site, args, env);
    if TransferHandler(handler) {
      match handler
      case StorAction => StorFrame(s, site, args, env);
      case AborAction => AborFrame(s);
      case CwdAction => CwdFrame(s, site, args, env);
      case DeleAction => DeleFrame(s, env);
    } else {
      hide SameData;
      BystanderFrame(s, site, handler, args, env);
      DataIsWait(s, OnCommand(s, site, handler, args, env));
    }
  }

  lemma WriteWait(s: State, drained: bool, got: int)
    requires s.bev.Some? && s.writeCb != NextChunk
    ensures SameWait(s, OnDataWrite(s, drained, got))
  {
  }

  lemma ReadWait(s: State)
    requires s.bev.Some?
    ensures SameWait(s, OnDataRead(s))
  {
  }

  lemma ControlWait(s: State)
    requires s.bev.Some?
    ensures OnControlWritten(s).bev.None? || SameWait(s, OnControlWritten(s))
  {
    hide Close;
    CloseFrame(s);
  }

  lemma EventWait(s: State, timeout: bool, error: bool, eof: bool, listing: Lister)
    requires s.bev.Some?
    ensures var t := OnDataEvent(s, false, timeout, error, eof, listing); t.bev.None? || SameWait(s, t)
  {
    hide OnEof, Close;
    CloseFrame(s);
    CloseFrame(OnEof(s));
  }

  lemma TimerWait(s: State, id: nat)
    requires s.bev.Some?
    ensures SameWait(s, OnTimer(s, id))
  {
  }

  /** Only the handshake, a sender, an upload or the end of the connection changes what waits. */
  lemma StepWait(s: State, site: Site, e: Event)
    requires Enabled(s, site, e) && s.bev.Some? && s.writeCb != NextChunk && Calm(s, e) && !IsHandshake(e)
    ensures Step(s, site, e).bev.None? || SameWait(s, Step(s, site, e))
  {
    hide OnDataEvent, OnDataRead, OnDataWrite, OnControlWritten, OnTimer, OnCommand, OnAccept, Calm;
    match e
    case Line(_, _) => LineWait(s, site, e);
    case DataEvent(_, timeout, error, eof, listing) => EventWait(s, timeout, error, eof, listing);
    case DataRead => ReadWait(s);
    case DataWrite(drained, got) => WriteWait(s, drained, got);
    case ControlWritten => ControlWait(s);
    case TimerFires(id) => TimerWait(s, id);
    case _ =>
  }

  /** The handshake hands over the listing that waits, if there is one, and settles the connection. */
  lemma HandshakeSends(s: State, site: Site, e: Event, id: nat, request: ListRequest, output: Bytes)
    requires Inv(s) && Enabled(s, site, e) && IsHandshake(e) && Waiting(s, id, request, output)
    ensures var t := Step(s, site, e);
      t.bev.None? || Settled(t, id, output + e.listing(s.cwd, request))
  {
    hide LoopOk, LoginOk, StorOk, RetrOk, DiskOk, OnEof, Close, OnCommand, Say;
    var u := OnConnected(s, e.listing);
    assert output + "" == output;
    SayBev(s.(dataActive := s.dataActive + 1, bev := Some(s.bev.value.(handshaken := true)),
      controlCb := CloseData, tlsCb := CloseOnTls), DATA_CONNECTION_CLOSING, "Directory send OK");
    CloseFrame(u);
    CloseFrame(OnEof(u));
  }

  lemma SayBev(s: State, code: nat, text: string)
    ensures Say(s, code, text) == s.(w := Say(s, code, text).w)
  {
  }

  /** The handshake alone, with something to list, leaves the completion callback and the connection. */
  lemma HandshakeAlone(s: State, site: Site, listing: Lister, id: nat, request: ListRequest,
                       output: Bytes)
    requires Inv(s) && Waiting(s, id, request, output)
    ensures
      var t := Step(s, site, Handshake(listing));
      && t.bev.Some? && Settled(t, id, output + listing(s.cwd, request))
      && (listing(s.cwd, request) != "" ==> t.writeCb == ListDone)
      && (listing(s.cwd, request) == "" ==> t.controlCb == CloseData)
      && (listing(s.cwd, request) == "" ==>
           t.w.replies == s.w.replies + [Reply(DATA_CONNECTION_CLOSING, "Directory send OK")])
  {
    hide LoopOk, LoginOk, StorOk, RetrOk, DiskOk, OnCommand;
    assert output + "" == output;
  }

  /** A handshake by itself never closes the connection, although one of its callbacks would: that one is only
      installed when no handshake is to come. */
  lemma HandshakeKeepsConnection(s: State, site: Site, listing: Lister)
    requires Inv(s) && Enabled(s, site, Handshake(listing))
    ensures var t := Step(s, site, Handshake(listing));
      t.bev.Some? && t.bev.value.id == s.bev.value.id && t.bev.value.handshaken && t.dataActive == 1
  {
    hide LoopOk, LoginOk, StorOk, RetrOk, DiskOk, OnCommand, Close, SendListing;
    var t := s.(dataActive := s.dataActive + 1, bev := Some(s.bev.value.(handshaken := true)));
    ListingKeepsConnection(t, listing(t.cwd, t.saved));
  }

  lemma ListingKeepsConnection(s: State, listing: Bytes)
    requires s.bev.Some?
    ensures var t := SendListing(s, listing);
      && t.bev.Some? && t.bev.value.id == s.bev.value.id && t.bev.value.handshaken == s.bev.value.handshaken
      && t.dataActive == s.dataActive
  {
  }

  // ---------------------------------------------------------------- over a run

  ghost predicate CalmRun(s: State, site: Site, events: seq<Event>)
    decreases events
  {
    events != [] ==> Calm(s, events[0]) && CalmRun(Step(s, site, events[0]), site, events[1..])
  }

  lemma ShakenSplit(events: seq<Event>)
    requires events != []
    ensures Shaken(events) <==> IsHandshake(events[0]) || Shaken(events[1..])
  {
    if Shaken(events) && !IsHandshake(events[0]) {
      var i :| 0 <= i < |events| && IsHandshake(events[i]);
      assert events[1..][i - 1] == events[i];
    }
    if Shaken(events[1..]) {
      var i :| 0 <= i < |events[1..]| && IsHandshake(events[1..][i]);
      assert events[i + 1] == events[1..][i];
    }
  }

  /** Where no handshake is to come, none comes, and nothing is handed over. */
  lemma {:induction false} SettledRun(s: State, site: Site, events: seq<Event>, id: nat, output: Bytes,
                                      request: ListRequest)
    requires Inv(s) && RunEnabled(s, site, events) && CalmRun(s, site, events) && Settled(s, id, output)
    ensures var t := Run(s, site, events);
      Elsewhere(t, id)
      || (Settled(t, id, output) && !Shaken(events) && HandshakeListing(s, site, events, request) == "")
    decreases events
  {
    hide Inv, Step, Calm, Elsewhere, Shaken;
    if events == [] {
      assert !Shaken(events) by {
        hide *;
        NoneShaken();
      }
    } else {
      var t := Step(s, site, events[0]);
      StepInv(s, site, events[0]);
      ShakenSplit(events);
      assert !IsHandshake(events[0]);
      SettledStep(s, site, events[0], id, output);
      if Elsewhere(t, id) {
        GoneForever(t, site, events[1..], id);
      } else {
        SettledRun(t, site, events[1..], id, output, request);
      }
    }
  }

  lemma NoneShaken()
    ensures !Shaken([])
  {
  }

  lemma SettledStep(s: State, site: Site, e: Event, id: nat, output: Bytes)
    requires Inv(s) && Enabled(s, site, e) && Calm(s, e) && Settled(s, id, output) && !IsHandshake(e)
    ensures Elsewhere(Step(s, site, e), id) || Settled(Step(s, site, e), id, output)
  {
    hide Inv, Step, Enabled, Calm, StartsUpload, LeavesFile, Clean;
    BevNumbered(s);
    StepReceives(s, site, e);
    StepWait(s, site, e);
  }

  lemma WaitingStep(s: State, site: Site, e: Event, id: nat, request: ListRequest, output: Bytes)
    requires Inv(s) && Enabled(s, site, e) && Calm(s, e) && Waiting(s, id, request, output)
    ensures var t := Step(s, site, e);
      Elsewhere(t, id)
      || if IsHandshake(e) then Settled(t, id, output + e.listing(s.cwd, request)) else Waiting(t, id, request, output)
  {
    hide Inv, Step, Enabled, Calm, StartsUpload, LeavesFile, Clean;
    BevNumbered(s);
    StepReceives(s, site, e);
    if IsHandshake(e) {
      HandshakeSends(s, site, e, id, request, output);
    } else {
      StepWait(s, site, e);
    }
  }

  /** While the connection lives, what waits goes out with the handshake and not before. */
  lemma {:induction false} WaitingRun(s: State, site: Site, events: seq<Event>, id: nat, request: ListRequest,
                                      output: Bytes)
    requires Inv(s) && RunEnabled(s, site, events) && CalmRun(s, site, events)
    requires Waiting(s, id, request, output)
    ensures var t := Run(s, site, events);
      Elsewhere(t, id)
      || if Shaken(events) then Settled(t, id, output + HandshakeListing(s, site, events, request))
         else Waiting(t, id, request, output) && HandshakeListing(s, site, events, request) == ""
    decreases events
  {
    hide Inv, Step, Enabled, Calm, Elsewhere, Shaken, Waiting, Settled;
    if events == [] {
      NoneShaken();
    } else {
      var t := Step(s, site, events[0]);
      StepInv(s, site, events[0]);
      ShakenSplit(events);
      WaitingStep(s, site, events[0], id, request, output);
      if Elsewhere(t, id) {
        GoneForever(t, site, events[1..], id);
      } else if IsHandshake(events[0]) {
        var listing := events[0].listing(s.cwd, request);
        SettledRun(t, site, events[1..], id, output + listing, request);
        assert listing + "" == listing;
      } else {
        WaitingRun(t, site, events[1..], id, request, output);
        var later := HandshakeListing(t, site, events[1..], request);
        assert "" + later == later;
      }
    }
  }

  /** An accepted LIST or NLST over TLS, on a connection over which no file is being sent, then anything
      but another sender or a STOR while the connection lives. What is handed over is the listing of the
      handshake, if one came. A handshake that sends it has come, or can come, exactly when the
      connection was a TLS one whose handshake had not come before the line; otherwise nothing is ever
      handed over, although 150 was sent. */
  lemma ListingGoesOutWithTheHandshake(s: State, site: Site, line: Event, request: ListRequest, events: seq<Event>,
                                       listing: Lister)
    requires Inv(s) && AcceptsList(s, line, request) && s.writeCb != NextChunk
    requires RunEnabled(s, site, [line] + events) && CalmRun(Step(s, site, line), site, events)
    requires var t := Run(s, site, [line] + events);
      t.bev.Some? && t.bev.value.id == s.bev.value.id && !t.w.closed
    ensures
      var t := Run(s, site, [line] + events);
      && t.bev.value.output == s.bev.value.output + HandshakeListing(Step(s, site, line), site, events, request)
      && (HandshakeToCome(s) <==> Shaken(events) || Enabled(t, site, Handshake(listing)))
      && (!HandshakeToCome(s) ==> t.bev.value.output == s.bev.value.output)
      && (HandshakeToCome(s) && !Shaken(events) ==>
           var u := Step(t, site, Handshake(listing));
           u.bev.Some? && u.bev.value.output == s.bev.value.output + listing(t.cwd, request))
  {
    hide Inv, Step, AcceptsList, Calm, Shaken;
    var u := Step(s, site, line);
    var t := Run(s, site, [line] + events);
    RunConcat(s, site, [line], events);
    RunOne(s, site, line);
    StepInv(s, site, line);
    ListStarts(s, site, line, request);
    var id, output := s.bev.value.id, s.bev.value.output;
    assert output + "" == output;
    if HandshakeToCome(s) {
      WaitingRun(u, site, events, id, request, output);
      RunInv(u, site, events);
      if !Shaken(events) {
        HandshakeAlone(t, site, listing, id, request, output);
      }
    } else {
      SettledRun(u, site, events, id, output, request);
    }
  }

  /** A handshake that is still to come lists the directory the LIST named, whatever is in it and in other
      directories, exactly when the working directory is then the one of the LIST. */
  lemma ListsTheDirectoryNamed(s: State, site: Site, line: Event, request: ListRequest, events: seq<Event>)
    requires Inv(s) && AcceptsList(s, line, request) && s.writeCb != NextChunk
    requires RunEnabled(s, site, [line] + events) && CalmRun(Step(s, site, line), site, events)
    requires HandshakeToCome(s) && !Shaken(events)
    requires var t := Run(s, site, [line] + events);
      t.bev.Some? && t.bev.value.id == s.bev.value.id && !t.w.closed
    ensures
      var t := Run(s, site, [line] + events);
      t.cwd == s.cwd <==>
        forall listing: Lister :: ListsFrom(t, site, listing, s.bev.value.output + listing(s.cwd, request))
  {
    hide Inv, Step, AcceptsList, CalmRun, Shaken, RunEnabled, Run, Enabled;
    var t := Run(s, site, [line] + events);
    var output := s.bev.value.output;
    forall listing: Lister
      ensures ListsFrom(t, site, listing, output + listing(t.cwd, request))
    {
      ListingGoesOutWithTheHandshake(s, site, line, request, events, listing);
    }
    if t.cwd != s.cwd {
      var telling: Lister := (cwd, _) => if cwd == s.cwd then "here" else "there";
      assert telling(t.cwd, request) == "there" && telling(s.cwd, request) == "here";
      ListingGoesOutWithTheHandshake(s, site, line, request, events, telling);
      assert (output + "here")[|output|..] == "here" && (output + "there")[|output|..] == "there";
      assert !ListsFrom(t, site, telling, output + telling(s.cwd, request));
    }
  }

  /** With this in the directories, the handshake leaves this as everything handed over. */
  predicate ListsFrom(s: State, site: Site, listing: Lister, output: Bytes) {
    var t := Step(s, site, Handshake(listing));
    t.bev.Some? && t.bev.value.output == output
  }

  // ---------------------------------------------------------------- a STOR in between

  lemma NothingDueStep(s: State, site: Site, e: Event, id: nat, output: Bytes)
    requires Inv(s) && Enabled(s, site, e) && NothingDue(s, id, output) && !RunsSender(s, e)
    ensures Elsewhere(Step(s, site, e), id) || NothingDue(Step(s, site, e), id, output)
  {
    hide Inv, Step, Enabled, RunsSender, StartsUpload, LeavesFile, OnDataWrite, Clean;
    BevNumbered(s);
    StepReceives(s, site, e);
    if e.DataWrite? {
      WriteStep(s, site, e);
      WriteWait(s, e.drained, e.got);
    } else {
      StepSends(s, site, e);
    }
  }

  lemma {:induction false} NothingDueNothingSent(s: State, site: Site, events: seq<Event>, id: nat, output: Bytes)
    requires Inv(s) && RunEnabled(s, site, events) && NoSender(s, site, events) && NothingDue(s, id, output)
    ensures var t := Run(s, site, events); Elsewhere(t, id) || NothingDue(t, id, output)
    decreases events
  {
    hide Inv, Step, Enabled, RunsSender, NothingDue, Elsewhere;
    if events != [] {
      var t := Step(s, site, events[0]);
      StepInv(s, site, events[0]);
      NothingDueStep(s, site, events[0], id, output);
      if Elsewhere(t, id) {
        GoneForever(t, site, events[1..], id);
      } else {
        NothingDueNothingSent(t, site, events[1..], id, output);
      }
    }
  }

  /** A STOR that opens its file while a listing waits takes the handshake callback: the listing is never
      handed over, not even with the handshake, while the connection lives and until another sender. */
  lemma StorCancelsListing(s: State, site: Site, line: Event, events: seq<Event>, id: nat, request: ListRequest,
                           output: Bytes)
    requires Inv(s) && Waiting(s, id, request, output) && StartsUpload(s, line)
    requires RunEnabled(s, site, [line] + events) && NoSender(Step(s, site, line), site, events)
    ensures var t := Run(s, site, [line] + events);
      Elsewhere(t, id) || (t.bev.Some? && t.bev.value.id == id && t.bev.value.output == output)
  {
    hide Inv, Step, Enabled, RunsSender, StorOpens;
    RunConcat(s, site, [line], events);
    RunOne(s, site, line);
    StepInv(s, site, line);
    TlsIsRequired(s);
    StorTakesHandshake(s, site, line);
    NothingDueNothingSent(Step(s, site, line), site, events, id, output);
  }

  lemma TlsIsRequired(s: State)
    requires Inv(s)
    ensures s.bev.Some? && s.bev.value.tls ==> s.tlsRequired
  {
    hide LoopOk, LoginOk, StorOk, RetrOk, DiskOk;
  }

  lemma StorTakesHandshake(s: State, site: Site, e: Event)
    requires StartsUpload(s, e) && s.tlsRequired
    ensures var t := Step(s, site, e);
      t.tlsCb == StorTls && t.bev == s.bev && t.writeCb == s.writeCb
  {
    hide Select, Parse, Stor, Clean;
    StorFrame(s, site, Parse(e.input).args, e.env);
    StorRuns(s, site, Parse(e.input).args, e.env);
  }
}
