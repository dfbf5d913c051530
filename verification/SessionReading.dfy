/** When the bytes of an upload are written: as they arrive, or only at the end of the stream. */
module SessionReading {
  import opened CommandParser
  import opened Disks
  import opened Dispatch
  import opened Session
  import opened SessionInvariant
  import opened SessionFrames
  import opened SessionUpload
  import opened SessionDownload
  import opened SessionListing
  import opened SessionModes

  /** An upload into this file on data connection `id`: what arrives is read, or it waits in the buffer for a
      handshake that would have it read. */
  ghost predicate Uploading(s: State, id: nat, file: nat, reading: bool) {
    && s.bev.Some? && s.bev.value.id == id && s.eofCb == StorEof && s.uploadFd == File(file) && s.storBase == 0
    && s.writeCb != NextChunk
    && (if reading then s.readCb == StorRead && !HandshakeToCome(s)
        else s.readCb == NoRead && s.tlsCb == StorTls && s.tlsRequired && s.bev.value.input == s.bev.value.received)
  }

  lemma StorReads(s: State, site: Site, e: Event, name: string)
    requires Inv(s) && s.eofCb == NoEof && AcceptsStor(s, site, e, name) && s.writeCb != NextChunk
    ensures s.bev.Some?
    ensures Uploading(Step(s, site, e), s.bev.value.id, Target(s.w.disk, name), !s.tlsRequired)
  {
    hide LoopOk, LoginOk, RetrOk, DiskOk, Select, Parse, Create, Target;
    StorRuns(s, site, Parse(e.input).args, e.env);
    assert s.bev.value.received[0..] == s.bev.value.received;
  }

  // ---------------------------------------------------------------- one step

  /** The input buffer of the same data connection holds what it held, and what just arrived. */
  ghost predicate Waits(s: State, e: Event, t: State) {
    s.bev.Some? && t.bev.Some? && t.bev.value.id == s.bev.value.id ==>
      t.bev.value.input == s.bev.value.input + SegmentOf(e)
  }

  lemma ContinuesWaits(s: State, e: Event, t: State)
    requires Continues(s, t) && SegmentOf(e) == ""
    ensures Waits(s, e, t)
  {
    hide Clean;
  }

  /** Nothing but the read callback and the end of the stream takes bytes out of the buffer. */
  lemma WaitStep(s: State, site: Site, e: Event)
    requires Inv(s) && Enabled(s, site, e) && s.bev.Some? && !StartsUpload(s, e) && s.readCb == NoRead
    ensures Waits(s, e, Step(s, site, e))
  {
    hide OnSegment, OnDataEvent, OnDataRead, OnDataWrite, OnControlWritten, OnTimer, OnCommand, OnAccept;
    hide Inv, Select, Parse, SameUpload, Ended, Clean, StorOpens, Continues;
    match e
    case Line(_, _) => LineWaits(s, site, e);
    case Accept(_, _) =>
    case Segment(bytes) => SegmentWaits(s, bytes);
    case DataEvent(connected, timeout, error, eof, listing) =>
      if eof {
        EofGrows(s, connected, timeout, error, listing);
      } else {
        DataEventUpload(s, connected, timeout, error, listing);
        ContinuesWaits(s, e, Step(s, site, e));
      }
    case DataRead => NothingRead(s);
    case DataWrite(drained, got) =>
      DataWriteUpload(s, drained, got);
      KeepsOpen(s, OnDataWrite(s, drained, got));
      ContinuesWaits(s, e, Step(s, site, e));
    case ControlWritten =>
      ControlWrittenUpload(s);
      ContinuesWaits(s, e, Step(s, site, e));
    case ControlGone =>
    case TimerFires(id) =>
      TimerUpload(s, id);
      KeepsOpen(s, OnTimer(s, id));
      ContinuesWaits(s, e, Step(s, site, e));
  }

  lemma SegmentWaits(s: State, bytes: Bytes)
    requires s.bev.Some?
    ensures var t := OnSegment(s, bytes); t.bev.Some? && t.bev.value.input == s.bev.value.input + bytes
  {
  }

  lemma NothingRead(s: State)
    requires s.readCb == NoRead
    ensures OnDataRead(s) == s
  {
  }

  lemma LineWaits(s: State, site: Site, e: Event)
    requires e.Line? && !StartsUpload(s, e)
    ensures Waits(s, e, Step(s, site, e))
  {
    hide OnCommand, Select, Parse, Continues, Clean, SameUpload, Ended, Stor, StorOpens;
    var cmd := Parse(e.input);
    var handler := Select(cmd.command, s.authenticated);
    if handler == StorAction {
      StorFrame(s, site, cmd.args, e.env);
      StorRuns(s, site, cmd.args, e.env);
    } else {
      CommandUpload(s, site, handler, cmd.args, e.env);
      JoinContinues(s, Step(s, site, e));
      ContinuesWaits(s, e, Step(s, site, e));
    }
  }

  /** The handshake has the bytes read from then on, unless the connection ends with it. */
  lemma HandshakeReads(s: State, site: Site, e: Event, id: nat, file: nat)
    requires Inv(s) && Enabled(s, site, e) && IsHandshake(e) && Uploading(s, id, file, false)
    ensures var t := Step(s, site, e); t.bev.None? || Uploading(t, id, file, true)
  {
    hide Inv, Close, OnEof, OnCommand;
    var u := OnConnected(s, e.listing);
    CloseFrame(u);
    CloseFrame(OnEof(u));
  }

  lemma UploadingStep(s: State, site: Site, e: Event, id: nat, file: nat, reading: bool)
    requires Inv(s) && Enabled(s, site, e) && Calm(s, e) && Uploading(s, id, file, reading)
    ensures var t := Step(s, site, e);
      Elsewhere(t, id) || Uploading(t, id, file, reading || IsHandshake(e))
  {
    hide Inv, Step, Enabled, RunsSender, StartsUpload, LeavesFile, Clean, AsksPrivacy, AsksTls, SetsType;
    BevNumbered(s);
    StepReceives(s, site, e);
    if IsHandshake(e) {
      NoSecondHandshake(s, site, e);
      HandshakeReads(s, site, e, id, file);
    } else {
      StepWait(s, site, e);
      ModeStep(s, site, e);
      if !reading {
        WaitStep(s, site, e);
      }
    }
  }

  lemma NoSecondHandshake(s: State, site: Site, e: Event)
    requires Enabled(s, site, e) && IsHandshake(e)
    ensures HandshakeToCome(s)
  {
  }

  // ---------------------------------------------------------------- over a run

  lemma {:induction false} UploadingRun(s: State, site: Site, events: seq<Event>, id: nat, file: nat, reading: bool)
    requires Inv(s) && RunEnabled(s, site, events) && CalmRun(s, site, events) && Uploading(s, id, file, reading)
    ensures var t := Run(s, site, events);
      Elsewhere(t, id) || Uploading(t, id, file, reading || Shaken(events))
    decreases events
  {
    hide Inv, Step, Enabled, Calm, Uploading, Elsewhere, Shaken, IsHandshake;
    if events == [] {
      NoneShaken();
    } else {
      var t := Step(s, site, events[0]);
      StepInv(s, site, events[0]);
      UploadingStep(s, site, events[0], id, file, reading);
      ShakenSplit(events);
      if Elsewhere(t, id) {
        GoneForever(t, site, events[1..], id);
      } else {
        UploadingRun(t, site, events[1..], id, file, reading || IsHandshake(events[0]));
      }
    }
  }

  lemma {:induction false} CalmStartsNothing(s: State, site: Site, events: seq<Event>)
    requires CalmRun(s, site, events)
    ensures NoUploadStarts(s, site, events)
    decreases events
  {
    hide Step, StartsUpload, RunsSender;
    if events != [] {
      CalmStartsNothing(Step(s, site, events[0]), site, events[1..]);
    }
  }

  /** The first STOR on a data connection over which no file is being sent, then anything but another transfer
      while the connection lives. When the connection is not required to be private, or the handshake has come
      since the STOR, the next read callback leaves the buffer empty and everything sent so far in the file.
      Otherwise the read callback does nothing and the file is still empty: whatever is sent waits in memory for
      the end of the stream, and when the handshake came before the STOR there is no other one to come. */
  lemma WrittenAsItArrives(s: State, site: Site, line: Event, name: string, events: seq<Event>)
    requires Inv(s) && s.eofCb == NoEof && AcceptsStor(s, site, line, name) && s.writeCb != NextChunk
    requires RunEnabled(s, site, [line] + events) && CalmRun(Step(s, site, line), site, events)
    requires var t := Run(s, site, [line] + events);
      s.bev.Some? && t.bev.Some? && t.bev.value.id == s.bev.value.id
    ensures
      var t := Run(s, site, [line] + events);
      var u := Step(t, site, DataRead);
      var file, sent := Target(s.w.disk, name), s.bev.value.received + Sent(events);
      if !s.tlsRequired || Shaken(events) then
        && u.bev.Some? && u.bev.value.input == "" && file in u.w.disk.files && u.w.disk.files[file] == sent
      else
        u == t && t.bev.value.input == sent && file in t.w.disk.files && t.w.disk.files[file] == ""
  {
    hide Inv, Step, Enabled, AcceptsStor, Calm, Shaken, Uploading, Target;
    var u, id, file := Step(s, site, line), s.bev.value.id, Target(s.w.disk, name);
    RunConcat(s, site, [line], events);
    RunOne(s, site, line);
    StepInv(s, site, line);
    StorReads(s, site, line, name);
    StorStarts(s, site, line, name);
    CalmStartsNothing(u, site, events);
    UploadGoesOn(u, site, events);
    UploadingRun(u, site, events, id, file, !s.tlsRequired);
    RunInv(u, site, events);
    var t := Run(s, site, [line] + events);
    ReadOrWait(t, site, id, file, !s.tlsRequired || Shaken(events));
  }

  lemma ReadOrWait(s: State, site: Site, id: nat, file: nat, reading: bool)
    requires Inv(s) && Uploading(s, id, file, reading)
    ensures
      var t := Step(s, site, DataRead);
      if reading then
        t.bev.Some? && t.bev.value.input == "" && file in t.w.disk.files
        && t.w.disk.files[file] == s.bev.value.received
      else
        t == s && s.bev.value.input == s.bev.value.received && file in s.w.disk.files && s.w.disk.files[file] == ""
  {
    hide Inv, OnDataRead, OnCommand, Drain;
    ReadStep(s, site);
    StoredSoFar(s, file);
    if reading {
      DrainInv(s);
      DrainKeeps(s);
      StoredSoFar(Drain(s), file);
    } else {
      NothingRead(s);
    }
  }

  lemma ReadStep(s: State, site: Site)
    ensures Step(s, site, DataRead) == OnDataRead(s)
    ensures s.readCb == StorRead ==> OnDataRead(s) == Drain(s)
  {
    hide Drain;
  }

  /** The file of an upload is what was taken out of the buffer. */
  lemma StoredSoFar(s: State, file: nat)
    requires Inv(s) && s.bev.Some? && s.eofCb == StorEof && s.uploadFd == File(file) && s.storBase == 0
    ensures
      var b := s.bev.value;
      && file in s.w.disk.files
      && (b.input == "" ==> s.w.disk.files[file] == b.received)
      && (b.input == b.received ==> s.w.disk.files[file] == "")
  {
    hide LoopOk, LoginOk, DataOk, RetrOk, DiskOk;
    var b := s.bev.value;
    assert b.received[0..|b.received|] == b.received;
  }

  lemma DrainKeeps(s: State)
    requires s.bev.Some?
    ensures Drain(s).uploadFd == s.uploadFd && Drain(s).eofCb == s.eofCb && Drain(s).storBase == s.storBase
  {
  }
}
