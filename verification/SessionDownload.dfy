/** RETR: whatever the order of commands and events, what is handed to the data connection is the file,
    and over TLS completion waits for the last chunk. */
module SessionDownload {
  import opened Options
  import opened CommandParser
  import opened Disks
  import opened Dispatch
  import opened Replies
  import opened Session
  import opened SessionInvariant
  import opened SessionFrames
  import opened SessionUpload

  // ---------------------------------------------------------------- events and a download

  /** Lines that write to the data connection. */
  predicate RunsSender(s: State, e: Event) {
    e.Line? && Select(Parse(e.input).command, s.authenticated) in {RetrAction, ListAction, NlstAction}
  }

  /** The sending side goes on as before, unless the connection is closed; a file under way that nothing
      writes to is still what it was. */
  ghost predicate KeepsSending(s: State, site: Site, e: Event, t: State) {
    t.bev.None? ||
    (SameDownload(s, t)
      && (s.stream.Some? && LeavesFile(s, site, e, s.stream.value.file) ==> t.stream == s.stream))
  }

  /** Whether a listing is to be sent when the handshake completes. */
  predicate ListingDue(s: State) {
    s.tlsCb == ListTls && s.bev.Some? && s.bev.value.tls && !s.bev.value.handshaken
  }

  lemma TimerDownload(s: State, id: nat)
    ensures SameDownload(s, OnTimer(s, id)) && OnTimer(s, id).stream == s.stream
  {
    hide Say, DropListener;
    SayDownload(s, SERVICE_NOT_AVAILABLE, "Control connection timed out !", id);
    DropDownload(s, id);
  }

  lemma SayDownload(s: State, code: nat, text: string, id: nat)
    ensures var t := Say(s.(w := s.w.(armed := s.w.armed - {id}), controlCb := DisableControl), code, text);
      SameDownload(s, t) && t.stream == s.stream
  {
  }

  lemma DropDownload(s: State, id: nat)
    ensures var t := DropListener(s.(w := s.w.(armed := s.w.armed - {id})));
      SameDownload(s, t) && t.stream == s.stream
  {
  }

  lemma ControlWrittenDownload(s: State)
    ensures var t := OnControlWritten(s); t.bev.None? || (SameDownload(s, t) && t.stream == s.stream)
  {
    hide Close;
    CloseFrame(s);
  }

  lemma ConnectedDownload(s: State, listing: Lister)
    requires !ListingDue(s) && s.bev.Some? && s.bev.value.tls && !s.bev.value.handshaken
    ensures var t := OnConnected(s, listing); t.bev.None? || (SameDownload(s, t) && t.stream == s.stream)
  {
    hide Close;
    CloseFrame(s.(dataActive := s.dataActive + 1, bev := Some(s.bev.value.(handshaken := true))));
  }

  lemma DataEventDownload(s: State, connected: bool, timeout: bool, error: bool, eof: bool,
                          listing: Lister)
    requires !ListingDue(s) && (connected ==> s.bev.Some? && s.bev.value.tls && !s.bev.value.handshaken)
    ensures var t := OnDataEvent(s, connected, timeout, error, eof, listing);
      t.bev.None? || (SameDownload(s, t) && t.stream == s.stream)
  {
    hide OnConnected, OnEof, Close;
    if connected {
      ConnectedDownload(s, listing);
    }
    var t := if connected then OnConnected(s, listing) else s;
    CloseFrame(t);
    CloseFrame(OnEof(t));
  }

  lemma DataReadDownload(s: State)
    ensures var t := OnDataRead(s);
      && SameDownload(s, t)
      && (s.stream.Some? && s.uploadFd != File(s.stream.value.file) ==> t.stream == s.stream)
  {
  }

  lemma LineDownload(s: State, site: Site, e: Event)
    requires e.Line? && !RunsSender(s, e)
    ensures KeepsSending(s, site, e, Step(s, site, e))
  {
    hide OnCommand, Stor, Select, Parse, SameUpload, SameData, Grows;
    var cmd := Parse(e.input);
    CommandDownload(s, site, Select(cmd.command, s.authenticated), cmd.args, e.env);
    if RunsStor(s, e) {
      StorFrame(s, site, cmd.args, e.env);
      StorRuns(s, site, cmd.args, e.env);
    }
  }

  /** Nothing but RETR, LIST, NLST, a listing that waits for the handshake, and the write callback
      touches what is being sent, unless the connection is closed. */
  lemma StepSends(s: State, site: Site, e: Event)
    requires Enabled(s, site, e) && s.bev.Some? && !ListingDue(s)
    requires !RunsSender(s, e) && !e.DataWrite?
    ensures KeepsSending(s, site, e, Step(s, site, e))
  {
    hide OnSegment, OnDataEvent, OnDataRead, OnDataWrite, OnControlWritten, OnTimer, OnCommand, OnAccept;
    hide Select, Parse, SameUpload, SameData, Grows, StorsInto;
    match e
    case Line(_, _) => LineDownload(s, site, e);
    case Segment(bytes) => SegmentDownload(s, bytes);
    case DataEvent(connected, timeout, error, eof, listing) =>
      DataEventDownload(s, connected, timeout, error, eof, listing);
    case DataRead => DataReadDownload(s);
    case ControlWritten => ControlWrittenDownload(s);
    case TimerFires(id) => TimerDownload(s, id);
    case ControlGone =>
    case Accept(_, _) =>
  }

  lemma SegmentDownload(s: State, bytes: Bytes)
    ensures SameDownload(s, OnSegment(s, bytes)) && OnSegment(s, bytes).stream == s.stream
  {
  }

  // ---------------------------------------------------------------- sending a file in chunks

  /** A file under way on data connection `id`, written to by nobody, every read so far a success, or
      the file all read. */
  ghost predicate Sending(s: State, id: nat, file: nat, content: Bytes, base: nat) {
    && s.bev.Some? && s.bev.value.id == id && !ListingDue(s)
    && s.stream.Some? && file < s.w.disk.next && s.uploadFd != File(file)
    && var fs := s.stream.value;
       && fs.file == file && fs.intact && fs.source == content
       && fs.filesize == |content| && fs.offset <= fs.filesize
       && fs.base == base && fs.alone && (fs.open || fs.offset == fs.filesize)
       && s.writeCb == (if fs.offset == fs.filesize then RetrDone else NextChunk)
  }

  function Offset(s: State): nat {
    if s.stream.Some? then s.stream.value.offset else 0
  }

  lemma SendingKept(s: State, t: State, id: nat, file: nat, content: Bytes, base: nat)
    requires Sending(s, id, file, content, base) && SameDownload(s, t) && t.stream == s.stream
    requires t.uploadFd != File(file) && s.w.disk.next <= t.w.disk.next
    ensures Sending(t, id, file, content, base) && Offset(t) == Offset(s)
  {
  }

  /** As long as nobody writes to it, the file under way reads as it did when it was opened. */
  lemma IntactContent(s: State, id: nat, file: nat, content: Bytes, base: nat)
    requires Inv(s) && Sending(s, id, file, content, base)
    ensures Content(s.w.disk, file) == content
  {
    hide LoopOk, LoginOk, DataOk, StorOk, DiskOk;
  }

  /** A successful read moves on by at least one byte, or the file is all there. */
  lemma WriteProgress(s: State, drained: bool, got: int, id: nat, file: nat, content: Bytes, base: nat)
    requires Inv(s) && Sending(s, id, file, content, base) && got > 0
    ensures var t := OnDataWrite(s, drained, got);
      && Sending(t, id, file, content, base)
      && (Offset(s) < |content| ==> Offset(t) > Offset(s))
      && (Offset(s) == |content| ==> Offset(t) == |content|)
  {
    hide Queue, Inv, Content;
    IntactContent(s, id, file, content, base);
    if s.writeCb == NextChunk {
      var fs := s.stream.value;
      var n := ReadCount(fs, content, got);
      QueueSame(if fs.offset + n == fs.filesize then s.(writeCb := RetrDone) else s,
        content[fs.offset..fs.offset + n]);
    }
  }

  lemma QueueSame(s: State, bytes: Bytes)
    ensures var t := Queue(s, bytes);
      && t.writeCb == s.writeCb && t.tlsCb == s.tlsCb && t.stream == s.stream && t.bev.Some? == s.bev.Some?
      && t.w == s.w && t.uploadFd == s.uploadFd
      && (s.bev.Some? ==> t.bev.value == s.bev.value.(output := t.bev.value.output))
  {
  }

  /** How often the write callback runs. */
  function Writes(events: seq<Event>): nat {
    if events == [] then 0 else (if events[0].DataWrite? then 1 else 0) + Writes(events[1..])
  }

  /** No other file or listing is sent, no STOR opens the file, and no read fails. */
  ghost predicate Undisturbed(s: State, site: Site, events: seq<Event>, file: nat)
    decreases events
  {
    events != [] ==>
      && !RunsSender(s, events[0]) && !StorsInto(s, site, events[0], file)
      && (events[0].DataWrite? ==> events[0].got > 0)
      && Undisturbed(Step(s, site, events[0]), site, events[1..], file)
  }

  /** While its connection lives, a download goes on, and every write callback moves it on. */
  lemma {:induction false} DownloadGoesOn(s: State, site: Site, events: seq<Event>, id: nat, file: nat,
                                          content: Bytes, base: nat)
    requires Inv(s) && RunEnabled(s, site, events) && Undisturbed(s, site, events, file)
    requires Sending(s, id, file, content, base)
    requires var t := Run(s, site, events); t.bev.Some? && t.bev.value.id == id
    ensures var t := Run(s, site, events);
      && Sending(t, id, file, content, base)
      && (Offset(t) == |content| || Offset(t) >= Offset(s) + Writes(events))
    decreases events
  {
    hide Inv, Step, Enabled, RunsSender, Sending, SameDownload, Offset, Receives, StorsInto;
    if events != [] {
      var t := Step(s, site, events[0]);
      StepInv(s, site, events[0]);
      DownloadStep(s, site, events[0], id, file, content, base);
      if Elsewhere(t, id) {
        GoneForever(t, site, events[1..], id);
      } else {
        DownloadGoesOn(t, site, events[1..], id, file, content, base);
        OffsetBounded(s, id, file, content, base);
        OffsetBounded(Run(s, site, events), id, file, content, base);
      }
    }
  }

  lemma OffsetBounded(s: State, id: nat, file: nat, content: Bytes, base: nat)
    requires Sending(s, id, file, content, base)
    ensures Offset(s) <= |content|
  {
  }

  lemma DownloadStep(s: State, site: Site, e: Event, id: nat, file: nat, content: Bytes, base: nat)
    requires Inv(s) && Enabled(s, site, e) && Sending(s, id, file, content, base)
    requires !RunsSender(s, e) && !StorsInto(s, site, e, file) && (e.DataWrite? ==> e.got > 0)
    ensures var t := Step(s, site, e);
      Elsewhere(t, id) || (Sending(t, id, file, content, base)
        && (if e.DataWrite? && Offset(s) < |content| then Offset(t) > Offset(s) else Offset(t) >= Offset(s)))
  {
    hide Inv, Step, Enabled, RunsSender, Sending, Offset, SameDownload, StorsInto, StartsUpload, OnDataWrite, Clean;
    var t := Step(s, site, e);
    SendingHasBev(s, id, file, content, base);
    BevNumbered(s);
    StepReceives(s, site, e);
    assert LeavesFile(s, site, e, file);
    if e.DataWrite? {
      WriteProgress(s, e.drained, e.got, id, file, content, base);
      WriteStep(s, site, e);
      OffsetBounded(s, id, file, content, base);
    } else {
      StepSends(s, site, e);
      if t.bev.Some? {
        SendingKept(s, t, id, file, content, base);
      }
    }
  }

  lemma WriteStep(s: State, site: Site, e: Event)
    requires e.DataWrite?
    ensures Step(s, site, e) == OnDataWrite(s, e.drained, e.got)
  {
    hide OnDataWrite;
  }

  lemma SendingHasBev(s: State, id: nat, file: nat, content: Bytes, base: nat)
    requires Sending(s, id, file, content, base)
    ensures s.bev.Some? && s.bev.value.id == id && !ListingDue(s)
    ensures file < s.w.disk.next && s.uploadFd != File(file)
    ensures s.stream.Some? && s.stream.value.file == file
  {
  }

  // ---------------------------------------------------------------- the whole file

  /** A RETR line over TLS that opens this file, and whose first read succeeds. */
  predicate AcceptsRetr(s: State, site: Site, e: Event, file: nat) {
    && e.Line? && Select(Parse(e.input).command, s.authenticated) == RetrAction
    && |Parse(e.input).args| == 1 && s.bev.Some? && s.tlsRequired && e.env.openOk && e.env.got > 0
    && var name := site.resolve(s.cwd, Parse(e.input).args[0]);
       name in s.w.disk.names && s.w.disk.names[name] == file
  }

  lemma RetrStarts(s: State, site: Site, e: Event, file: nat)
    requires Inv(s) && !ListingDue(s) && AcceptsRetr(s, site, e, file) && s.uploadFd != File(file)
    ensures var t := Step(s, site, e);
      && s.bev.Some? && file in s.w.disk.files
      && Sending(t, s.bev.value.id, file, s.w.disk.files[file], |s.bev.value.output|)
      && (Offset(t) > 0 || s.w.disk.files[file] == "")
  {
    hide Inv, Select, Parse, Retr;
    var args := Parse(e.input).args;
    NamesLead(s, site.resolve(s.cwd, args[0]));
    FilesNumbered(s, file);
    RetrOpens(s, site, args, e.env, file);
  }

  lemma FilesNumbered(s: State, file: nat)
    requires Inv(s) && file in s.w.disk.files
    ensures file < s.w.disk.next
  {
    hide LoopOk, LoginOk, DataOk, StorOk, RetrOk;
  }

  lemma RetrOpens(s: State, site: Site, args: seq<string>, env: Env, file: nat)
    requires |args| == 1 && s.bev.Some? && s.tlsRequired && env.openOk && env.got > 0 && !ListingDue(s)
    requires site.resolve(s.cwd, args[0]) in s.w.disk.names && s.w.disk.names[site.resolve(s.cwd, args[0])] == file
    requires file in s.w.disk.files && file < s.w.disk.next && s.uploadFd != File(file)
    ensures var t := Retr(s, site, args, env);
      && Sending(t, s.bev.value.id, file, s.w.disk.files[file], |s.bev.value.output|)
      && (Offset(t) > 0 || s.w.disk.files[file] == "")
  {
    hide Queue;
    var content := s.w.disk.files[file];
    var t := OpenForReading(Say(s, FILE_STATUS_OKAY, "Sending file"), file);
    var n := ReadCount(t.stream.value, content, env.got);
    if n > 0 {
      QueueSame(if n == |content| then t.(writeCb := RetrDone) else t, content[..n]);
    }
  }

  /** What has been handed over is always the beginning of the file; once the completion callback is
      installed it is the whole file. */
  lemma HandedOver(s: State, id: nat, file: nat, content: Bytes, base: nat)
    requires Inv(s) && Sending(s, id, file, content, base)
    ensures s.bev.Some? && base <= |s.bev.value.output|
    ensures Offset(s) <= |content| && s.bev.value.output[base..] == content[..Offset(s)]
    ensures s.writeCb == RetrDone <==> s.bev.value.output[base..] == content
  {
    hide LoopOk, LoginOk, DataOk, StorOk, DiskOk;
    assert content[..|content|] == content;
  }

  /** RETR over TLS of a file that no upload is writing, then anything but another sender or a STOR of
      that file while the connection lives and reads succeed: what was handed over is always a beginning
      of the file, and after as many write callbacks as the file has bytes at most, it is the whole file
      and the completion callback is installed. */
  lemma DownloadHandsOverTheFile(s: State, site: Site, line: Event, file: nat, events: seq<Event>)
    requires Inv(s) && !ListingDue(s) && AcceptsRetr(s, site, line, file) && s.uploadFd != File(file)
    requires RunEnabled(s, site, [line] + events) && Undisturbed(Step(s, site, line), site, events, file)
    requires var t := Run(s, site, [line] + events);
      s.bev.Some? && t.bev.Some? && t.bev.value.id == s.bev.value.id
    ensures
      var t := Run(s, site, [line] + events);
      var base := |s.bev.value.output|;
      && file in s.w.disk.files && base <= |t.bev.value.output|
      && t.bev.value.output[base..] <= s.w.disk.files[file] && Content(t.w.disk, file) == s.w.disk.files[file]
      && (t.writeCb == RetrDone <==> t.bev.value.output[base..] == s.w.disk.files[file])
      && (Writes(events) + 1 >= |s.w.disk.files[file]| ==> t.writeCb == RetrDone)
  {
    hide Inv, Step, Enabled, AcceptsRetr, Sending, Offset, Undisturbed, Content;
    var u := Step(s, site, line);
    RunConcat(s, site, [line], events);
    RunOne(s, site, line);
    StepInv(s, site, line);
    RetrStarts(s, site, line, file);
    var content, id, base := s.w.disk.files[file], s.bev.value.id, |s.bev.value.output|;
    DownloadGoesOn(u, site, events, id, file, content, base);
    RunInv(u, site, events);
    HandedOver(Run(s, site, [line] + events), id, file, content, base);
    IntactContent(Run(s, site, [line] + events), id, file, content, base);
    assert content[..|content|] == content;
  }

  // ---------------------------------------------------------------- a failed read

  /** A file whose descriptor a failed read closed before its end. */
  ghost predicate Broken(s: State, id: nat) {
    && s.bev.Some? && s.bev.value.id == id && !ListingDue(s) && s.writeCb == NextChunk
    && s.stream.Some? && !s.stream.value.open && s.stream.value.offset < s.stream.value.filesize
  }

  /** A read that fails before the end of the file breaks the download. */
  lemma FailedReadBreaks(s: State, drained: bool, got: int, id: nat, file: nat, content: Bytes, base: nat)
    requires Sending(s, id, file, content, base) && Offset(s) < |content| && got < 0
    ensures var t := OnDataWrite(s, drained, got);
      Broken(t, id) && t.bev == s.bev && t.w == s.w
  {
  }

  lemma BrokenKept(s: State, t: State, id: nat)
    requires Broken(s, id) && SameDownload(s, t)
    ensures Broken(t, id)
  {
  }

  /** The write callback of a broken download does nothing at all, whatever a read would return. */
  lemma BrokenWrite(s: State, drained: bool, got: int, id: nat)
    requires Broken(s, id)
    ensures OnDataWrite(s, drained, got) == s
  {
  }

  ghost predicate NoSender(s: State, site: Site, events: seq<Event>)
    decreases events
  {
    events != [] ==> !RunsSender(s, events[0]) && NoSender(Step(s, site, events[0]), site, events[1..])
  }

  /** A broken download is never reported complete: while its connection lives and until a new RETR,
      LIST or NLST, its write callback stays the one that reads, and does nothing. */
  lemma {:induction false} BrokenForever(s: State, site: Site, events: seq<Event>, id: nat)
    requires Inv(s) && RunEnabled(s, site, events) && NoSender(s, site, events) && Broken(s, id)
    ensures var t := Run(s, site, events);
      Elsewhere(t, id) || (Broken(t, id) && forall drained, got :: OnDataWrite(t, drained, got) == t)
    decreases events
  {
    hide Inv, Step, Enabled, RunsSender, Broken, OnDataWrite, SameDownload, Clean, Elsewhere;
    if events == [] {
      forall drained, got ensures OnDataWrite(s, drained, got) == s {
        BrokenWrite(s, drained, got, id);
      }
    } else {
      var t := Step(s, site, events[0]);
      StepInv(s, site, events[0]);
      BrokenStep(s, site, events[0], id);
      if Elsewhere(t, id) {
        GoneForever(t, site, events[1..], id);
      } else {
        BrokenForever(t, site, events[1..], id);
      }
    }
  }

  lemma BrokenStep(s: State, site: Site, e: Event, id: nat)
    requires Inv(s) && Enabled(s, site, e) && Broken(s, id) && !RunsSender(s, e)
    ensures Elsewhere(Step(s, site, e), id) || Broken(Step(s, site, e), id)
  {
    hide Inv, Step, Enabled, RunsSender, SameDownload, StartsUpload, LeavesFile, OnDataWrite, Clean;
    var t := Step(s, site, e);
    BevNumbered(s);
    StepReceives(s, site, e);
    if e.DataWrite? {
      BrokenWrite(s, e.drained, e.got, id);
      WriteStep(s, site, e);
    } else {
      StepSends(s, site, e);
      if t.bev.Some? {
        BrokenKept(s, t, id);
      }
    }
  }

  // ---------------------------------------------------------------- a file that grows meanwhile

  /** More has been sent than the file had when it was opened, by two bytes or more, because it has grown. */
  ghost predicate Overrun(s: State, id: nat) {
    && s.bev.Some? && s.bev.value.id == id && !ListingDue(s) && s.writeCb == NextChunk
    && s.stream.Some? && s.stream.value.offset >= s.stream.value.filesize + 2
  }

  /** A read that goes past the end the file had when it was opened is not taken for the last one. */
  lemma GrownFileOverruns(s: State, drained: bool, got: int, id: nat)
    requires s.bev.Some? && s.bev.value.id == id && !ListingDue(s) && s.writeCb == NextChunk
    requires s.stream.Some? && s.stream.value.open && s.stream.value.offset < s.stream.value.filesize
    requires
      var fs := s.stream.value;
      var left := fs.filesize + 2 - fs.offset;
      fs.filesize + 2 <= |Content(s.w.disk, fs.file)| && left <= got && left <= FILE_CHUNK_SIZE
    ensures Overrun(OnDataWrite(s, drained, got), id) && OnDataWrite(s, drained, got).w == s.w
  {
    hide Content, Queue;
    var fs := s.stream.value;
    var content := Content(s.w.disk, fs.file);
    var n := ReadCount(fs, content, got);
    QueueSame(s, content[fs.offset..fs.offset + n]);
  }

  lemma OverrunKept(s: State, t: State, id: nat)
    requires Overrun(s, id) && SameDownload(s, t)
    ensures Overrun(t, id)
  {
  }

  lemma OverrunWrite(s: State, drained: bool, got: int, id: nat)
    requires Overrun(s, id)
    ensures Overrun(OnDataWrite(s, drained, got), id) && OnDataWrite(s, drained, got).w == s.w
  {
    hide Content, Queue;
    var fs := s.stream.value;
    var content := Content(s.w.disk, fs.file);
    var n := ReadCount(fs, content, got);
    if n > 0 {
      QueueSame(s, content[fs.offset..fs.offset + n]);
    }
  }

  lemma OverrunStep(s: State, site: Site, e: Event, id: nat)
    requires Inv(s) && Enabled(s, site, e) && Overrun(s, id) && !RunsSender(s, e)
    ensures Elsewhere(Step(s, site, e), id) || Overrun(Step(s, site, e), id)
  {
    hide Inv, Step, Enabled, RunsSender, SameDownload, StartsUpload, LeavesFile, OnDataWrite, Clean;
    BevNumbered(s);
    StepReceives(s, site, e);
    if e.DataWrite? {
      OverrunWrite(s, e.drained, e.got, id);
      WriteStep(s, site, e);
    } else {
      StepSends(s, site, e);
      if Step(s, site, e).bev.Some? {
        OverrunKept(s, Step(s, site, e), id);
      }
    }
  }

  /** Such a download is never reported complete either: no write callback says anything while its connection
      lives, until a new RETR, LIST or NLST. */
  lemma {:induction false} OverrunForever(s: State, site: Site, events: seq<Event>, id: nat)
    requires Inv(s) && RunEnabled(s, site, events) && NoSender(s, site, events) && Overrun(s, id)
    ensures var t := Run(s, site, events);
      Elsewhere(t, id) || (Overrun(t, id) && forall drained, got :: OnDataWrite(t, drained, got).w == t.w)
    decreases events
  {
    hide Inv, Step, Enabled, RunsSender, Overrun, OnDataWrite, SameDownload, Clean, Elsewhere;
    if events == [] {
      forall drained, got ensures OnDataWrite(s, drained, got).w == s.w {
        OverrunWrite(s, drained, got, id);
      }
    } else {
      var t := Step(s, site, events[0]);
      StepInv(s, site, events[0]);
      OverrunStep(s, site, events[0], id);
      if Elsewhere(t, id) {
        GoneForever(t, site, events[1..], id);
      } else {
        OverrunForever(t, site, events[1..], id);
      }
    }
  }

  /** A failed read, or one on a closed descriptor, counts as minus one byte: it has the download reported complete
      exactly when it comes one byte behind the end the file had. */
  lemma FailedReadCompletes(s: State, drained: bool, got: int)
    requires s.writeCb == NextChunk && s.stream.Some? && (got < 0 || !s.stream.value.open)
    ensures OnDataWrite(s, drained, got).writeCb == RetrDone
      <==> s.stream.value.offset == s.stream.value.filesize + 1
  {
  }

  // ---------------------------------------------------------------- without TLS

  /** A RETR line without TLS that opens this file. */
  predicate AcceptsPlainRetr(s: State, site: Site, e: Event, file: nat) {
    && e.Line? && Select(Parse(e.input).command, s.authenticated) == RetrAction
    && |Parse(e.input).args| == 1 && s.bev.Some? && !s.tlsRequired && e.env.openOk
    && var name := site.resolve(s.cwd, Parse(e.input).args[0]);
       name in s.w.disk.names && s.w.disk.names[name] == file
  }

  /** Everything there is to send has been handed over to data connection `id`, and this completion callback is
      installed. */
  ghost predicate Delivered(s: State, id: nat, cb: WriteCb, output: Bytes) {
    && s.bev.Some? && s.bev.value.id == id && s.bev.value.output == output
    && s.writeCb == cb && cb in {PlainDone, RetrDone, ListDone} && !ListingDue(s)
  }

  lemma PlainStarts(s: State, site: Site, e: Event, file: nat)
    requires Inv(s) && AcceptsPlainRetr(s, site, e, file)
    ensures s.bev.Some? && file < s.w.disk.next
    ensures
      var t := Step(s, site, e);
      var content := Content(s.w.disk, file);
      Delivered(t, s.bev.value.id, PlainDone, s.bev.value.output + content)
      && t.w.disk == s.w.disk && t.uploadFd == s.uploadFd
  {
    hide Inv, Select, Parse, Content;
    PlainIsNotTls(s);
    NamesLead(s, site.resolve(s.cwd, Parse(e.input).args[0]));
    FilesNumbered(s, file);
  }

  lemma PlainIsNotTls(s: State)
    requires Inv(s) && !s.tlsRequired
    ensures s.bev.Some? ==> !s.bev.value.tls
  {
    hide LoopOk, LoginOk, StorOk, RetrOk, DiskOk;
  }

  /** The reply that goes with a completion callback. */
  function CompletionOf(cb: WriteCb): Reply {
    Reply(DATA_CONNECTION_CLOSING, if cb == ListDone then "Directory send OK" else "Transfer complete")
  }

  /** A completion callback keeps the connection. It says that the transfer is over and has the connection closed
      after the reply; the one of a plain RETR only once everything has drained. */
  lemma CompletionWrite(s: State, drained: bool, got: int, id: nat, cb: WriteCb, output: Bytes)
    requires Delivered(s, id, cb, output)
    ensures
      var t := OnDataWrite(s, drained, got);
      && Delivered(t, id, cb, output)
      && (drained || cb != PlainDone ==> t.controlCb == CloseData && t.w.replies == s.w.replies + [CompletionOf(cb)])
      && (!drained && cb == PlainDone ==> t == s)
  {
  }

  lemma DeliveredStep(s: State, site: Site, e: Event, id: nat, cb: WriteCb, output: Bytes)
    requires Inv(s) && Enabled(s, site, e) && Delivered(s, id, cb, output) && !RunsSender(s, e)
    ensures Elsewhere(Step(s, site, e), id) || Delivered(Step(s, site, e), id, cb, output)
  {
    hide Inv, Step, Enabled, RunsSender, StartsUpload, LeavesFile, OnDataWrite, Clean;
    BevNumbered(s);
    StepReceives(s, site, e);
    if e.DataWrite? {
      CompletionWrite(s, e.drained, e.got, id, cb, output);
      WriteStep(s, site, e);
    } else {
      StepSends(s, site, e);
    }
  }

  /** What has been handed over stays, with its completion callback, until another sender, as long as the
      connection lives. */
  lemma {:induction false} DeliveredRun(s: State, site: Site, events: seq<Event>, id: nat, cb: WriteCb, output: Bytes)
    requires Inv(s) && RunEnabled(s, site, events) && NoSender(s, site, events) && Delivered(s, id, cb, output)
    ensures var t := Run(s, site, events); Elsewhere(t, id) || Delivered(t, id, cb, output)
    decreases events
  {
    hide Inv, Step, Enabled, RunsSender, Delivered, Elsewhere;
    if events != [] {
      var t := Step(s, site, events[0]);
      StepInv(s, site, events[0]);
      DeliveredStep(s, site, events[0], id, cb, output);
      if Elsewhere(t, id) {
        GoneForever(t, site, events[1..], id);
      } else {
        DeliveredRun(t, site, events[1..], id, cb, output);
      }
    }
  }

  /** RETR without TLS of a file that no upload is writing, then anything but another sender or a STOR of
      that file while the connection lives: exactly the file, as it still is, has been handed over behind
      what was there before, whenever in between its bytes were read; and the write callback reports
      completion once nothing is left to send, and not before. */
  lemma PlainRetrHandsOverTheFile(s: State, site: Site, line: Event, file: nat, events: seq<Event>, got: int)
    requires Inv(s) && AcceptsPlainRetr(s, site, line, file) && s.uploadFd != File(file)
    requires RunEnabled(s, site, [line] + events) && NoSender(Step(s, site, line), site, events)
    requires NoStorInto(Step(s, site, line), site, events, file)
    requires var t := Run(s, site, [line] + events);
      s.bev.Some? && t.bev.Some? && t.bev.value.id == s.bev.value.id
    ensures
      var t := Run(s, site, [line] + events);
      && Delivered(t, s.bev.value.id, PlainDone, s.bev.value.output + Content(s.w.disk, file))
      && Content(t.w.disk, file) == Content(s.w.disk, file)
      && OnDataWrite(t, false, got) == t
      && OnDataWrite(t, true, got).w.replies == t.w.replies + [Reply(226, "Transfer complete")]
      && OnDataWrite(t, true, got).controlCb == CloseData
  {
    hide Inv, Step, AcceptsPlainRetr, NoSender, NoStorInto, Content, OnDataWrite;
    RunConcat(s, site, [line], events);
    RunOne(s, site, line);
    StepInv(s, site, line);
    PlainStarts(s, site, line, file);
    var id, output := s.bev.value.id, s.bev.value.output + Content(s.w.disk, file);
    DeliveredRun(Step(s, site, line), site, events, id, PlainDone, output);
    FileKept(Step(s, site, line), site, events, file);
    var t := Run(s, site, [line] + events);
    CompletionWrite(t, false, got, id, PlainDone, output);
    CompletionWrite(t, true, got, id, PlainDone, output);
  }

  // ---------------------------------------------------------------- upload, then download

  /** What is in a file that no upload is writing is what a later RETR that opens it hands over, whatever
      happened in between short of a STOR of that file. */
  lemma StoredThenSent(s: State, site: Site, between: seq<Event>, line: Event, file: nat, events: seq<Event>)
    requires Inv(s) && file in s.w.disk.files && s.uploadFd != File(file)
    requires RunEnabled(s, site, between) && NoStorInto(s, site, between, file)
    requires var m := Run(s, site, between);
      && m.bev.Some? && !ListingDue(m) && AcceptsRetr(m, site, line, file)
      && RunEnabled(m, site, [line] + events) && Undisturbed(Step(m, site, line), site, events, file)
      && var t := Run(m, site, [line] + events); t.bev.Some? && t.bev.value.id == m.bev.value.id
    requires Writes(events) + 1 >= |s.w.disk.files[file]|
    ensures
      var m := Run(s, site, between);
      var t := Run(m, site, [line] + events);
      && t.writeCb == RetrDone
      && |m.bev.value.output| <= |t.bev.value.output|
      && t.bev.value.output[|m.bev.value.output|..] == s.w.disk.files[file]
  {
    hide Inv, Step, Enabled, AcceptsRetr, Undisturbed, ListingDue, NoStorInto;
    FilesNumbered(s, file);
    FileKept(s, site, between, file);
    RunInv(s, site, between);
    DownloadHandsOverTheFile(Run(s, site, between), site, line, file, events);
  }
}
