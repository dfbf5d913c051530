/** The control connection over a whole session: what is said stays said, when the login timer ends it, which
    modes are in force, and what happens once a reply has been written. */
module SessionControl {
  import opened Options
  import opened CommandParser
  import opened Disks
  import opened Dispatch
  import opened Replies
  import opened Session
  import opened SessionInvariant
  import opened SessionLogin
  import opened SessionReplies

  /** Replies are only added, with codes among these. */
  ghost predicate Adds(s: State, t: State, codes: set<nat>) {
    && s.w.replies <= t.w.replies
    && forall i :: |s.w.replies| <= i < |t.w.replies| ==> t.w.replies[i].code in codes
  }

  const TRANSFER_CODES: set<nat> := {DATA_CONNECTION_CLOSING, INSUFFICIENT_STORAGE}

  lemma AddsSay(s: State, u: State, codes: set<nat>, code: nat, text: string)
    requires Adds(s, u, codes) && code in codes
    ensures Adds(s, Say(u, code, text), codes)
    ensures Quiet(s, u) ==> Quiet(s, Say(u, code, text))
  {
  }

  lemma AddsNothing(s: State, u: State, codes: set<nat>)
    requires u.w.replies == s.w.replies
    ensures Adds(s, u, codes)
  {
  }

  lemma AddsListing(s: State, u: State, listing: Bytes)
    requires Adds(s, u, TRANSFER_CODES) && Quiet(s, u)
    ensures Adds(s, SendListing(u, listing), TRANSFER_CODES) && Quiet(s, SendListing(u, listing))
  {
    hide Say, Queue, NotAlone;
    AddsSay(s, u.(controlCb := CloseData, tlsCb := CloseOnTls), TRANSFER_CODES, DATA_CONNECTION_CLOSING,
      "Directory send OK");
    QueueQuiet(u.(writeCb := ListDone), listing);
  }

  lemma DrainQuiet(s: State)
    ensures Quiet(s, Drain(s)) && Drain(s).w.replies == s.w.replies
  {
  }

  lemma AddsEof(s: State, u: State)
    requires Adds(s, u, TRANSFER_CODES) && Quiet(s, u)
    ensures Adds(s, OnEof(u), TRANSFER_CODES) && Quiet(s, OnEof(u))
  {
    hide Drain, Say;
    DrainQuiet(u);
    AddsSay(s, u, TRANSFER_CODES, INSUFFICIENT_STORAGE, "An error occurred");
    AddsSay(s, Drain(u).(uploadFd := Closed), TRANSFER_CODES, DATA_CONNECTION_CLOSING, "Transfer complete");
  }

  lemma ConnectedAdds(s: State, listing: Lister)
    ensures Adds(s, OnConnected(s, listing), TRANSFER_CODES) && Quiet(s, OnConnected(s, listing))
  {
    hide Close, SendListing;
    AddsNothing(s, s, TRANSFER_CODES);
    if s.bev.Some? {
      var u := s.(dataActive := s.dataActive + 1, bev := Some(s.bev.value.(handshaken := true)));
      AddsNothing(s, u, TRANSFER_CODES);
      AddsListing(s, u, listing(u.cwd, u.saved));
      CloseQuiet(u);
    }
  }

  lemma DataEventAdds(s: State, connected: bool, timeout: bool, error: bool, eof: bool, listing: Lister)
    ensures var t := OnDataEvent(s, connected, timeout, error, eof, listing);
      Adds(s, t, TRANSFER_CODES) && Quiet(s, t)
  {
    hide OnEof, Close, OnConnected;
    AddsNothing(s, s, TRANSFER_CODES);
    ConnectedAdds(s, listing);
    var t := if connected then OnConnected(s, listing) else s;
    AddsEof(s, t);
    CloseQuiet(t);
    CloseQuiet(OnEof(t));
  }

  lemma DataWriteAdds(s: State, drained: bool, got: int)
    ensures var t := OnDataWrite(s, drained, got); Adds(s, t, TRANSFER_CODES) && Quiet(s, t)
  {
    hide SendNextChunk, Say;
    AddsNothing(s, s, TRANSFER_CODES);
    AddsNothing(s, s.(controlCb := CloseData), TRANSFER_CODES);
    AddsSay(s, s.(controlCb := CloseData), TRANSFER_CODES, DATA_CONNECTION_CLOSING, "Transfer complete");
    AddsSay(s, s.(controlCb := CloseData), TRANSFER_CODES, DATA_CONNECTION_CLOSING, "Directory send OK");
    if s.stream.Some? {
      ChunkQuiet(s, got);
    }
  }

  /** Events after which the control connection's pending callback is another one. */
  predicate EndsControl(e: Event) {
    e.ControlWritten? || e.ControlGone? || e == TimerFires(AUTH_TIMER)
  }

  lemma TimerAdds(s: State, id: nat)
    ensures var t := OnTimer(s, id); SameModes(s, t) && t.w.closed == s.w.closed
    ensures var t := OnTimer(s, id);
      if id == AUTH_TIMER then
        t.w.replies == s.w.replies + [Reply(SERVICE_NOT_AVAILABLE, "Control connection timed out !")]
        && t.controlCb == DisableControl
      else t.w.replies == s.w.replies && t.controlCb == s.controlCb
  {
  }

  lemma ControlWrittenAdds(s: State)
    ensures var t := OnControlWritten(s);
      && t.w.replies == s.w.replies && SameModes(s, t) && t.controlCb == NoControl
      && t.w.closed == (s.w.closed || s.controlCb == DisableControl)
  {
    hide Close;
    CloseQuiet(s);
  }

  lemma AcceptAdds(s: State, site: Site, peer: string, created: bool)
    ensures var t := OnAccept(s, site, peer, created);
      t.w.replies == s.w.replies && SameModes(s, t) && SameControl(s, t)
  {
  }

  /** The codes an event can add. */
  function EventCodes(e: Event): set<nat> {
    if e == TimerFires(AUTH_TIMER) then {SERVICE_NOT_AVAILABLE}
    else if e.DataEvent? || e.DataWrite? then TRANSFER_CODES
    else {}
  }

  lemma EventSpeaks(s: State, site: Site, e: Event)
    requires !e.Line?
    ensures var t := Step(s, site, e);
      && Adds(s, t, EventCodes(e)) && SameModes(s, t)
      && (!EndsControl(e) ==> KeepsControl(s, t))
      && (!EndsControl(e) && !e.DataEvent? && !e.DataWrite? ==> SameControl(s, t))
  {
    hide OnDataEvent, OnDataWrite, OnAccept, OnTimer, OnControlWritten;
    match e
    case DataWrite(drained, got) => DataWriteAdds(s, drained, got);
    case DataEvent(connected, timeout, error, eof, listing) =>
      DataEventAdds(s, connected, timeout, error, eof, listing);
    case Accept(peer, created) => AcceptAdds(s, site, peer, created);
    case TimerFires(id) => TimerAdds(s, id);
    case ControlWritten => ControlWrittenAdds(s);
    case DataRead => DrainQuiet(s);
    case _ =>
  }

  lemma LineAdds(s: State, site: Site, e: Event)
    requires e.Line?
    ensures var t := Step(s, site, e);
      && Adds(s, t, RepliesFor(HandlerFor(s, e)))
      && (s.authenticated ==> KeepsControl(s, t))
      && (!s.authenticated ==> t.controlCb == s.controlCb || t.controlCb == DisableControl)
      && t.w.closed == s.w.closed
  {
    hide Step, OnCommand, Parse, Select, RepliesFor, ListsNothing, RetrUnanswered, Refuses, NothingDone, SameModes;
    var cmd := Parse(e.input);
    LineRuns(s, site, e);
    SelectRespectsLogin(cmd.command, s.authenticated);
    CommandSpeaks(s, site, HandlerFor(s, e), cmd.args, e.env);
  }

  // ---------------------------------------------------------------- what is said stays said

  lemma StepAdds(s: State, site: Site, e: Event)
    ensures s.w.replies <= Step(s, site, e).w.replies
  {
    hide Step, RepliesFor, HandlerFor, EventCodes;
    if e.Line? {
      LineAdds(s, site, e);
    } else {
      EventSpeaks(s, site, e);
    }
  }

  lemma {:induction false} RepliesStay(s: State, site: Site, events: seq<Event>)
    ensures s.w.replies <= Run(s, site, events).w.replies
    decreases events
  {
    hide Step;
    if events != [] {
      StepAdds(s, site, events[0]);
      RepliesStay(Step(s, site, events[0]), site, events[1..]);
    }
  }

  /** In every session the greeting is the first thing said. */
  lemma GreetingComesFirst(disk: Disk, site: Site, events: seq<Event>)
    ensures var replies := Run(Init(disk), site, events).w.replies;
      replies != [] && replies[0] == Reply(220, "Welcome to CFTP Server")
  {
    hide Run;
    RepliesStay(Init(disk), site, events);
  }

  // ---------------------------------------------------------------- the login timer

  lemma LoginTimerOf(s: State)
    requires Inv(s)
    ensures AUTH_TIMER in s.w.timers <==> !s.authenticated
    ensures AUTH_TIMER in s.w.released <==> s.authenticated
    ensures s.authenticated ==> AUTH_TIMER !in s.w.armed
  {
    hide DataOk, StorOk, RetrOk, DiskOk;
  }

  /** In every session the login timer exists exactly until somebody is logged in, which releases it; from then
      on it cannot go off. */
  lemma LoginEndsItsTimer(disk: Disk, site: Site, events: seq<Event>)
    requires Sound(disk) && RunEnabled(Init(disk), site, events)
    ensures
      var s := Run(Init(disk), site, events);
      && (AUTH_TIMER in s.w.timers <==> !s.authenticated)
      && (AUTH_TIMER in s.w.released <==> s.authenticated)
      && (s.authenticated ==> AUTH_TIMER !in s.w.armed && !Enabled(s, site, TimerFires(AUTH_TIMER)))
  {
    hide Inv, Run, RunEnabled;
    InitInv(disk);
    RunInv(Init(disk), site, events);
    LoginTimerOf(Run(Init(disk), site, events));
  }

  /** No reply of the second state but not the first has this code. */
  ghost predicate NeverSaid(s: State, t: State, code: nat) {
    s.w.replies <= t.w.replies && forall i :: |s.w.replies| <= i < |t.w.replies| ==> t.w.replies[i].code != code
  }

  lemma NotTimedOutStep(s: State, site: Site, e: Event)
    requires Inv(s) && s.authenticated && Enabled(s, site, e)
    ensures NeverSaid(s, Step(s, site, e), SERVICE_NOT_AVAILABLE)
  {
    hide Inv, Step, RepliesFor, HandlerFor;
    LoginTimerOf(s);
    if e.Line? {
      LineAdds(s, site, e);
      LoginCodes(HandlerFor(s, e));
    } else {
      EventSpeaks(s, site, e);
    }
  }

  /** Once logged in, a client is never told that the connection has timed out. */
  lemma {:induction false} NeverTimedOut(s: State, site: Site, events: seq<Event>)
    requires Inv(s) && s.authenticated && RunEnabled(s, site, events)
    ensures NeverSaid(s, Run(s, site, events), SERVICE_NOT_AVAILABLE)
    decreases events
  {
    hide Inv, Step, Enabled;
    if events != [] {
      NotTimedOutStep(s, site, events[0]);
      StepInv(s, site, events[0]);
      LoginStep(s, site, events[0]);
      NeverTimedOut(Step(s, site, events[0]), site, events[1..]);
    }
  }

  // ---------------------------------------------------------------- once the reply is written

  /** No reply gets written. */
  predicate NoFlush(events: seq<Event>) {
    forall i :: 0 <= i < |events| ==> !events[i].ControlWritten?
  }

  lemma CloseStaysStep(s: State, site: Site, e: Event)
    requires Inv(s) && s.authenticated && Enabled(s, site, e) && s.controlCb == CloseData && !e.ControlWritten?
    ensures Step(s, site, e).controlCb == CloseData
  {
    hide Inv, RepliesFor, HandlerFor, EventCodes, OnCommand, OnDataEvent, OnDataWrite, OnAccept, OnTimer, SameModes;
    LoginTimerOf(s);
    if e.Line? {
      LineAdds(s, site, e);
    } else if !e.ControlGone? {
      EventSpeaks(s, site, e);
    }
  }

  lemma {:induction false} CloseStays(s: State, site: Site, events: seq<Event>)
    requires Inv(s) && s.authenticated && RunEnabled(s, site, events) && s.controlCb == CloseData && NoFlush(events)
    ensures Run(s, site, events).controlCb == CloseData
    decreases events
  {
    hide Inv, Step, Enabled;
    if events != [] {
      CloseStaysStep(s, site, events[0]);
      StepInv(s, site, events[0]);
      LoginStep(s, site, events[0]);
      CloseStays(Step(s, site, events[0]), site, events[1..]);
    }
  }

  /** When the data connection is to be closed after the reply, it is, as soon as the reply has been written,
      whatever comes before that: no data connection, no callback and no upload are left, and nothing is said. */
  lemma ClosesAfterTheReply(s: State, site: Site, events: seq<Event>)
    requires Inv(s) && s.authenticated && s.controlCb == CloseData && NoFlush(events)
    requires RunEnabled(s, site, events + [ControlWritten])
    ensures
      var t := Run(s, site, events + [ControlWritten]);
      && NoDataConnection(t) && t.uploadFd == Closed && t.controlCb == NoControl && !t.w.closed
      && t.w == Run(s, site, events).w
  {
    hide Inv, Step, Enabled, Run, RunEnabled, NoDataConnection;
    RunConcat(s, site, events, [ControlWritten]);
    var m := Run(s, site, events);
    RunOne(m, site, ControlWritten);
    RunInv(s, site, events);
    CloseStays(s, site, events);
    WrittenCloses(m, site);
  }

  lemma WrittenCloses(s: State, site: Site)
    requires Inv(s) && s.controlCb == CloseData && Enabled(s, site, ControlWritten)
    ensures
      var t := Step(s, site, ControlWritten);
      NoDataConnection(t) && t.uploadFd == Closed && t.controlCb == NoControl && t.w == s.w && !t.w.closed
  {
    hide Inv, Close, OnCommand;
    CloseInv(s);
  }

  lemma DisableStaysStep(s: State, site: Site, e: Event)
    requires Inv(s) && !s.authenticated && Enabled(s, site, e) && s.controlCb == DisableControl && !e.ControlWritten?
    ensures Step(s, site, e).controlCb == DisableControl
  {
    hide Inv, RepliesFor, HandlerFor, EventCodes, OnCommand, OnDataEvent, OnDataWrite, OnAccept, OnTimer, SameModes;
    NothingOpenYet(s);
    if e.Line? {
      LineAdds(s, site, e);
    } else if e.TimerFires? {
      TimerAdds(s, e.id);
    } else if !e.ControlGone? {
      EventSpeaks(s, site, e);
    }
  }

  lemma NothingOpenYet(s: State)
    requires Inv(s) && !s.authenticated
    ensures s.bev.None?
  {
    hide LoopOk, DataOk, StorOk, RetrOk, DiskOk;
  }

  lemma {:induction false} DisableStays(s: State, site: Site, events: seq<Event>)
    requires Inv(s) && RunEnabled(s, site, events) && s.controlCb == DisableControl && NoFlush(events)
    requires !Run(s, site, events).authenticated
    ensures Run(s, site, events).controlCb == DisableControl
    decreases events
  {
    hide Inv, Step, Enabled;
    if s.authenticated {
      LoginIsForever(s, site, events);
    }
    if events != [] {
      DisableStaysStep(s, site, events[0]);
      StepInv(s, site, events[0]);
      DisableStays(Step(s, site, events[0]), site, events[1..]);
    }
  }

  /** What ends a session from the server's side: the login timer, and a USER or PASS without exactly one
      argument. */
  predicate IsLastStraw(s: State, e: Event) {
    || e == TimerFires(AUTH_TIMER)
    || (e.Line? && HandlerFor(s, e) in {UserAction, PassAction} && |Parse(e.input).args| != 1)
  }

  /** The login timer, or a malformed USER or PASS, is answered, 421 or 501, and unless the client has logged in
      by then the session is over as soon as a reply has been written. Both come before login only. */
  lemma LastStrawEndsSession(s: State, site: Site, e: Event, events: seq<Event>)
    requires Inv(s) && IsLastStraw(s, e) && RunEnabled(s, site, [e] + events + [ControlWritten]) && NoFlush(events)
    requires !Run(s, site, [e] + events).authenticated
    ensures !s.authenticated
    ensures Says(s, Step(s, site, e), if e.Line? then SYNTAX_ERROR_PARAMS else SERVICE_NOT_AVAILABLE)
    ensures Run(s, site, [e] + events + [ControlWritten]).w.closed
  {
    hide Inv, Step, Enabled, Run, RunEnabled, IsLastStraw, Says;
    RunConcat(s, site, [e] + events, [ControlWritten]);
    RunConcat(s, site, [e], events);
    RunOne(s, site, e);
    StepInv(s, site, e);
    LastStraw(s, site, e);
    DisableStays(Step(s, site, e), site, events);
    var m := Run(s, site, [e] + events);
    RunOne(m, site, ControlWritten);
    WrittenEnds(m, site);
  }

  lemma LastStraw(s: State, site: Site, e: Event)
    requires Inv(s) && IsLastStraw(s, e) && Enabled(s, site, e)
    ensures !s.authenticated
    ensures var t := Step(s, site, e);
      t.controlCb == DisableControl && Says(s, t, if e.Line? then SYNTAX_ERROR_PARAMS else SERVICE_NOT_AVAILABLE)
  {
    hide Inv, Select, Parse, User, Pass, OnTimer, OnCommand;
    if e.Line? {
      var args := Parse(e.input).args;
      SelectNames(Parse(e.input).command, s.authenticated);
      LineRuns(s, site, e);
      LoginRuns(s, site, args, e.env);
      UserSpeaks(s, args, e.env);
      PassSpeaks(s, args, e.env);
    } else {
      LoginTimerOf(s);
      TimerAdds(s, AUTH_TIMER);
      assert OnTimer(s, AUTH_TIMER).w.replies[|s.w.replies|].code == SERVICE_NOT_AVAILABLE;
    }
  }

  lemma WrittenEnds(s: State, site: Site)
    requires s.controlCb == DisableControl
    ensures Step(s, site, ControlWritten).w.closed
  {
    hide Close, OnCommand;
  }
}
