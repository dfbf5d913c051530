/** Who gets logged in, over whole sessions, and what holds before and after. */
module SessionLogin {
  import opened Options
  import opened CommandParser
  import opened CommandWords
  import opened Disks
  import opened Replies
  import opened Dispatch
  import opened Session
  import opened SessionInvariant
  import opened SessionFrames

  // ---------------------------------------------------------------- login

  /** A PASS line, before login, whose password the system accepts for the name in force. */
  predicate IsAcceptedPass(s: State, e: Event) {
    && e.Line? && !s.authenticated
    && Parse(e.input).command == "PASS" && |Parse(e.input).args| == 1
    && e.env.accepts(s.username, Parse(e.input).args[0])
  }

  /** A USER line, before login, that names an existing user whose name does not begin with "root". */
  predicate IsAcceptedUser(s: State, e: Event) {
    && e.Line? && !s.authenticated
    && Parse(e.input).command == "USER" && |Parse(e.input).args| == 1
    && e.env.userExists && Prefix(Parse(e.input).args[0], 4) != "root"
  }

  /** Only the word USER runs the USER action, and so on. */
  lemma SelectNames(name: string, authenticated: bool)
    ensures Select(name, authenticated) == UserAction <==> !authenticated && name == "USER"
    ensures Select(name, authenticated) == PassAction <==> !authenticated && name == "PASS"
    ensures Select(name, authenticated) == StorAction <==> authenticated && name == "STOR"
  {
    hide Select, ActionOf;
    SelectExactly(name, authenticated);
    ActionWord(name);
    KnownWords();
  }

  lemma KnownWords()
    ensures ActionOf("USER") == Some(UserAction) && ActionOf("PASS") == Some(PassAction)
    ensures ActionOf("STOR") == Some(StorAction)
  {
  }

  lemma DataEventLogin(s: State, connected: bool, timeout: bool, error: bool, eof: bool,
                       listing: Lister)
    ensures SameSelf(s, OnDataEvent(s, connected, timeout, error, eof, listing))
  {
    hide SendListing, Close, OnEof;
    var t := if connected then OnConnected(s, listing) else s;
    assert SameSelf(s, t) by {
      if connected && s.bev.Some? {
        var u := s.(dataActive := s.dataActive + 1, bev := Some(s.bev.value.(handshaken := true)));
        ListingFrame(u, listing(u.cwd, u.saved));
        CloseFrame(u);
      }
    }
    EofLogin(t);
    CloseFrame(t);
    CloseFrame(OnEof(t));
  }

  lemma EofLogin(s: State)
    ensures SameSelf(s, OnEof(s))
  {
  }

  lemma EventLogin(s: State, site: Site, e: Event)
    requires !e.Line?
    ensures SameSelf(s, Step(s, site, e))
  {
    hide OnDataWrite, OnDataEvent, OnAccept, OnTimer, OnControlWritten;
    match e
    case DataWrite(drained, got) => DataWriteLogin(s, drained, got);
    case DataEvent(connected, timeout, error, eof, listing) =>
      DataEventLogin(s, connected, timeout, error, eof, listing);
    case Accept(peer, created) => AcceptLogin(s, site, peer, created);
    case TimerFires(id) => TimerLogin(s, id);
    case ControlWritten => ControlWrittenLogin(s);
    case _ =>
  }

  lemma DataWriteLogin(s: State, drained: bool, got: int)
    ensures SameSelf(s, OnDataWrite(s, drained, got))
  {
    hide SendNextChunk, SameUpload, Say;
    SaySame(s.(controlCb := CloseData), DATA_CONNECTION_CLOSING, "Transfer complete");
    SaySame(s.(controlCb := CloseData), DATA_CONNECTION_CLOSING, "Directory send OK");
    if s.stream.Some? {
      ChunkFrame(s, got);
    }
  }

  lemma AcceptLogin(s: State, site: Site, peer: string, created: bool)
    ensures SameSelf(s, OnAccept(s, site, peer, created))
  {
  }

  lemma TimerLogin(s: State, id: nat)
    ensures SameSelf(s, OnTimer(s, id))
  {
  }

  lemma ControlWrittenLogin(s: State)
    ensures SameSelf(s, OnControlWritten(s))
  {
    hide Close;
    CloseFrame(s);
  }

  /** One step: login is never lost and is gained only by an accepted PASS, which leaves the name as it
      is; the name changes only by an accepted USER, before login, to what that line says. */
  lemma LoginStep(s: State, site: Site, e: Event)
    ensures var t := Step(s, site, e);
      && (t.authenticated <==> s.authenticated || IsAcceptedPass(s, e))
      && t.username == (if IsAcceptedUser(s, e) then Prefix(Parse(e.input).args[0], USERNAME_SIZE) else s.username)
  {
    hide Select, Parse;
    if e.Line? {
      hide OnCommand;
      var cmd := Parse(e.input);
      var handler := Select(cmd.command, s.authenticated);
      SelectNames(cmd.command, s.authenticated);
      LoginCommand(s, site, handler, cmd.args, e.env);
    } else {
      hide Step, IsAcceptedPass, IsAcceptedUser;
      OnlyLinesAccepted(s, e);
      EventLogin(s, site, e);
    }
  }

  lemma OnlyLinesAccepted(s: State, e: Event)
    requires !e.Line?
    ensures !IsAcceptedPass(s, e) && !IsAcceptedUser(s, e)
  {
  }

  /** What USER and PASS do to the login, and that nothing else does. */
  lemma LoginCommand(s: State, site: Site, handler: Handler, args: seq<string>, env: Env)
    ensures var t := OnCommand(s, site, handler, args, env);
      && (t.authenticated <==>
           s.authenticated || (handler == PassAction && |args| == 1 && env.accepts(s.username, args[0])))
      && t.username
         == if handler == UserAction && |args| == 1 && Prefix(args[0], 4) != "root" && env.userExists
            then Prefix(args[0], USERNAME_SIZE) else s.username
  {
    hide User, Pass;
    if handler == UserAction {
      UserLogin(s, args, env);
    } else if handler == PassAction {
      PassLogin(s, args, env);
    } else {
      hide OnCommand;
      CommandLogin(s, site, handler, args, env);
    }
  }

  lemma UserLogin(s: State, args: seq<string>, env: Env)
    ensures var t := User(s, args, env);
      && t.authenticated == s.authenticated
      && t.username
         == if |args| == 1 && Prefix(args[0], 4) != "root" && env.userExists
            then Prefix(args[0], USERNAME_SIZE) else s.username
  {
    hide Prefix;
  }

  lemma PassLogin(s: State, args: seq<string>, env: Env)
    ensures var t := Pass(s, args, env);
      && t.username == s.username
      && (t.authenticated <==> s.authenticated || (|args| == 1 && env.accepts(s.username, args[0])))
  {
  }

  // ---------------------------------------------------------------- login over a run

  /** Once logged in, a session stays logged in, under the same name. */
  lemma {:induction false} LoginIsForever(s: State, site: Site, events: seq<Event>)
    requires s.authenticated
    ensures SameLogin(s, Run(s, site, events))
    decreases events
  {
    hide Step;
    if events != [] {
      LoginStep(s, site, events[0]);
      LoginIsForever(Step(s, site, events[0]), site, events[1..]);
    }
  }

  lemma PassIsNotUser(s: State, e: Event)
    ensures !(IsAcceptedPass(s, e) && IsAcceptedUser(s, e))
  {
    hide Parse;
  }

  /** A session that is logged in was let in by one accepted PASS, for the name in force at that
      moment, and still has that name. */
  lemma {:induction false} LoginComesFromPass(s: State, site: Site, events: seq<Event>)
    requires !s.authenticated && Run(s, site, events).authenticated
    ensures exists i :: (0 <= i < |events|
      && IsAcceptedPass(Run(s, site, events[..i]), events[i])
      && Run(s, site, events).username == Run(s, site, events[..i]).username)
    decreases events
  {
    hide Step, IsAcceptedPass, IsAcceptedUser;
    if events != [] {
      var t := Step(s, site, events[0]);
      LoginStep(s, site, events[0]);
      if t.authenticated {
        LoginIsForever(t, site, events[1..]);
        PassIsNotUser(s, events[0]);
        assert events[..0] == [];
        assert IsAcceptedPass(Run(s, site, events[..0]), events[0]);
      } else {
        LoginComesFromPass(t, site, events[1..]);
        var i :| 0 <= i < |events[1..]|
          && IsAcceptedPass(Run(t, site, events[1..][..i]), events[1..][i])
          && Run(t, site, events[1..]).username == Run(t, site, events[1..][..i]).username;
        assert events[..i + 1][1..] == events[1..][..i];
        assert IsAcceptedPass(Run(s, site, events[..i + 1]), events[i + 1]);
      }
    }
  }

  /** The name in force after a run: what the last accepted USER said, read off the run from its end. */
  function NameInForce(s: State, site: Site, events: seq<Event>): string
    decreases events
  {
    if events == [] then s.username
    else
      var n := |events| - 1;
      if IsAcceptedUser(Run(s, site, events[..n]), events[n])
      then Prefix(Parse(events[n].input).args[0], USERNAME_SIZE)
      else NameInForce(s, site, events[..n])
  }

  lemma {:induction false} NameIsLastUser(s: State, site: Site, events: seq<Event>)
    requires RunEnabled(s, site, events)
    ensures Run(s, site, events).username == NameInForce(s, site, events)
    decreases events
  {
    hide Step, Parse, IsAcceptedUser;
    if events != [] {
      var n := |events| - 1;
      assert events[..n + 1] == events;
      RunSplit(s, site, events, n);
      LoginStep(Run(s, site, events[..n]), site, events[n]);
      RunEnabledPrefix(s, site, events, n);
      NameIsLastUser(s, site, events[..n]);
    }
  }

  /** No listener, no data connection, no transfer. */
  ghost predicate NothingOpen(s: State) {
    s.w.listeners == {} && s.listener.None? && NoDataConnection(s)
  }

  /** Some line of the run was an accepted PASS, and the name then in force is in force at the end. */
  ghost predicate WasLetIn(s: State, site: Site, events: seq<Event>) {
    exists i :: (0 <= i < |events|
      && IsAcceptedPass(Run(s, site, events[..i]), events[i])
      && NameInForce(s, site, events[..i]) == NameInForce(s, site, events))
  }

  /** Whatever happens in a session: before login nothing is listening or open; afterwards the session
      was let in by PASS for the name the last accepted USER gave, which does not begin with "root";
      no timer is released twice and the only listener is the one pointed to; without a data connection
      no data callback is installed, and the end-of-stream callback has an open file. */
  lemma SessionSafety(disk: Disk, site: Site, events: seq<Event>)
    requires Sound(disk) && RunEnabled(Init(disk), site, events)
    ensures var s := Run(Init(disk), site, events);
      && (s.authenticated || NothingOpen(s))
      && (s.authenticated ==> WasLetIn(Init(disk), site, events))
      && s.username == NameInForce(Init(disk), site, events) && Prefix(s.username, 4) != "root"
      && NoDuplicates(s.w.released)
      && s.w.listeners == (if s.listener.Some? then {s.listener.value} else {})
      && (s.listener.Some? ==> s.timer in s.w.timers)
      && (s.bev.None? ==> NoDataConnection(s)) && s.dataActive <= 1
      && (s.eofCb == StorEof ==> s.uploadFd.File?)
  {
    hide Step, IsAcceptedPass, NameInForce;
    var s0 := Init(disk);
    InitInv(disk);
    RunInv(s0, site, events);
    NameIsLastUser(s0, site, events);
    var s := Run(s0, site, events);
    if s.authenticated {
      LoginComesFromPass(s0, site, events);
      var i :| 0 <= i < |events|
        && IsAcceptedPass(Run(s0, site, events[..i]), events[i])
        && s.username == Run(s0, site, events[..i]).username;
      RunEnabledPrefix(s0, site, events, i);
      NameIsLastUser(s0, site, events[..i]);
    }
  }
}
