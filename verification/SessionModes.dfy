/** The settings of a session: what PROT, AUTH, TYPE and CWD leave in force, read off the lines of a run. */
module SessionModes {
  import opened Options
  import opened CommandOptions
  import opened CommandParser
  import opened CommandWords
  import opened Dispatch
  import opened Session
  import opened SessionInvariant
  import opened SessionFrames
  import opened SessionLogin
  import opened SessionPlaces
  import opened SessionReplies
  import opened SessionControl

  /** The line PROT P, whoever sends it. */
  predicate AsksPrivacy(e: Event) {
    e.Line? && Parse(e.input) == Command("PROT", ["P"])
  }

  /** The line AUTH TLS. */
  predicate AsksTls(e: Event) {
    e.Line? && Parse(e.input) == Command("AUTH", ["TLS"])
  }

  /** The line TYPE I or TYPE A, from a client that is logged in. */
  predicate SetsType(s: State, e: Event) {
    && e.Line? && s.authenticated && Parse(e.input).command == "TYPE"
    && (Parse(e.input).args == ["I"] || Parse(e.input).args == ["A"])
  }

  function TypeSet(e: Event): TransferMode
    requires e.Line?
  {
    if Parse(e.input).args == ["I"] then Binary else Ascii
  }

  lemma ModeWords(word: string, authenticated: bool)
    ensures Select(word, authenticated) == ProtAction <==> word == "PROT"
    ensures Select(word, authenticated) == AuthAction <==> word == "AUTH"
    ensures Select(word, authenticated) == TypeAction <==> authenticated && word == "TYPE"
    ensures Select(word, authenticated) == CwdAction <==> authenticated && word == "CWD"
  {
    hide Select, ActionOf;
    SelectExactly(word, authenticated);
    ActionWord(word);
    ModeActions();
  }

  lemma ModeActions()
    ensures ActionOf("PROT") == Some(ProtAction) && ActionOf("AUTH") == Some(AuthAction)
    ensures ActionOf("TYPE") == Some(TypeAction) && ActionOf("CWD") == Some(CwdAction)
  {
  }

  lemma ModeRuns(s: State, site: Site, args: seq<string>, env: Env)
    ensures OnCommand(s, site, ProtAction, args, env) == Prot(s, args)
    ensures OnCommand(s, site, AuthAction, args, env) == Auth(s, args)
    ensures OnCommand(s, site, TypeAction, args, env) == SetType(s, args)
  {
    hide Prot, Auth, SetType;
  }

  /** One step: each mode changes with the line that asks for it and with nothing else. */
  lemma ModeStep(s: State, site: Site, e: Event)
    ensures var t := Step(s, site, e);
      && (t.tlsRequired <==> s.tlsRequired || AsksPrivacy(e))
      && (t.upgraded <==> s.upgraded || AsksTls(e))
      && t.mode == if SetsType(s, e) then TypeSet(e) else s.mode
  {
    hide Step, Parse, Select, OnCommand, Says, Speaks, Refuses, Prot, Auth, SetType, EventCodes, NothingDone;
    hide ListsNothing, RetrUnanswered, RepliesFor, Adds;
    if e.Line? {
      var cmd := Parse(e.input);
      var h := Select(cmd.command, s.authenticated);
      LineRuns(s, site, e);
      ModeWords(cmd.command, s.authenticated);
      ModeRuns(s, site, cmd.args, e.env);
      CommandSpeaks(s, site, h, cmd.args, e.env);
      ProtSpeaks(s, cmd.args);
      AuthSpeaks(s, cmd.args);
      TypeSpeaks(s, cmd.args);
    } else {
      EventSpeaks(s, site, e);
    }
  }

  // ---------------------------------------------------------------- over a run

  /** Data connections are to be private exactly if they were, or some line of the run was PROT P. */
  lemma {:induction false} PrivateExactlyIfAsked(s: State, site: Site, events: seq<Event>)
    ensures Run(s, site, events).tlsRequired
      <==> s.tlsRequired || exists i :: 0 <= i < |events| && AsksPrivacy(events[i])
    decreases events
  {
    hide Step, AsksPrivacy;
    if events != [] {
      ModeStep(s, site, events[0]);
      PrivateExactlyIfAsked(Step(s, site, events[0]), site, events[1..]);
      assert forall i :: 0 < i < |events| ==> events[i] == events[1..][i - 1];
    }
  }

  /** The control connection has gone over to TLS exactly if it had, or some line of the run was AUTH TLS. */
  lemma {:induction false} UpgradedExactlyIfAsked(s: State, site: Site, events: seq<Event>)
    ensures Run(s, site, events).upgraded
      <==> s.upgraded || exists i :: 0 <= i < |events| && AsksTls(events[i])
    decreases events
  {
    hide Step, AsksTls;
    if events != [] {
      ModeStep(s, site, events[0]);
      UpgradedExactlyIfAsked(Step(s, site, events[0]), site, events[1..]);
      assert forall i :: 0 < i < |events| ==> events[i] == events[1..][i - 1];
    }
  }

  /** The transfer mode in force after a run: what the last TYPE set, read off the run from its end. */
  function TypeInForce(s: State, site: Site, events: seq<Event>): TransferMode
    decreases events
  {
    if events == [] then s.mode
    else
      var n := |events| - 1;
      if SetsType(Run(s, site, events[..n]), events[n]) then TypeSet(events[n])
      else TypeInForce(s, site, events[..n])
  }

  /** The working directory in force after a run: where the last successful CWD led, or the root after the PASS
      that let the client in. */
  function DirectoryInForce(s: State, site: Site, events: seq<Event>): string
    decreases events
  {
    if events == [] then s.cwd
    else
      var n := |events| - 1;
      var m := Run(s, site, events[..n]);
      if IsAcceptedPass(m, events[n]) then "/"
      else if Moves(m, events[n]) then
        site.enter(DirectoryInForce(s, site, events[..n]), Parse(events[n].input).args[0])
      else DirectoryInForce(s, site, events[..n])
  }

  lemma {:induction false} TypeIsInForce(s: State, site: Site, events: seq<Event>)
    requires RunEnabled(s, site, events)
    ensures Run(s, site, events).mode == TypeInForce(s, site, events)
    decreases events
  {
    hide Step, SetsType, TypeSet;
    if events != [] {
      var n := |events| - 1;
      assert events[..n + 1] == events;
      RunSplit(s, site, events, n);
      ModeStep(Run(s, site, events[..n]), site, events[n]);
      RunEnabledPrefix(s, site, events, n);
      TypeIsInForce(s, site, events[..n]);
    }
  }

  lemma CwdStep(s: State, site: Site, e: Event)
    ensures Step(s, site, e).cwd ==
      if IsAcceptedPass(s, e) then "/"
      else if Moves(s, e) then site.enter(s.cwd, Parse(e.input).args[0])
      else s.cwd
  {
    hide Parse, Select, OnCommand, Says, Speaks, Refuses, IsPathSafe, User, Pass, Cwd;
    if !e.Line? {
      hide Step;
      EventLogin(s, site, e);
    } else {
      var cmd := Parse(e.input);
      var h := Select(cmd.command, s.authenticated);
      SelectNames(cmd.command, s.authenticated);
      LoginRuns(s, site, cmd.args, e.env);
      CwdRuns(s, site, cmd.args, e.env);
      CwdSpeaks(s, site, cmd.args, e.env);
      if h == UserAction || h == PassAction {
        LoginDirectory(s, cmd.args, e.env);
      } else if !(h == CwdAction && ChangesDirectory(cmd.args, e.env)) {
        DirectoryCommand(s, site, h, cmd.args, e.env);
      }
    }
  }

  lemma LoginDirectory(s: State, args: seq<string>, env: Env)
    ensures User(s, args, env).cwd == s.cwd
    ensures Pass(s, args, env).cwd == if |args| == 1 && env.accepts(s.username, args[0]) then "/" else s.cwd
  {
  }

  lemma {:induction false} DirectoryIsInForce(s: State, site: Site, events: seq<Event>)
    requires RunEnabled(s, site, events)
    ensures Run(s, site, events).cwd == DirectoryInForce(s, site, events)
    decreases events
  {
    hide Step, IsAcceptedPass, Moves, Parse;
    if events != [] {
      var n := |events| - 1;
      assert events[..n + 1] == events;
      RunSplit(s, site, events, n);
      CwdStep(Run(s, site, events[..n]), site, events[n]);
      RunEnabledPrefix(s, site, events, n);
      DirectoryIsInForce(s, site, events[..n]);
    }
  }
}
