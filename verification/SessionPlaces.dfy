/** What paths lead to over a session, and a file that is uploaded and downloaded under one path. */
module SessionPlaces {
  import opened CommandParser
  import opened Disks
  import opened Dispatch
  import opened Session
  import opened SessionInvariant
  import opened SessionFrames
  import opened SessionLogin
  import opened SessionUpload
  import opened SessionDownload

  /** A DELE that takes this name away. */
  predicate Removes(s: State, e: Event, name: string) {
    && e.Line? && Select(Parse(e.input).command, s.authenticated) == DeleAction && name in e.env.removed
  }

  /** A CWD that succeeds. */
  predicate Moves(s: State, e: Event) {
    && e.Line? && Select(Parse(e.input).command, s.authenticated) == CwdAction
    && ChangesDirectory(Parse(e.input).args, e.env)
  }

  /** A name leads to the same file until a DELE takes it away: STOR of a name that is there opens the
      file it leads to. */
  lemma NameStep(s: State, site: Site, e: Event, name: string)
    requires name in s.w.disk.names && !Removes(s, e, name)
    ensures SameName(s.w.disk, Step(s, site, e).w.disk, name)
  {
    hide Select, Parse, OnCommand, ChangesDirectory;
    if !e.Line? {
      hide Step;
      EventLogin(s, site, e);
    } else {
      var cmd := Parse(e.input);
      NameCommand(s, site, Select(cmd.command, s.authenticated), cmd.args, e.env, name);
    }
  }

  lemma NameCommand(s: State, site: Site, handler: Handler, args: seq<string>, env: Env, name: string)
    requires name in s.w.disk.names && (handler == DeleAction ==> name !in env.removed)
    ensures SameName(s.w.disk, OnCommand(s, site, handler, args, env).w.disk, name)
  {
    hide OnCommand, Stor, Dele, Cwd, SameName;
    if handler == StorAction {
      StorRuns(s, site, args, env);
      NameStored(s, site, args, env, name);
    } else if handler == DeleAction {
      DeleRuns(s, site, args, env);
      NameDeleted(s, env, name);
    } else {
      NameElsewhere(s, site, handler, args, env, name);
    }
  }

  lemma NameStored(s: State, site: Site, args: seq<string>, env: Env, name: string)
    requires name in s.w.disk.names
    ensures SameName(s.w.disk, Stor(s, site, args, env).w.disk, name)
  {
    hide Stor, Create;
    StorFrame(s, site, args, env);
    NameCreated(s.w.disk, site, s.cwd, args, name);
  }

  lemma NameDeleted(s: State, env: Env, name: string)
    requires name !in env.removed
    ensures SameName(s.w.disk, Dele(s, env).w.disk, name)
  {
    hide Dele;
    DeleFrame(s, env);
  }

  lemma NameElsewhere(s: State, site: Site, handler: Handler, args: seq<string>, env: Env, name: string)
    requires handler != StorAction && handler != DeleAction
    ensures SameName(s.w.disk, OnCommand(s, site, handler, args, env).w.disk, name)
  {
    hide OnCommand, Cwd, ChangesDirectory, SameLogin;
    if handler == CwdAction {
      CwdRuns(s, site, args, env);
      CwdFrame(s, site, args, env);
    } else if handler == UserAction || handler == PassAction {
      BystanderFrame(s, site, handler, args, env);
    } else {
      CommandPlaces(s, site, handler, args, env);
    }
  }

  lemma NameCreated(d: Disk, site: Site, cwd: string, args: seq<string>, name: string)
    requires name in d.names
    ensures |args| == 1 ==> SameName(d, Create(d, site.resolve(cwd, args[0])), name)
  {
  }

  /** A STOR line that opens a file under this name. */
  ghost predicate Makes(s: State, site: Site, e: Event, name: string) {
    StartsUpload(s, e) && site.resolve(s.cwd, Parse(e.input).args[0]) == name
  }

  /** A name that leads nowhere does so until a STOR of it opens a file. */
  lemma AbsentStep(s: State, site: Site, e: Event, name: string)
    requires name !in s.w.disk.names && !Makes(s, site, e, name)
    ensures name !in Step(s, site, e).w.disk.names
  {
    hide Select, Parse, OnCommand, StorOpens;
    if !e.Line? {
      hide Step;
      EventLogin(s, site, e);
    } else {
      var cmd := Parse(e.input);
      AbsentCommand(s, site, Select(cmd.command, s.authenticated), cmd.args, e.env, name);
    }
  }

  lemma AbsentCommand(s: State, site: Site, handler: Handler, args: seq<string>, env: Env, name: string)
    requires name !in s.w.disk.names
    requires handler == StorAction && StorOpens(s, args, env) ==> site.resolve(s.cwd, args[0]) != name
    ensures name !in OnCommand(s, site, handler, args, env).w.disk.names
  {
    hide OnCommand, Stor, Dele, Clean;
    if handler == StorAction {
      StorRuns(s, site, args, env);
      StorFrame(s, site, args, env);
    } else if handler == DeleAction {
      DeleRuns(s, site, args, env);
      DeleFrame(s, env);
    } else {
      NameElsewhere(s, site, handler, args, env, name);
    }
  }

  ghost predicate NeverMade(s: State, site: Site, events: seq<Event>, name: string)
    decreases events
  {
    events != [] ==>
      !Makes(s, site, events[0], name) && NeverMade(Step(s, site, events[0]), site, events[1..], name)
  }

  lemma {:induction false} AbsentKept(s: State, site: Site, events: seq<Event>, name: string)
    requires name !in s.w.disk.names && NeverMade(s, site, events, name)
    ensures name !in Run(s, site, events).w.disk.names
    decreases events
  {
    hide Step, Makes;
    if events != [] {
      AbsentStep(s, site, events[0], name);
      AbsentKept(Step(s, site, events[0]), site, events[1..], name);
    }
  }

  /** A name that a DELE takes away leads nowhere, whatever happens then, until a STOR of it opens a file. */
  lemma RemovedIsGone(s: State, site: Site, e: Event, events: seq<Event>, name: string)
    requires Removes(s, e, name) && NeverMade(Step(s, site, e), site, events, name)
    ensures name !in Run(s, site, [e] + events).w.disk.names
  {
    hide Select, Parse, Dele, NeverMade;
    DeleRuns(s, site, Parse(e.input).args, e.env);
    DeleFrame(s, e.env);
    RunConcat(s, site, [e], events);
    RunOne(s, site, e);
    AbsentKept(Step(s, site, e), site, events, name);
  }

  /** The working directory of a logged-in session changes only with a successful CWD. */
  lemma DirectoryStep(s: State, site: Site, e: Event)
    requires s.authenticated && !Moves(s, e)
    ensures Step(s, site, e).cwd == s.cwd && Step(s, site, e).authenticated
  {
    hide Select, Parse, OnCommand, ChangesDirectory;
    LoginStep(s, site, e);
    if !e.Line? {
      hide Step;
      EventLogin(s, site, e);
    } else {
      var cmd := Parse(e.input);
      var handler := Select(cmd.command, s.authenticated);
      SelectNames(cmd.command, s.authenticated);
      DirectoryCommand(s, site, handler, cmd.args, e.env);
    }
  }

  lemma DirectoryCommand(s: State, site: Site, handler: Handler, args: seq<string>, env: Env)
    requires handler != UserAction && handler != PassAction
    requires handler == CwdAction ==> !ChangesDirectory(args, env)
    ensures OnCommand(s, site, handler, args, env).cwd == s.cwd
  {
    hide OnCommand, Stor, Retr, List, Abor, Cwd, Dele, Clean, ChangesDirectory;
    TransferRuns(s, site, args, env);
    match handler
    case StorAction => StorFrame(s, site, args, env);
    case DeleAction => DeleFrame(s, env);
    case _ => CommandPlaces(s, site, handler, args, env);
  }

  /** No DELE takes this name away. */
  ghost predicate NameStays(s: State, site: Site, events: seq<Event>, name: string)
    decreases events
  {
    events != [] ==>
      !Removes(s, events[0], name) && NameStays(Step(s, site, events[0]), site, events[1..], name)
  }

  lemma {:induction false} NameKept(s: State, site: Site, events: seq<Event>, name: string)
    requires name in s.w.disk.names && NameStays(s, site, events, name)
    ensures SameName(s.w.disk, Run(s, site, events).w.disk, name)
    decreases events
  {
    hide Step, Removes;
    if events != [] {
      NameStep(s, site, events[0], name);
      NameKept(Step(s, site, events[0]), site, events[1..], name);
    }
  }

  /** No CWD succeeds. */
  ghost predicate StaysPut(s: State, site: Site, events: seq<Event>)
    decreases events
  {
    events != [] ==> !Moves(s, events[0]) && StaysPut(Step(s, site, events[0]), site, events[1..])
  }

  lemma {:induction false} DirectoryKept(s: State, site: Site, events: seq<Event>)
    requires s.authenticated && StaysPut(s, site, events)
    ensures Run(s, site, events).cwd == s.cwd
    decreases events
  {
    hide Step, Moves;
    if events != [] {
      DirectoryStep(s, site, events[0]);
      DirectoryKept(Step(s, site, events[0]), site, events[1..]);
    }
  }

  /** A RETR line over TLS for this path whose first read succeeds, on a data connection. */
  predicate AsksFor(s: State, e: Event, path: string) {
    && e.Line? && Select(Parse(e.input).command, s.authenticated) == RetrAction
    && Parse(e.input).args == [path] && s.bev.Some? && s.tlsRequired && e.env.openOk && e.env.got > 0
  }

  /** A path that leads to a file no upload is writing: after any events short of a STOR into that file, a
      DELE of that name and a successful CWD, RETR of the same path opens it and hands over exactly what
      is in it. */
  lemma PathThenSent(s: State, site: Site, path: string, between: seq<Event>, line: Event, events: seq<Event>)
    requires Inv(s) && s.authenticated && site.resolve(s.cwd, path) in s.w.disk.names
    requires s.uploadFd != File(s.w.disk.names[site.resolve(s.cwd, path)])
    requires RunEnabled(s, site, between) && StaysPut(s, site, between)
    requires NameStays(s, site, between, site.resolve(s.cwd, path))
    requires NoStorInto(s, site, between, s.w.disk.names[site.resolve(s.cwd, path)])
    requires var m := Run(s, site, between);
      && m.bev.Some? && !ListingDue(m) && AsksFor(m, line, path) && RunEnabled(m, site, [line] + events)
      && Undisturbed(Step(m, site, line), site, events, s.w.disk.names[site.resolve(s.cwd, path)])
      && var t := Run(m, site, [line] + events); t.bev.Some? && t.bev.value.id == m.bev.value.id
    requires Writes(events) + 1 >= |Content(s.w.disk, s.w.disk.names[site.resolve(s.cwd, path)])|
    ensures
      var m := Run(s, site, between);
      var t := Run(m, site, [line] + events);
      && t.writeCb == RetrDone
      && |m.bev.value.output| <= |t.bev.value.output|
      && t.bev.value.output[|m.bev.value.output|..]
         == Content(s.w.disk, s.w.disk.names[site.resolve(s.cwd, path)])
  {
    hide Inv, Step, Enabled, Run, RunEnabled, Undisturbed, ListingDue, NoStorInto, StaysPut, NameStays, Writes;
    hide Parse, Select;
    var name := site.resolve(s.cwd, path);
    var file := s.w.disk.names[name];
    NamesLead(s, name);
    NameKept(s, site, between, name);
    DirectoryKept(s, site, between);
    assert AcceptsRetr(Run(s, site, between), site, line, file);
    StoredThenSent(s, site, between, line, file, events);
  }

  /** A STOR line for this path that opens its file. */
  predicate Stores(s: State, e: Event, path: string) {
    StartsUpload(s, e) && Parse(e.input).args == [path]
  }

  function EndOfStream(timeout: bool, error: bool, listing: Lister): Event {
    DataEvent(false, timeout, error, true, listing)
  }

  /** While an upload to this file and what follows it go on, the path keeps leading to the file: no
      successful CWD and no DELE of the name. */
  ghost predicate PathStays(s: State, site: Site, events: seq<Event>, name: string) {
    StaysPut(s, site, events) && NameStays(s, site, events, name)
  }

  /** STOR of a path on a data connection, `during` the upload anything but another STOR, the end of the
      stream, anything `between` but a STOR into that file, then RETR of the same path over TLS, and any
      events with as many write callbacks as the file has bytes: as long as the path stays, what is handed
      over is exactly everything the client sent on the first connection. */
  lemma UploadThenDownload(s: State, site: Site, path: string, stor: Event, during: seq<Event>, end: Event,
                           between: seq<Event>, line: Event, events: seq<Event>)
    requires Inv(s) && s.authenticated && s.eofCb == NoEof && Stores(s, stor, path)
    requires end.DataEvent? && end == EndOfStream(end.timeout, end.error, end.listing)
    requires RunEnabled(s, site, [stor] + during) && NoUploadStarts(Step(s, site, stor), site, during)
    requires PathStays(Step(s, site, stor), site, during, site.resolve(s.cwd, path))
    requires var m := Run(s, site, [stor] + during);
      s.bev.Some? && m.bev.Some? && m.bev.value.id == s.bev.value.id && !m.w.closed
    requires var t := Run(s, site, [stor] + during + [end]);
      && RunEnabled(t, site, between) && PathStays(t, site, between, site.resolve(s.cwd, path))
      && NoStorInto(t, site, between, Target(s.w.disk, site.resolve(s.cwd, path)))
      && var n := Run(t, site, between);
         && n.bev.Some? && !ListingDue(n) && AsksFor(n, line, path) && RunEnabled(n, site, [line] + events)
         && Undisturbed(Step(n, site, line), site, events, Target(s.w.disk, site.resolve(s.cwd, path)))
         && var x := Run(n, site, [line] + events); x.bev.Some? && x.bev.value.id == n.bev.value.id
    requires Writes(events) + 1 >= |s.bev.value.received + Sent(during)|
    ensures
      var n := Run(Run(s, site, [stor] + during + [end]), site, between);
      var x := Run(n, site, [line] + events);
      && x.writeCb == RetrDone
      && |n.bev.value.output| <= |x.bev.value.output|
      && x.bev.value.output[|n.bev.value.output|..] == s.bev.value.received + Sent(during)
  {
    hide Inv, Step, Enabled, Run, RunEnabled, Undisturbed, ListingDue, NoStorInto, StaysPut, NameStays, Writes;
    hide NoUploadStarts, StartsUpload, Target, Sent, AsksFor, Parse;
    var name := site.resolve(s.cwd, path);
    UploadStoresWhatWasSent(s, site, stor, name, during, end.timeout, end.error, end.listing);
    UploadedPath(s, site, path, stor, during);
    var m, t := Run(s, site, [stor] + during), Run(s, site, [stor] + during + [end]);
    KeepsLogin(s, site, [stor] + during + [end]);
    assert Content(t.w.disk, Target(s.w.disk, name)) == s.bev.value.received + Sent(during);
    PathThenSent(t, site, path, between, line, events);
  }

  lemma KeepsLogin(s: State, site: Site, events: seq<Event>)
    requires s.authenticated
    ensures Run(s, site, events).authenticated
  {
    hide Run;
    LoginIsForever(s, site, events);
  }

  /** At the end of the upload the path leads to the file of the upload. */
  lemma UploadedPath(s: State, site: Site, path: string, stor: Event, during: seq<Event>)
    requires Inv(s) && s.authenticated && s.eofCb == NoEof && Stores(s, stor, path)
    requires PathStays(Step(s, site, stor), site, during, site.resolve(s.cwd, path))
    ensures
      var m := Run(s, site, [stor] + during);
      var name := site.resolve(s.cwd, path);
      m.cwd == s.cwd && name in m.w.disk.names && m.w.disk.names[name] == Target(s.w.disk, name)
  {
    hide Inv, Step, StaysPut, NameStays, Target, StartsUpload, Run;
    var name := site.resolve(s.cwd, path);
    var u := Step(s, site, stor);
    StorStarts(s, site, stor, name);
    StorStays(s, site, stor);
    KeepsLogin(s, site, [stor]);
    RunOne(s, site, stor);
    RunConcat(s, site, [stor], during);
    NameKept(u, site, during, name);
    DirectoryKept(u, site, during);
  }

  lemma StorStays(s: State, site: Site, e: Event)
    requires StartsUpload(s, e)
    ensures Step(s, site, e).cwd == s.cwd
  {
    hide Select, Parse, Stor, Clean;
    StorFrame(s, site, Parse(e.input).args, e.env);
    StorRuns(s, site, Parse(e.input).args, e.env);
  }
}
