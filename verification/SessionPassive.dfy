/** PASV and EPSV: where the server listens is where the client is told to connect. */
module SessionPassive {
  import opened Options
  import opened CommandParser
  import opened Dispatch
  import opened PassiveMode
  import opened Replies
  import opened Session
  import opened SessionInvariant

  predicate RunsPassive(s: State, e: Event) {
    e.Line? && Select(Parse(e.input).command, s.authenticated) in {PasvAction, EpsvAction}
  }

  /** The line a client sees last. */
  function LastLine(s: State): string {
    if s.w.replies == [] then ""
    else
      var reply := s.w.replies[|s.w.replies| - 1];
      ControlLine(reply.code, reply.text)
  }

  /** The port, and for PASV the address, a client reads in this reply. */
  function Announced(line: string, extended: bool, address: nat): Option<(nat, nat)> {
    if extended then
      match DecodeExtended(line)
      case None => None
      case Some(port) => Some((address, port))
    else DecodePassive(line)
  }

  lemma ReplyAnnounces(site: Site, port: nat, extended: bool)
    requires port < PORTS && site.address < 0x1_0000_0000
    ensures var reply := PassiveReply(site, port, extended);
      Announced(ControlLine(reply.code, reply.text), extended, site.address) == Some((site.address, port))
  {
    hide ControlLine, DecodePassive, DecodeExtended, PassiveText, ExtendedText;
    PassiveReplyDecodes(site.address, port);
    ExtendedReplyDecodes(port);
  }

  predicate IsExtended(s: State, e: Event)
    requires e.Line?
  {
    Select(Parse(e.input).command, s.authenticated) == EpsvAction
  }

  lemma PassiveStep(s: State, site: Site, e: Event)
    requires RunsPassive(s, e)
    ensures Step(s, site, e) == ListenerConfig(s, site, e.env, IsExtended(s, e))
  {
    hide ListenerConfig, Select, Parse;
  }

  lemma ConfigListens(s: State, site: Site, env: Env, extended: bool, q: nat)
    requires Inv(s) && InWord(site.range) && site.address < 0x1_0000_0000
    requires env.sockname && site.range.start <= q <= site.range.end && q in env.free
    ensures PassivePort(site.range, env.free).Some?
    ensures ListenerConfig(s, site, env, extended)
      == Listening(DropListener(s), site, PassivePort(site.range, env.free).value, env.ephemeral, extended)
  {
    hide Inv, PassivePort, Listening, DropListener;
    ScanFindsLeast(site.range, env.free, q);
  }

  /** The new listener is the only one, and its timer is new. */
  lemma ListeningOnly(s: State, site: Site, port: nat, ephemeral: nat, extended: bool)
    requires Inv(s)
    ensures
      var t := Listening(DropListener(s), site, port, ephemeral, extended);
      && t.listener == Some(s.w.nextId) && t.w.listeners == {s.w.nextId} && t.dataPort == port
      && t.w.listening == BoundPort(port, ephemeral)
      && t.timer !in s.w.timers && t.timer !in s.w.released && t.timer != AUTH_TIMER
      && t.w.armed == s.w.armed + {t.timer}
      && t.w.replies == s.w.replies + [PassiveReply(site, port, extended)]
  {
    hide LoginOk, DataOk, StorOk, RetrOk, DiskOk, PassiveReply;
  }

  /** When the server can tell its own address and some port of the range can be bound, it listens on
      the least such port and nowhere else, a fresh timer watches the listener, and a client that reads
      the reply as RFC 959 or RFC 2428 says gets that port, and for PASV the address. */
  lemma PassiveListensWhereItSays(s: State, site: Site, e: Event, q: nat)
    requires Inv(s) && RunsPassive(s, e) && InWord(site.range) && site.address < 0x1_0000_0000
    requires e.env.sockname && site.range.start <= q <= site.range.end && q in e.env.free
    ensures
      var t := Step(s, site, e);
      && t.listener == Some(s.w.nextId) && t.w.listeners == {s.w.nextId}
      && t.timer in t.w.armed && t.timer !in s.w.timers && t.timer !in s.w.released && t.timer != AUTH_TIMER
      && site.range.start <= t.dataPort <= q && t.dataPort in e.env.free
      && (forall r :: site.range.start <= r < t.dataPort ==> r !in e.env.free)
      && |t.w.replies| == |s.w.replies| + 1 && (site.range.start > 0 ==> t.w.listening == t.dataPort)
      && Announced(LastLine(t), IsExtended(s, e), site.address) == Some((site.address, t.dataPort))
  {
    hide Inv, Step, IsExtended, Select, Parse, PassivePort, Announced, ControlLine, PassiveReply, Listening;
    ScanFindsLeast(site.range, e.env.free, q);
    PassiveStep(s, site, e);
    ConfigListens(s, site, e.env, IsExtended(s, e), q);
    var port := PassivePort(site.range, e.env.free).value;
    ListeningOnly(s, site, port, e.env.ephemeral, IsExtended(s, e));
    ReplyAnnounces(site, port, IsExtended(s, e));
  }

  /** Whenever PASV or EPSV succeeds the client is told the port the scan stopped at. That is the port
      listened on exactly when it is not port 0, for which the system chooses another one; and the scan of
      a range that starts above 0 stops there exactly when no port of the range can be bound, the range
      ends at the last port, so that the counter wraps, and port 0 can be bound. */
  lemma AnnouncedExactly(s: State, site: Site, e: Event)
    requires Inv(s) && RunsPassive(s, e) && InWord(site.range) && site.address < 0x1_0000_0000
    requires e.env.sockname && PassivePort(site.range, e.env.free).Some? && e.env.ephemeral > 0
    ensures
      var t := Step(s, site, e);
      && Announced(LastLine(t), IsExtended(s, e), site.address) == Some((site.address, t.dataPort))
      && (t.w.listening == t.dataPort <==> t.dataPort != 0)
      && (site.range.start > 0 ==>
           (t.dataPort == 0 <==>
             && Least(e.env.free, site.range.start, site.range.end).None?
             && site.range.end == PORTS - 1 && 0 in e.env.free))
  {
    hide Inv, Step, IsExtended, Select, Parse, Announced, ControlLine, PassiveReply, Listening;
    PassiveStep(s, site, e);
    var port := PassivePort(site.range, e.env.free).value;
    ListeningOnly(s, site, port, e.env.ephemeral, IsExtended(s, e));
    ReplyAnnounces(site, port, IsExtended(s, e));
  }

  /** A listener is left exactly when the server can tell its own address and the scan finds a port;
      otherwise the old listener is closed all the same and the reply is 425. */
  lemma PassiveFailsOtherwise(s: State, site: Site, e: Event)
    requires Inv(s) && RunsPassive(s, e)
    ensures
      var t := Step(s, site, e);
      && (t.listener.Some? <==> e.env.sockname && PassivePort(site.range, e.env.free).Some?)
      && (t.listener.None? ==> t.w.listeners == {})
      && (t.listener.None? ==>
            t.w.replies == s.w.replies + [Reply(CANNOT_OPEN_DATA, "Can't open passive connection")])
  {
    hide Inv, Step, IsExtended, Select, Parse, PassivePort, Listening, DropListener;
    PassiveStep(s, site, e);
    Dropped(s);
    if PassivePort(site.range, e.env.free).Some? {
      ListeningOnly(s, site, PassivePort(site.range, e.env.free).value, e.env.ephemeral, IsExtended(s, e));
    }
  }

  lemma Dropped(s: State)
    requires Inv(s)
    ensures DropListener(s).listener.None? && DropListener(s).w.listeners == {}
    ensures DropListener(s).w.replies == s.w.replies
  {
    hide LoginOk, DataOk, StorOk, RetrOk, DiskOk;
  }
}
