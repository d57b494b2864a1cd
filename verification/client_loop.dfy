/** One client session (src/client_loop.rs): read a line, parse it, and hand it
    to the registry according to whether the client has registered. */
module ClientLoop {
  import opened Base
  import opened Utf8
  import opened IrcMessages
  import opened Clients
  import opened Channels
  import opened Server
  import opened Connect

  /** How a session ends: the peer went away, the client sent QUIT, or a
      handler panicked (which ends this session's task only; whatever the
      registry recorded before stays). */
  datatype SessionEnd = Disconnected(error: ConnectionError) | ClientQuit | Panicked(reason: string)

  /** What the loop does after one message. */
  datatype Next = Continue | Stop(end: SessionEnd)

  /** The session's own record, as the loop keeps it: registered exactly when a
      real name was accepted; a registered client has a nickname routed to this
      connection; a nickname, once taken, is valid and recorded in the registry;
      the client's channel list is never filled in. */
  ghost predicate SessionOk(server: IrcServer, id: ConnId, client: Client, registered: bool)
    reads server
  {
    && (registered <==> client.realname.Some?)
    && (registered ==> client.nick != "" && client.nick in server.routes && server.routes[client.nick] == id)
    && (client.nick != "" ==> IsNickname(client.nick) && NickInUse(server.clients, client.nick))
    && client.channels == []
  }

  /** A nickname recorded in a list stays recorded in any extension of it. */
  lemma NickInUseGrows(a: seq<Client>, b: seq<Client>, n: string)
    requires a <= b && NickInUse(a, n)
    ensures NickInUse(b, n)
  {
    var i :| 0 <= i < |a| && a[i].nick == n;
    assert b[i] == a[i];
  }

  /** A fresh session: no nickname, no real name, not registered. */
  function NewClient(): (c: Client)
    ensures c.nick == "" && c.realname.None? && c.channels == []
  {
    Client("", None, [])
  }

  /** The commands a client in this state is not allowed to use: they are
      dropped without a reply. */
  predicate Gated(command: IrcCommand, client: Client, registered: bool) {
    || command == Pong
    || (command == Nick && registered)
    || (command == User && (registered || client.nick == ""))
    || (command in {Privmsg, Join, Part} && !registered)
  }

  // ---------------------------------------------------------------------------
  // The reference description of a turn, on values
  // ---------------------------------------------------------------------------

  /** What the registry holds, as values: the clients, the routes, the outbox,
      and the channels' names and member lists, in order. */
  datatype Registry = Registry(
    clients: seq<Client>,
    routes: map<string, ConnId>,
    outbox: map<ConnId, seq<string>>,
    names: seq<string>,
    members: seq<seq<string>>)

  /** The registry `server` holds now. */
  ghost function View(server: IrcServer): (g: Registry)
    reads server, server.channels
    ensures |g.names| == |g.members|
  {
    Registry(server.clients, server.routes, server.outbox, server.Names(), server.Members())
  }

  /** `outbox` after one more line written to `id`. */
  function Posted(outbox: map<ConnId, seq<string>>, id: ConnId, line: string): (o: map<ConnId, seq<string>>)
    ensures SentTo(o, id) == SentTo(outbox, id) + [line]
    ensures forall c | c != id :: SentTo(o, c) == SentTo(outbox, c)
    ensures forall c :: SentTo(outbox, c) <= SentTo(o, c)
  {
    outbox[id := SentTo(outbox, id) + [line]]
  }

  /** The outcome of one turn: the registry, the session's record, whether it
      is registered, and whether the loop goes on. */
  datatype Turn = Turn(registry: Registry, client: Client, registered: bool, next: Next)

  /** How the loop handles one parsed message, with the handler it calls
      (lines 50-117): what the registry, the session's record and the loop's
      next move become. */
  function Handle(g: Registry, id: ConnId, msg: IrcMessage, client: Client, registered: bool): (t: Turn)
    requires |g.names| == |g.members|
    ensures t.registry.names == g.names && |t.registry.members| == |g.members|
  {
    var stay := Turn(g, client, registered, Continue);
    var p := msg.params;
    match msg.command
    case Nick =>
      if registered then stay
      else if |p| == 0 then Turn(g, client, registered, Stop(Panicked(IndexOutOfBounds(0, 0))))
      else if p[0] == "" then Turn(g, client, registered, Stop(Panicked(UnwrapNone)))
      else if !IsNickname(p[0]) then
        Turn(g.(outbox := Posted(g.outbox, id, "ERR_ERRONEUSNICKNAME\r\n")), client, registered, Continue)
      else if NickInUse(g.clients, p[0]) then
        Turn(g.(outbox := Posted(g.outbox, id, "ERR_NICKCOLLISION\r\n")), client, registered, Continue)
      else
        var named := client.(nick := p[0]);
        Turn(g.(clients := g.clients + [named]), named, registered, Continue)
    case User =>
      if registered || client.nick == "" then stay
      else if |p| < 4 || !StartsWith(p[|p| - 1], ':') then
        Turn(g.(outbox := Posted(g.outbox, id, "ERR_NEEDMOREPARAMS\r\n")), client, registered, Continue)
      else
        var named := client.(realname := Some(p[|p| - 1][1..]));
        Turn(g.(routes := g.routes[named.nick := id], outbox := Posted(g.outbox, id, Welcome(named))),
             named, true, Continue)
    case Ping =>
      if |p| == 0 then Turn(g, client, registered, Stop(Panicked(IndexOutOfBounds(0, 0))))
      else Turn(g.(outbox := Posted(g.outbox, id, "PONG :" + p[0] + "\r\n")), client, registered, Continue)
    case Pong => stay
    case Privmsg =>
      if !registered then stay
      else if |p| < 2 then Turn(g, client, registered, Stop(Panicked(IndexOutOfBounds(|p|, 1))))
      else
        var target := msg.toNick.GetOr("No target");
        if target in g.routes then
          Turn(g.(outbox := Posted(g.outbox, g.routes[target], Terminated(p[1]))), client, registered, Continue)
        else
          Turn(g.(outbox := Posted(g.outbox, id, "Target client not found")), client, registered, Continue)
    case Quit =>
      if |p| > 0 then
        Turn(g.(outbox := Posted(g.outbox, id, "QUIT :" + p[0] + "\r\n")), client, registered, Stop(ClientQuit))
      else if msg.fromNick.Some? then
        Turn(g.(outbox := Posted(g.outbox, id, "QUIT :" + (msg.fromNick.value + " has quit") + "\r\n")),
             client, registered, Stop(ClientQuit))
      else Turn(g, client, registered, Stop(Panicked(UnwrapNone)))
    case Join =>
      if !registered then stay
      else if |p| == 0 then
        Turn(g.(outbox := Posted(g.outbox, id, NeedMoreParams("JOIN"))), client, registered, Continue)
      else if !StartsWith(p[0], '#') then
        Turn(g.(outbox := Posted(g.outbox, id, NoSuchChannel(p[0]))), client, registered, Continue)
      else (match IndexOf(g.names, p[0])
        case None => stay
        case Some(i) =>
          Turn(g.(members := g.members[i := g.members[i] + [client.nick]]), client, registered, Continue))
    case Part =>
      if !registered then stay
      else if |p| == 0 then
        Turn(g.(outbox := Posted(g.outbox, id, NeedMoreParams("PART"))), client, registered, Continue)
      else if !StartsWith(p[0], '#') then
        Turn(g.(outbox := Posted(g.outbox, id, NoSuchChannel(p[0]))), client, registered, Continue)
      else match IndexOf(g.names, p[0])
        case None => stay
        case Some(i) =>
          var left := g.(members := g.members[i := RemoveFirst(g.members[i], client.nick)]);
          if client.nick in g.members[i] then Turn(left, client, registered, Continue)
          else Turn(left.(outbox := Posted(left.outbox, id, NoSuchChannel(p[0]))), client, registered, Continue)
  }

  /** The message a read result carries to `Handle`, if any. */
  function LineMessage(line: Result<string, ConnectionError>): Option<IrcMessage> {
    if line.Success? && Parse(line.value).Ok? then Parse(line.value).value else None
  }

  /** One turn of the loop (lines 29-120) given what `read_message` returned:
      the peer going away ends the session, an oversized or non-UTF-8 line and
      a line that is not a command are skipped, a parse panic ends the session,
      and a command is handled. */
  function TurnOn(g: Registry, id: ConnId, line: Result<string, ConnectionError>, client: Client, registered: bool): (t: Turn)
    requires |g.names| == |g.members|
    ensures t.registry.names == g.names && |t.registry.members| == |g.members|
    ensures LineMessage(line).None? ==> t.registry == g && t.client == client && t.registered == registered
    ensures LineMessage(line).Some? ==> t == Handle(g, id, LineMessage(line).value, client, registered)
  {
    var stay := Turn(g, client, registered, Continue);
    match line
    case Failure(e) =>
      if e == ConnectionClosed || e == ConnectionLost then Turn(g, client, registered, Stop(Disconnected(e)))
      else stay
    case Success(text) =>
      match Parse(text)
      case Panic(reason) => Turn(g, client, registered, Stop(Panicked(reason)))
      case Ok(None) => stay
      case Ok(Some(msg)) => Handle(g, id, msg, client, registered)
  }

  /** What the loop does next after a read: the peer going away stops it as a
      disconnection; an oversized or non-UTF-8 line and a line that is not a
      command are skipped with nothing changed; a parse panic stops it with
      that panic. */
  lemma TurnOnNext(g: Registry, id: ConnId, line: Result<string, ConnectionError>, client: Client, registered: bool)
    requires |g.names| == |g.members|
    ensures line == Failure(ConnectionClosed) || line == Failure(ConnectionLost) ==>
      TurnOn(g, id, line, client, registered) == Turn(g, client, registered, Stop(Disconnected(line.error)))
    ensures (|| line == Failure(MessageTooLong) || line == Failure(MessageInvalidUtf8)
             || (line.Success? && Parse(line.value) == Ok(None))) ==>
      TurnOn(g, id, line, client, registered) == Turn(g, client, registered, Continue)
    ensures line.Success? && Parse(line.value).Panic? ==>
      TurnOn(g, id, line, client, registered) == Turn(g, client, registered, Stop(Panicked(Parse(line.value).reason)))
  {
  }

  /** A session from its start: the registry after handling `msgs` in order,
      with the record and registration state they leave. */
  function Replay(g: Registry, id: ConnId, msgs: seq<IrcMessage>): (t: Turn)
    requires |g.names| == |g.members|
    ensures t.registry.names == g.names && |t.registry.members| == |g.members|
    decreases |msgs|
  {
    if msgs == [] then Turn(g, NewClient(), false, Continue)
    else
      var t := Replay(g, id, msgs[..|msgs| - 1]);
      Handle(t.registry, id, msgs[|msgs| - 1], t.client, t.registered)
  }

  // ---------------------------------------------------------------------------
  // What a turn promises
  // ---------------------------------------------------------------------------

  /** Commands the state does not allow change nothing and the loop goes on. */
  lemma HandleGated(g: Registry, id: ConnId, msg: IrcMessage, client: Client, registered: bool)
    requires |g.names| == |g.members|
    requires Gated(msg.command, client, registered)
    ensures Handle(g, id, msg, client, registered) == Turn(g, client, registered, Continue)
  {
  }

  /** QUIT always ends the session, by the QUIT reply exactly when it has a
      parameter or a sender; any other command ends it only by a panic. */
  lemma HandleStops(g: Registry, id: ConnId, msg: IrcMessage, client: Client, registered: bool)
    requires |g.names| == |g.members|
    ensures var t := Handle(g, id, msg, client, registered);
      && (msg.command == Quit ==> t.next.Stop?)
      && (t.next == Stop(ClientQuit) <==> msg.command == Quit && (|msg.params| > 0 || msg.fromNick.Some?))
      && (t.next.Stop? && msg.command != Quit ==> t.next.end.Panicked?)
      && (t.next.Stop? ==> !t.next.end.Disconnected?)
  {
  }

  /** Registration: a session not yet registered becomes registered exactly on
      a USER, after a nickname, whose last parameter starts with ':'; it then
      holds that parameter without the ':' as its real name, its nickname is
      routed to this connection and the welcome is written to it. A registered
      session stays registered with its record unchanged. */
  lemma HandleRegistration(g: Registry, id: ConnId, msg: IrcMessage, client: Client, registered: bool)
    requires |g.names| == |g.members|
    ensures var t := Handle(g, id, msg, client, registered); var p := msg.params;
      && (registered ==> t.registered && t.client == client && t.registry.routes == g.routes)
      && (!registered ==>
            (t.registered <==> msg.command == User && client.nick != "" && |p| >= 4 && StartsWith(p[|p| - 1], ':')))
      && (!registered && t.registered ==>
            && t.client == client.(realname := Some(p[|p| - 1][1..]))
            && t.registry.routes == g.routes[client.nick := id]
            && SentTo(t.registry.outbox, id) == SentTo(g.outbox, id) + [Welcome(t.client)])
      && (!t.registered ==> t.registry.routes == g.routes)
  {
    match msg.command
    case Nick =>
    case User =>
    case Ping =>
    case Pong =>
    case Privmsg =>
    case Quit =>
    case Join =>
    case Part =>
  }

  /** NICK before registration: a valid free nickname is taken and recorded;
      an invalid or taken one is answered with its error and changes nothing
      else. */
  lemma HandleNickChosen(g: Registry, id: ConnId, msg: IrcMessage, client: Client)
    requires |g.names| == |g.members|
    requires msg.command == Nick && |msg.params| > 0
    ensures var t := Handle(g, id, msg, client, false); var n := msg.params[0];
      && (IsNickname(n) && !NickInUse(g.clients, n) ==>
            t.client.nick == n && NickInUse(t.registry.clients, n) && t.next == Continue)
      && (n != "" && !IsNickname(n) ==>
            t.client == client && SentTo(t.registry.outbox, id) == SentTo(g.outbox, id) + ["ERR_ERRONEUSNICKNAME\r\n"])
      && (IsNickname(n) && NickInUse(g.clients, n) ==>
            t.client == client && SentTo(t.registry.outbox, id) == SentTo(g.outbox, id) + ["ERR_NICKCOLLISION\r\n"])
  {
    var n := msg.params[0];
    if IsNickname(n) && !NickInUse(g.clients, n) {
      var t := Handle(g, id, msg, client, false);
      assert t.registry.clients[|g.clients|].nick == n;
    }
  }

  /** A turn writes only to this connection and to connections the routes
      held before it. */
  lemma HandleWrites(g: Registry, id: ConnId, msg: IrcMessage, client: Client, registered: bool)
    requires |g.names| == |g.members|
    ensures var t := Handle(g, id, msg, client, registered);
      forall c | c != id && c !in g.routes.Values :: SentTo(t.registry.outbox, c) == SentTo(g.outbox, c)
  {
    match msg.command
    case Nick =>
    case User =>
    case Ping =>
    case Pong =>
    case Privmsg =>
    case Quit =>
    case Join =>
    case Part =>
  }

  /** A turn never takes back a line already written or a client already
      recorded. */
  lemma HandleKeeps(g: Registry, id: ConnId, msg: IrcMessage, client: Client, registered: bool)
    requires |g.names| == |g.members|
    ensures var t := Handle(g, id, msg, client, registered);
      && (forall c :: SentTo(g.outbox, c) <= SentTo(t.registry.outbox, c))
      && g.clients <= t.registry.clients
  {
    match msg.command
    case Nick =>
    case User =>
    case Ping =>
    case Pong =>
    case Privmsg =>
    case Quit =>
    case Join =>
    case Part =>
  }

  /** A registered session has handled a USER command. */
  lemma {:induction false} ReplayRegistered(g: Registry, id: ConnId, msgs: seq<IrcMessage>)
    requires |g.names| == |g.members|
    ensures Replay(g, id, msgs).registered ==> exists i | 0 <= i < |msgs| :: msgs[i].command == User
    decreases |msgs|
  {
    if msgs != [] {
      var init := msgs[..|msgs| - 1];
      var t := Replay(g, id, init);
      ReplayRegistered(g, id, init);
      HandleRegistration(t.registry, id, msgs[|msgs| - 1], t.client, t.registered);
      if t.registered {
        var i :| 0 <= i < |init| && init[i].command == User;
        assert msgs[i] == init[i];
      }
    }
  }

  /** The commands a read result hands to `Handle`: none or one. */
  function Carried(line: Result<string, ConnectionError>): (r: seq<IrcMessage>)
    ensures |r| <= 1
    ensures r == [] <==> LineMessage(line).None?
    ensures r != [] ==> r[0] == LineMessage(line).value
  {
    if LineMessage(line).Some? then [LineMessage(line).value] else []
  }

  /** How a turn ends the loop: by the client's quit only on a QUIT, a QUIT
      never lets the loop go on, and only the peer going away ends it as a
      disconnection. */
  lemma TurnOnEnds(g: Registry, id: ConnId, line: Result<string, ConnectionError>, client: Client, registered: bool)
    requires |g.names| == |g.members|
    ensures var u := TurnOn(g, id, line, client, registered);
      && (LineMessage(line).Some? && LineMessage(line).value.command == Quit ==>
            u.next == Stop(ClientQuit) || (u.next.Stop? && u.next.end.Panicked?))
      && (u.next == Stop(ClientQuit) ==> LineMessage(line).Some? && LineMessage(line).value.command == Quit)
      && (u.next.Stop? && u.next.end.Disconnected? ==>
            u.next.end.error == ConnectionClosed || u.next.end.error == ConnectionLost)
  {
    if LineMessage(line).Some? {
      HandleStops(g, id, LineMessage(line).value, client, registered);
    }
  }

  /** A turn on what `Replay` left is the replay of one command more when the
      line carried one. The turn ends by the client's QUIT only on a QUIT, a
      QUIT never lets the loop go on, and only the peer going away ends it as
      a disconnection. */
  lemma ReplayTurn(g: Registry, id: ConnId, msgs: seq<IrcMessage>, line: Result<string, ConnectionError>)
    requires |g.names| == |g.members|
    ensures var t := Replay(g, id, msgs);
      var u := TurnOn(t.registry, id, line, t.client, t.registered);
      var v := Replay(g, id, msgs + Carried(line));
      && u.registry == v.registry && u.client == v.client && u.registered == v.registered
      && (LineMessage(line).Some? && LineMessage(line).value.command == Quit ==>
            u.next == Stop(ClientQuit) || (u.next.Stop? && u.next.end.Panicked?))
      && (u.next == Stop(ClientQuit) ==> LineMessage(line).Some? && LineMessage(line).value.command == Quit)
      && (u.next.Stop? && u.next.end.Disconnected? ==>
            u.next.end.error == ConnectionClosed || u.next.end.error == ConnectionLost)
  {
    var t := Replay(g, id, msgs);
    if LineMessage(line).Some? {
      var heard := msgs + Carried(line);
      assert heard[..|heard| - 1] == msgs && heard[|heard| - 1] == LineMessage(line).value;
    } else {
      assert msgs + Carried(line) == msgs;
    }
    TurnOnEnds(t.registry, id, line, t.client, t.registered);
  }

  /** How a session ended, the registry it left, and the commands it handled,
      in order. */
  datatype Session = Session(end: SessionEnd, registry: Registry, heard: seq<IrcMessage>)

  /** The loop of `handle_client` (lines 28-121) on values: from the buffered
      bytes and the socket, read and handle lines as `TurnOn` says until a turn
      stops the loop. It ends for every finite socket, because every turn that
      goes on consumes input (`FrameProgress`). */
  function Run(g: Registry, id: ConnId, pending: seq<Byte>, script: seq<ReadOutcome>, client: Client, registered: bool): (s: Session)
    requires |g.names| == |g.members| && |pending| <= Capacity
    ensures s.registry.names == g.names && |s.registry.members| == |g.members|
    decreases Weight(script), |pending|
  {
    var f := ReadFrame(pending, script);
    var t := TurnOn(g, id, f.result, client, registered);
    if t.next.Stop? then Session(t.next.end, t.registry, Carried(f.result))
    else
      TurnOnNext(g, id, f.result, client, registered);
      FrameProgress(pending, script);
      var s := Run(t.registry, id, f.pending, f.rest, t.client, t.registered);
      Session(s.end, s.registry, Carried(f.result) + s.heard)
  }

  /** One turn of a run: it stops with what the turn left, or goes on from
      there with the buffer and the socket the read left. */
  lemma RunAdvance(g: Registry, id: ConnId, pending: seq<Byte>, script: seq<ReadOutcome>, client: Client, registered: bool)
    requires |g.names| == |g.members| && |pending| <= Capacity
    ensures var f := ReadFrame(pending, script);
      var t := TurnOn(g, id, f.result, client, registered);
      && |t.registry.names| == |t.registry.members| && |f.pending| <= Capacity
      && (t.next.Stop? ==> Run(g, id, pending, script, client, registered) == Session(t.next.end, t.registry, Carried(f.result)))
      && (t.next.Continue? ==>
            var s := Run(t.registry, id, f.pending, f.rest, t.client, t.registered);
            Run(g, id, pending, script, client, registered) == Session(s.end, s.registry, Carried(f.result) + s.heard))
  {
  }

  /** The session so far, `msgs`, followed by a run that stops after one turn:
      the whole session ends with that turn. */
  lemma RunStops(whole: Session, msgs: seq<IrcMessage>, g: Registry, id: ConnId, pending: seq<Byte>, script: seq<ReadOutcome>, client: Client, registered: bool)
    requires |g.names| == |g.members| && |pending| <= Capacity
    requires var r := Run(g, id, pending, script, client, registered); whole == Session(r.end, r.registry, msgs + r.heard)
    requires TurnOn(g, id, ReadFrame(pending, script).result, client, registered).next.Stop?
    ensures var f := ReadFrame(pending, script);
      var t := TurnOn(g, id, f.result, client, registered);
      whole == Session(t.next.end, t.registry, msgs + Carried(f.result))
  {
    RunAdvance(g, id, pending, script, client, registered);
  }

  /** The session so far, `msgs`, followed by a run whose first turn goes on:
      one command more is handled, and the run goes on from what that turn
      left. */
  lemma RunGoesOn(whole: Session, msgs: seq<IrcMessage>, g: Registry, id: ConnId, pending: seq<Byte>, script: seq<ReadOutcome>, client: Client, registered: bool)
    requires |g.names| == |g.members| && |pending| <= Capacity
    requires var r := Run(g, id, pending, script, client, registered); whole == Session(r.end, r.registry, msgs + r.heard)
    requires TurnOn(g, id, ReadFrame(pending, script).result, client, registered).next == Continue
    ensures var f := ReadFrame(pending, script);
      var t := TurnOn(g, id, f.result, client, registered);
      var r := Run(t.registry, id, f.pending, f.rest, t.client, t.registered);
      whole == Session(r.end, r.registry, (msgs + Carried(f.result)) + r.heard)
  {
    var f := ReadFrame(pending, script);
    var t := TurnOn(g, id, f.result, client, registered);
    RunAdvance(g, id, pending, script, client, registered);
    ConcatAssoc(msgs, Carried(f.result), Run(t.registry, id, f.pending, f.rest, t.client, t.registered).heard);
  }

  /** No command but the last is a QUIT. */
  predicate QuitOnlyLast(msgs: seq<IrcMessage>) {
    forall i | 0 <= i < |msgs| - 1 :: msgs[i].command != Quit
  }

  /** The last command is a QUIT. */
  predicate EndsWithQuit(msgs: seq<IrcMessage>) {
    |msgs| > 0 && msgs[|msgs| - 1].command == Quit
  }

  /** A command other than QUIT, put in front, keeps QUIT last and does not
      change whether the commands end with one. */
  lemma QuitsJoined(c: seq<IrcMessage>, rest: seq<IrcMessage>)
    requires |c| <= 1 && (c != [] ==> c[0].command != Quit)
    requires QuitOnlyLast(rest)
    ensures QuitOnlyLast(c + rest)
    ensures EndsWithQuit(c + rest) <==> EndsWithQuit(rest)
  {
    if c != [] {
      var h := c + rest;
      assert h[0] == c[0];
      assert forall i | 1 <= i < |h| :: h[i] == rest[i - 1];
    }
  }

  /** How a run ends: as a disconnection only on ConnectionClosed or
      ConnectionLost, by the client's quit only when its last command is QUIT,
      and with no QUIT before its last command. */
  lemma {:induction false} RunEnds(g: Registry, id: ConnId, pending: seq<Byte>, script: seq<ReadOutcome>, client: Client, registered: bool)
    requires |g.names| == |g.members| && |pending| <= Capacity
    ensures var s := Run(g, id, pending, script, client, registered);
      && (s.end.Disconnected? ==> s.end.error == ConnectionClosed || s.end.error == ConnectionLost)
      && (s.end == ClientQuit ==> EndsWithQuit(s.heard))
      && QuitOnlyLast(s.heard)
      && (EndsWithQuit(s.heard) ==> s.end == ClientQuit || s.end.Panicked?)
    decreases Weight(script), |pending|
  {
    var f := ReadFrame(pending, script);
    var t := TurnOn(g, id, f.result, client, registered);
    var s := Run(g, id, pending, script, client, registered);
    var c := Carried(f.result);
    assert && (c != [] && c[0].command == Quit ==> t.next == Stop(ClientQuit) || (t.next.Stop? && t.next.end.Panicked?))
           && (t.next == Stop(ClientQuit) ==> c != [] && c[0].command == Quit)
           && (t.next.Stop? && t.next.end.Disconnected? ==>
                 t.next.end.error == ConnectionClosed || t.next.end.error == ConnectionLost)
    by {
      TurnOnEnds(g, id, f.result, client, registered);
    }
    if t.next.Stop? {
      assert s == Session(t.next.end, t.registry, c) by {
        RunAdvance(g, id, pending, script, client, registered);
      }
    } else {
      assert Weight(f.rest) < Weight(script) || (f.rest == script && |f.pending| < |pending|) by {
        TurnOnNext(g, id, f.result, client, registered);
        FrameProgress(pending, script);
      }
      var rest := Run(t.registry, id, f.pending, f.rest, t.client, t.registered);
      assert s == Session(rest.end, rest.registry, c + rest.heard) by {
        RunAdvance(g, id, pending, script, client, registered);
      }
      RunEnds(t.registry, id, f.pending, f.rest, t.client, t.registered);
      QuitsJoined(c, rest.heard);
    }
  }


  /** A run continuing a replayed session leaves the registry, as the replay
      of all the commands, old and new, in order, describes. */
  lemma {:induction false} RunReplays(g: Registry, id: ConnId, msgs: seq<IrcMessage>, pending: seq<Byte>, script: seq<ReadOutcome>)
    requires |g.names| == |g.members| && |pending| <= Capacity
    ensures var t := Replay(g, id, msgs);
      var s := Run(t.registry, id, pending, script, t.client, t.registered);
      s.registry == Replay(g, id, msgs + s.heard).registry
    decreases Weight(script), |pending|
  {
    var t := Replay(g, id, msgs);
    var f := ReadFrame(pending, script);
    var u := TurnOn(t.registry, id, f.result, t.client, t.registered);
    var s := Run(t.registry, id, pending, script, t.client, t.registered);
    var more := msgs + Carried(f.result);
    var v := Replay(g, id, more);
    assert u.registry == v.registry && u.client == v.client && u.registered == v.registered by {
      ReplayTurn(g, id, msgs, f.result);
    }
    if u.next.Stop? {
      assert s.registry == u.registry by {
        RunAdvance(t.registry, id, pending, script, t.client, t.registered);
      }
    } else {
      assert Weight(f.rest) < Weight(script) || (f.rest == script && |f.pending| < |pending|) by {
        TurnOnNext(t.registry, id, f.result, t.client, t.registered);
        FrameProgress(pending, script);
      }
      var rest := Run(v.registry, id, f.pending, f.rest, v.client, v.registered);
      assert s == Session(rest.end, rest.registry, Carried(f.result) + rest.heard) by {
        RunAdvance(t.registry, id, pending, script, t.client, t.registered);
      }
      RunReplays(g, id, more, f.pending, f.rest);
      ConcatAssoc(msgs, Carried(f.result), rest.heard);
    }
  }



  /** Joining sequences is associative. */
  lemma ConcatAssoc<T>(a: seq<T>, b: seq<T>, c: seq<T>)
    ensures (a + b) + c == a + (b + c)
  {
  }

  // ---------------------------------------------------------------------------
  // The loop, on the shared registry
  // ---------------------------------------------------------------------------

  /** NICK before registration (lines 51-58), as `Handle` describes it. */
  method ChooseNick(server: IrcServer, id: ConnId, msg: IrcMessage, client: Client)
    returns (client': Client, next: Next)
    requires server.Valid() && SessionOk(server, id, client, false) && msg.command == Nick
    modifies server
    ensures server.Valid() && SessionOk(server, id, client', false)
    ensures server.channels == old(server.channels)
    ensures var t := Handle(old(View(server)), id, msg, client, false);
      View(server) == t.registry && client' == t.client && next == t.next
  {
    client', next := client, Continue;
    var r := server.HandleNick(msg, id, client);
    if r.Panic? {
      next := Stop(Panicked(r.reason));
    } else {
      client' := r.value;
      if client.nick != "" {
        NickInUseGrows(old(server.clients), server.clients, client.nick);
      }
      if client'.nick != client.nick {
        assert server.clients[|server.clients| - 1].nick == client'.nick;
      }
    }
  }

  /** USER once a nickname is set (lines 60-72), as `Handle` describes it: with
      a real name the client is registered, welcomed and routed. */
  method Register(server: IrcServer, id: ConnId, msg: IrcMessage, client: Client)
    returns (client': Client, registered': bool)
    requires server.Valid() && SessionOk(server, id, client, false)
    requires msg.command == User && client.nick != ""
    modifies server
    ensures server.Valid() && SessionOk(server, id, client', registered')
    ensures server.channels == old(server.channels)
    ensures var t := Handle(old(View(server)), id, msg, client, false);
      View(server) == t.registry && client' == t.client && registered' == t.registered && t.next == Continue
  {
    registered' := false;
    client' := server.HandleUser(msg, id, client);
    if client'.nick != "" && client'.realname.Some? {
      registered' := true;
      server.WelcomeClient(client', id);
      server.AddConnection(client'.nick, id);
    }
  }

  /** PING (lines 73-78), as `Handle` describes it. */
  method Pinged(server: IrcServer, id: ConnId, msg: IrcMessage, client: Client, registered: bool)
    returns (next: Next)
    requires server.Valid() && SessionOk(server, id, client, registered) && msg.command == Ping
    modifies server
    ensures server.Valid() && SessionOk(server, id, client, registered)
    ensures server.channels == old(server.channels)
    ensures var t := Handle(old(View(server)), id, msg, client, registered);
      View(server) == t.registry && client == t.client && registered == t.registered && next == t.next
  {
    next := Continue;
    var r := server.HandlePing(msg, id);
    if r.Panic? {
      next := Stop(Panicked(r.reason));
    }
  }

  /** PRIVMSG from a registered client (lines 80-90), as `Handle` describes it. */
  method Forward(server: IrcServer, id: ConnId, msg: IrcMessage, client: Client)
    returns (next: Next)
    requires server.Valid() && SessionOk(server, id, client, true) && msg.command == Privmsg
    modifies server
    ensures server.Valid() && SessionOk(server, id, client, true)
    ensures server.channels == old(server.channels)
    ensures var t := Handle(old(View(server)), id, msg, client, true);
      View(server) == t.registry && client == t.client && t.registered && next == t.next
  {
    next := Continue;
    var r := server.HandlePrivmsg(msg, id, client.nick);
    if r.Panic? {
      next := Stop(Panicked(r.reason));
    }
  }

  /** QUIT (lines 91-97), as `Handle` describes it: it always ends the loop. */
  method Quitting(server: IrcServer, id: ConnId, msg: IrcMessage, client: Client, registered: bool)
    returns (next: Next)
    requires server.Valid() && SessionOk(server, id, client, registered) && msg.command == Quit
    modifies server
    ensures server.Valid() && SessionOk(server, id, client, registered)
    ensures server.channels == old(server.channels)
    ensures var t := Handle(old(View(server)), id, msg, client, registered);
      View(server) == t.registry && client == t.client && registered == t.registered && next == t.next
  {
    var r := server.HandleQuit(msg, id);
    next := Stop(if r.Panic? then Panicked(r.reason) else ClientQuit);
  }

  /** JOIN or PART from a registered client (lines 98-113), as `Handle`
      describes it. */
  method Membership(server: IrcServer, id: ConnId, msg: IrcMessage, client: Client)
    requires server.Valid() && SessionOk(server, id, client, true)
    requires msg.command == Join || msg.command == Part
    modifies server, server.channels
    ensures server.Valid() && SessionOk(server, id, client, true)
    ensures server.channels == old(server.channels)
    ensures var t := Handle(old(View(server)), id, msg, client, true);
      View(server) == t.registry && client == t.client && t.registered && t.next == Continue
  {
    if msg.command == Join {
      server.HandleJoin(msg, id, client);
    } else {
      server.HandlePart(msg, id, client);
    }
  }

  /** The body of the loop for one parsed message (lines 50-117): exactly what
      `Handle` describes, keeping the registry's and the session's invariants. */
  method Dispatch(server: IrcServer, id: ConnId, msg: IrcMessage, client: Client, registered: bool)
    returns (client': Client, registered': bool, next: Next)
    requires server.Valid() && SessionOk(server, id, client, registered)
    modifies server, server.channels
    ensures server.Valid() && SessionOk(server, id, client', registered')
    ensures server.channels == old(server.channels)
    ensures var t := Handle(old(View(server)), id, msg, client, registered);
      View(server) == t.registry && client' == t.client && registered' == t.registered && next == t.next
  {
    client', registered', next := client, registered, Continue;
    match msg.command
    case Nick =>
      if !registered {
        client', next := ChooseNick(server, id, msg, client);
      }
    case User =>
      if !registered && client.nick != "" {
        client', registered' := Register(server, id, msg, client);
      }
    case Ping =>
      next := Pinged(server, id, msg, client, registered);
    case Pong =>
    case Privmsg =>
      if registered {
        next := Forward(server, id, msg, client);
      }
    case Quit =>
      next := Quitting(server, id, msg, client, registered);
    case Join =>
      if registered {
        Membership(server, id, msg, client);
      }
    case Part =>
      if registered {
        Membership(server, id, msg, client);
      }
  }

  /** One turn of the loop (lines 29-120): read a line and act on it exactly as
      `TurnOn` describes; a turn that goes on has consumed input. */
  method Step(conn: ConnectionRead, id: ConnId, server: IrcServer, client: Client, registered: bool)
    returns (client': Client, registered': bool, next: Next)
    requires conn.Valid() && server.Valid() && SessionOk(server, id, client, registered)
    modifies conn, conn.buffer, server, server.channels
    ensures conn.Valid() && conn.buffer == old(conn.buffer)
    ensures var f := ReadFrame(old(conn.Pending()), old(conn.incoming));
      conn.Pending() == f.pending && conn.incoming == f.rest
    ensures server.Valid() && SessionOk(server, id, client', registered')
    ensures server.channels == old(server.channels)
    ensures var t := TurnOn(old(View(server)), id, ReadFrame(old(conn.Pending()), old(conn.incoming)).result, client, registered);
      View(server) == t.registry && client' == t.client && registered' == t.registered && next == t.next
    ensures next == Continue ==>
      || Weight(conn.incoming) < Weight(old(conn.incoming))
      || (conn.incoming == old(conn.incoming) && conn.buflen < old(conn.buflen))
  {
    client', registered', next := client, registered, Continue;
    ghost var pending, script := conn.Pending(), conn.incoming;
    var line := conn.ReadMessage();
    FrameProgress(pending, script);
    match line
    case Failure(e) =>
      if e == ConnectionLost || e == ConnectionClosed {
        next := Stop(Disconnected(e));
      }
    case Success(text) =>
      var parsed := Parse(text);
      if parsed.Panic? {
        next := Stop(Panicked(parsed.reason));
      } else if parsed.value.Some? {
        client', registered', next := Dispatch(server, id, parsed.value.value, client, registered);
      }
  }

  /** `handle_client`: a fresh session reads and handles lines until the peer
      goes away, the client quits or a handler panics. It ends exactly as `Run`
      of the buffered bytes and the socket says, and `msgs` are the commands
      that run handled, in order. */
  method HandleClient(conn: ConnectionRead, id: ConnId, server: IrcServer)
    returns (end: SessionEnd, ghost msgs: seq<IrcMessage>)
    requires conn.Valid() && server.Valid()
    modifies conn, conn.buffer, server, server.channels
    ensures conn.Valid() && server.Valid() && server.channels == old(server.channels)
    ensures Run(old(View(server)), id, old(conn.Pending()), old(conn.incoming), NewClient(), false)
      == Session(end, View(server), msgs)
    ensures var t := Replay(old(View(server)), id, msgs);
      && View(server) == t.registry && SessionOk(server, id, t.client, t.registered)
      && (t.registered ==> exists i | 0 <= i < |msgs| :: msgs[i].command == User)
    ensures end.Disconnected? ==> end.error == ConnectionClosed || end.error == ConnectionLost
    ensures end == ClientQuit ==> EndsWithQuit(msgs)
    ensures QuitOnlyLast(msgs)
    ensures EndsWithQuit(msgs) ==> end == ClientQuit || end.Panicked?
  {
    ghost var start, bytes, socket := View(server), conn.Pending(), conn.incoming;
    ghost var whole := Run(start, id, bytes, socket, NewClient(), false);
    var current, isRegistered := NewClient(), false;
    msgs := [];
    assert msgs + whole.heard == whole.heard;
    while true
      invariant conn.Valid() && conn.buffer == old(conn.buffer)
      invariant server.Valid() && server.channels == old(server.channels)
      invariant var r := Run(View(server), id, conn.Pending(), conn.incoming, current, isRegistered);
        whole == Session(r.end, r.registry, msgs + r.heard)
      invariant var t := Replay(start, id, msgs);
        View(server) == t.registry && current == t.client && isRegistered == t.registered
      invariant SessionOk(server, id, current, isRegistered)
      decreases Weight(conn.incoming), conn.buflen
    {
      ghost var g, pending, script := View(server), conn.Pending(), conn.incoming;
      ghost var client, registered, prior := current, isRegistered, msgs;
      ghost var line := ReadFrame(pending, script).result;
      var next;
      current, isRegistered, next := Step(conn, id, server, current, isRegistered);
      msgs := msgs + Carried(line);
      assert var t := Replay(start, id, msgs);
        View(server) == t.registry && current == t.client && isRegistered == t.registered
      by {
        ReplayTurn(start, id, prior, line);
      }
      if next.Stop? {
        RunStops(whole, prior, g, id, pending, script, client, registered);
        RunEnds(start, id, bytes, socket, NewClient(), false);
        ReplayRegistered(start, id, msgs);
        return next.end, msgs;
      }
      RunGoesOn(whole, prior, g, id, pending, script, client, registered);
    }
  }



  // ---------------------------------------------------------------------------
  // Lines whose handling follows the code rather than the protocol
  // ---------------------------------------------------------------------------

  /** A real name with a space in it is refused: the words are split on
      whitespace before USER looks at its last parameter, which is then the
      second word of the name rather than ":" followed by the whole name. */
  lemma UserRealNameWithSpace(user: string, mode: string, unused: string, first: string, second: string)
    requires IsWord(user) && IsWord(mode) && IsWord(unused) && IsWord(first) && IsWord(second)
    requires !StartsWith(second, ':')
    ensures var line := Unwords(["USER", user, mode, unused, ":" + first, second]);
      var params := [user, mode, unused, ":" + first, second];
      && Parse(line) == Ok(Some(IrcMessage(User, params, None, None)))
      && !StartsWith(params[|params| - 1], ':')
  {
    var ws := ["USER", user, mode, unused, ":" + first, second];
    ColonWord(first);
    assert IsWord("USER");
    assert ToAsciiUpper("USER") == Keyword(User);
    ParseWords(ws, User);
    assert ws[1..] == [user, mode, unused, ":" + first, second];
  }

  /** PRIVMSG forwards its second parameter, the first word of the body with its
      ':' kept, although the parser has also collected the whole text after the
      ':' as the last parameter. `keyword` is PRIVMSG in any letter case. */
  lemma PrivmsgForwardsSecondWord(keyword: string, target: string, w: string, more: seq<string>)
    requires ToAsciiUpper(keyword) == Keyword(Privmsg)
    requires IsWord(target) && ':' !in target
    requires IsWord(w) && forall i | 0 <= i < |more| :: IsWord(more[i])
    ensures var body := Unwords([w] + more);
      var line := keyword + " " + target + " :" + body;
      && Parse(line) == Ok(Some(IrcMessage(Privmsg, [target, ":" + w] + more + [body], None, Some(target))))
      && Terminated(Parse(line).value.value.params[1]) == ":" + w + "\r\n"
  {
    var body := Unwords([w] + more);
    var line := keyword + " " + target + " :" + body;
    var ws := [keyword, target, ":" + w] + more;
    var prefix := keyword + " " + target + " ";
    assert Words(line) == ws && FromStr(ws[0]) == Some(Privmsg) by {
      PrivmsgWords(line, keyword, target, w, more);
    }
    assert IndexOf(line, ':') == Some(|prefix|) && line[|prefix| + 1..] == body by {
      KeywordSpelling(keyword, Privmsg);
      ColonSplit(keyword + " " + target, body);
      ColonAfter(line, prefix, body);
    }
    ParseFromFacts(line, ws, |prefix|, body);
    DropFirst(keyword, target, ":" + w, more);
    assert Terminated(":" + w) == ":" + w + "\r\n" by {
      ColonWord(w);
      TerminatedWord(":" + w);
    }
  }

  lemma DropFirst(a: string, b: string, c: string, more: seq<string>)
    ensures ([a, b, c] + more)[1..] == [b, c] + more
  {
    assert ([a, b, c] + more)[1..] == [a, b, c][1..] + more;
  }

  lemma ColonSplit(head: string, body: string)
    ensures head + " :" + body == (head + " ") + ([':'] + body)
  {
  }

  /** A spelling of a keyword in any letter case is a word without ':'. */
  lemma KeywordSpelling(keyword: string, c: IrcCommand)
    requires ToAsciiUpper(keyword) == Keyword(c)
    ensures IsWord(keyword) && ':' !in keyword
  {
    var u := ToAsciiUpper(keyword);
    forall i | 0 <= i < |keyword|
      ensures !IsWhitespace(keyword[i]) && keyword[i] != ':'
    {
      assert AsciiUpper(keyword[i]) == u[i];
      assert 'A' <= u[i] <= 'Z';
    }
  }

  /** What `parse` builds from a PRIVMSG line, given its words and its first ':'. */
  lemma ParseFromFacts(line: string, ws: seq<string>, k: nat, body: string)
    requires Words(line) == ws && |ws| >= 3 && FromStr(ws[0]) == Some(Privmsg)
    requires IndexOf(line, ':') == Some(k) && line[k + 1..] == body
    ensures Parse(line) == Ok(Some(IrcMessage(Privmsg, ws[1..] + [body], None, Some(ws[1]))))
  {
  }

  /** The first ':' of a line whose text before it has none. */
  lemma ColonAfter(line: string, prefix: string, body: string)
    requires line == prefix + ([':'] + body) && ':' !in prefix
    ensures IndexOf(line, ':') == Some(|prefix|) && line[|prefix| + 1..] == body
  {
    FindAfter(prefix, body);
    assert line[|prefix| + 1..] == body;
  }

  lemma PrivmsgWords(line: string, keyword: string, target: string, w: string, more: seq<string>)
    requires ToAsciiUpper(keyword) == Keyword(Privmsg)
    requires IsWord(target) && IsWord(w) && forall i | 0 <= i < |more| :: IsWord(more[i])
    requires line == keyword + " " + target + " :" + Unwords([w] + more)
    ensures Words(line) == [keyword, target, ":" + w] + more
    ensures FromStr(Words(line)[0]) == Some(Privmsg)
  {
    var ws := [keyword, target, ":" + w] + more;
    KeywordSpelling(keyword, Privmsg);
    ColonWord(w);
    forall i | 0 <= i < |ws|
      ensures IsWord(ws[i])
    {
      if i >= 3 {
        assert ws[i] == more[i - 3];
      }
    }
    PrivmsgLine(keyword, target, w, more);
    WordsUnwords(ws);
    FromStrIffKeyword(ws[0], Privmsg);
  }

  /** A word with ':' in front is still a word. */
  lemma ColonWord(w: string)
    requires IsWord(w)
    ensures IsWord(":" + w)
  {
    assert forall i | 1 <= i < |":" + w| :: (":" + w)[i] == w[i - 1];
  }

  /** The PRIVMSG line is its words joined by spaces. */
  lemma PrivmsgLine(keyword: string, target: string, w: string, more: seq<string>)
    ensures Unwords([keyword, target, ":" + w] + more) == keyword + " " + target + " :" + Unwords([w] + more)
  {
    var ws := [keyword, target, ":" + w] + more;
    assert ws[1..] == [target, ":" + w] + more;
    assert ws[1..][1..] == [":" + w] + more;
    UnwordsColon(w, more);
  }

  lemma UnwordsColon(w: string, more: seq<string>)
    ensures Unwords([":" + w] + more) == ":" + Unwords([w] + more)
  {
    assert ([":" + w] + more)[1..] == more;
    assert ([w] + more)[1..] == more;
  }

  /** In `prefix + ":" + rest` with no ':' in `prefix`, the first ':' follows
      `prefix`. */
  lemma FindAfter(prefix: string, rest: string)
    requires ':' !in prefix
    ensures IndexOf(prefix + ([':'] + rest), ':') == Some(|prefix|)
  {
    var s := prefix + ([':'] + rest);
    assert s[..|prefix|] == prefix;
    assert s[|prefix|] == ':';
  }
}
