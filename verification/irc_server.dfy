/** The shared registry and the command handlers (src/lib/ircs/irc_server.rs).
    A connection's write half is an identifier (`ConnId`); writing a line to it
    appends the line to that identifier's outbox. */
module Server {
  import opened Base
  import opened Utf8
  import opened IrcMessages
  import opened Clients
  import opened Channels

  // ---------------------------------------------------------------------------
  // Nicknames
  // ---------------------------------------------------------------------------

  /** `char::is_ascii_digit`. */
  predicate IsAsciiDigit(c: char) {
    '0' <= c <= '9'
  }

  /** `char::is_ascii_alphanumeric`. */
  predicate IsAsciiAlnum(c: char) {
    IsAsciiDigit(c) || 'a' <= c <= 'z' || 'A' <= c <= 'Z'
  }

  /** The nickname rule: one to nine ASCII letters or digits, not starting
      with a digit. */
  predicate IsNickname(n: string) {
    && 0 < |n| <= 9
    && (forall i | 0 <= i < |n| :: IsAsciiAlnum(n[i]))
    && !IsAsciiDigit(n[0])
  }

  /** Rust's message for `unwrap` on `None`. */
  const UnwrapNone := "called `Option::unwrap()` on a `None` value"

  /** The decimal digits of `n`, as `{}` formats it. */
  function NatText(n: nat): (r: string)
    ensures |r| > 0 && forall i | 0 <= i < |r| :: '0' <= r[i] <= '9'
  {
    if n < 10 then [('0' as int + n) as char] else NatText(n / 10) + NatText(n % 10)
  }

  /** Rust's message for indexing a vector of length `len` at `index`. */
  function IndexOutOfBounds(len: nat, index: nat): string {
    "index out of bounds: the len is " + NatText(len) + " but the index is " + NatText(index)
  }

  /** `valid_nickname`: the byte length (`str::len`) is checked first, then the
      characters, then the first character, which `unwrap` takes from an
      iterator that is empty for "" (a panic). */
  function ValidNickname(nick: string): (r: Fallible<bool>)
    ensures r.Panic? <==> nick == ""
    ensures r == Ok(true) ==> IsNickname(nick)
  {
    if |Encode(nick)| > 9 then Ok(false)
    else if !(forall i | 0 <= i < |nick| :: IsAsciiAlnum(nick[i])) then Ok(false)
    else if nick == [] then Panic(UnwrapNone)
    else Ok(!IsAsciiDigit(nick[0]))
  }

  /** `valid_nickname` panics on the empty string only, and otherwise accepts
      exactly the nicknames of the rule. */
  lemma ValidNicknameIff(nick: string)
    ensures ValidNickname(nick).Panic? <==> nick == ""
    ensures ValidNickname(nick) == Ok(true) <==> IsNickname(nick)
  {
    if forall i | 0 <= i < |nick| :: IsAsciiAlnum(nick[i]) {
      AsciiLength(nick);
    }
  }

  /** An accepted nickname: "Alice1". */
  lemma NicknameAccepted()
    ensures ValidNickname("Alice1") == Ok(true)
  {
    ValidNicknameIff("Alice1");
    assert IsNickname("Alice1");
  }

  /** Refused: "1Alice" starts with a digit. */
  lemma NicknameLeadingDigit()
    ensures ValidNickname("1Alice") == Ok(false)
  {
    RefusedNickname("1Alice");
  }

  /** Refused: "Alice12345" is ten characters long. */
  lemma NicknameTooLong()
    ensures ValidNickname("Alice12345") == Ok(false)
  {
    RefusedNickname("Alice12345");
  }

  /** Refused: "al-ice" holds a hyphen. */
  lemma NicknameHyphen()
    ensures ValidNickname("al-ice") == Ok(false)
  {
    assert !IsAsciiAlnum("al-ice"[2]);
    RefusedNickname("al-ice");
  }

  lemma RefusedNickname(n: string)
    requires n != "" && !IsNickname(n)
    ensures ValidNickname(n) == Ok(false)
  {
    ValidNicknameIff(n);
  }

  /** Some element of `clients` already holds the nickname `n`
      (`clients.iter().any(..)`). */
  predicate NickInUse(clients: seq<Client>, n: string) {
    exists i | 0 <= i < |clients| :: clients[i].nick == n
  }

  /** After `push`, a nickname is in use exactly when it was before or it is
      the pushed client's. */
  lemma {:induction false} NickInUseAppend(clients: seq<Client>, c: Client, n: string)
    ensures NickInUse(clients + [c], n) <==> NickInUse(clients, n) || c.nick == n
  {
    var all := clients + [c];
    if NickInUse(all, n) {
      var i :| 0 <= i < |all| && all[i].nick == n;
      if i < |clients| {
        assert clients[i] == all[i];
      }
    }
    if NickInUse(clients, n) {
      var i :| 0 <= i < |clients| && clients[i].nick == n;
      assert all[i] == clients[i];
    }
    if c.nick == n {
      assert all[|clients|] == c;
    }
  }

  // ---------------------------------------------------------------------------
  // Reply texts
  // ---------------------------------------------------------------------------

  /** `send_err_needmoreparams`. */
  function NeedMoreParams(command: string): (r: string)
    ensures ":" + command + " 461" <= r && EndsWith(r, "\r\n")
  {
    ":" + command + " 461  :Need more parameters\r\n"
  }

  /** `send_err_nosuchchannel`. */
  function NoSuchChannel(channelName: string): (r: string)
    ensures " 403  " + channelName <= r && EndsWith(r, "\r\n")
  {
    " 403  " + channelName + " :No such channel\r\n"
  }

  /** The line `welcome_client` writes; the real name falls back to the nick. */
  function Welcome(client: Client): (r: string)
    ensures ":iris-server 001 " + client.nick + " :Hi " <= r && EndsWith(r, "\r\n")
  {
    ":iris-server 001 " + client.nick + " :Hi " + client.realname.GetOr(client.nick) + ", welcome to IRC\r\n"
  }

  /** The two numeric-style error replies can always be told apart. */
  lemma ReplyKindsDistinct(command: string, channelName: string)
    ensures NeedMoreParams(command) != NoSuchChannel(channelName)
    ensures NeedMoreParams(command)[0] == ':' && NoSuchChannel(channelName)[0] == ' '
  {
    assert NeedMoreParams(command)[0] == (":" + command + " 461")[0];
    assert NoSuchChannel(channelName)[0] == (" 403  " + channelName)[0];
  }

  /** What `handle_privmsg_command` writes for a body: CR LF is added unless the
      body already ends with it. */
  function Terminated(s: string): (r: string)
    ensures EndsWith(r, "\r\n")
    ensures s <= r && |r| <= |s| + 2
    ensures EndsWith(s, "\r\n") ==> r == s
  {
    if EndsWith(s, "\r\n") then s else s + "\r\n"
  }

  /** Terminating twice is terminating once. */
  lemma TerminatedIdempotent(s: string)
    ensures Terminated(Terminated(s)) == Terminated(s)
  {
  }

  /** A word from the tokenizer never holds CR or LF (both are whitespace), so
      the delivered line is always the word followed by a fresh CR LF. */
  lemma TerminatedWord(w: string)
    requires IsWord(w)
    ensures Terminated(w) == w + "\r\n"
  {
    assert !IsWhitespace(w[|w| - 1]);
  }

  // ---------------------------------------------------------------------------
  // The registry
  // ---------------------------------------------------------------------------

  /** The lines an outbox holds for connection `id`. */
  function SentTo(outbox: map<ConnId, seq<string>>, id: ConnId): seq<string> {
    if id in outbox then outbox[id] else []
  }

  /** `IrcServer`: the clients that ever set a nickname, the channels, the
      nickname-to-connection routes (`connection_map`), and, standing for the
      connections' write halves, every line each connection has been sent. */
  class IrcServer {
    var clients: seq<Client>
    var channels: seq<Channel>
    var routes: map<string, ConnId>
    var outbox: map<ConnId, seq<string>>

    /** Every recorded nickname obeys the rule and no two are equal; the channel
        list holds distinct objects, as a `Vec<Channel>` owns its elements. */
    ghost predicate Valid()
      reads this
    {
      && (forall i | 0 <= i < |clients| :: IsNickname(clients[i].nick))
      && (forall i, j | 0 <= i < j < |clients| :: clients[i].nick != clients[j].nick)
      && (forall i, j | 0 <= i < j < |channels| :: channels[i] != channels[j])
    }

    /** The lines written so far to connection `id`. */
    function Sent(id: ConnId): seq<string>
      reads this
    {
      SentTo(outbox, id)
    }

    /** The channel names, in order. */
    ghost function Names(): (r: seq<string>)
      reads this, channels
      ensures |r| == |channels|
    {
      seq(|channels|, i requires 0 <= i < |channels| reads this, channels => channels[i].name)
    }

    /** The member lists of the channels, in order. */
    ghost function Members(): (r: seq<seq<string>>)
      reads this, channels
      ensures |r| == |channels|
    {
      seq(|channels|, i requires 0 <= i < |channels| reads this, channels => channels[i].clients)
    }

    /** `IrcServer::new`: everything empty. */
    constructor ()
      ensures Valid()
      ensures clients == [] && channels == [] && routes == map[] && outbox == map[]
    {
      clients, channels, routes, outbox := [], [], map[], map[];
    }

    /** `ConnectionWrite::write_message`: the line reaches connection `id`. */
    method Send(id: ConnId, line: string)
      modifies this
      ensures outbox == old(outbox)[id := old(Sent(id)) + [line]]
      ensures clients == old(clients) && channels == old(channels) && routes == old(routes)
      ensures Names() == old(Names()) && Members() == old(Members())
    {
      outbox := outbox[id := Sent(id) + [line]];
    }

    /** `add_connection`: one route is inserted or overwritten. */
    method AddConnection(nick: string, id: ConnId)
      modifies this
      ensures Names() == old(Names()) && Members() == old(Members())
      ensures routes == old(routes)[nick := id]
      ensures forall n | n in routes && n != nick :: n in old(routes) && routes[n] == old(routes)[n]
      ensures clients == old(clients) && channels == old(channels) && outbox == old(outbox)
    {
      routes := routes[nick := id];
    }

    /** `remove_connection`: one route is deleted, if present. */
    method RemoveConnection(nick: string)
      modifies this
      ensures Names() == old(Names()) && Members() == old(Members())
      ensures routes == old(routes) - {nick}
      ensures nick !in routes && forall n | n in old(routes) && n != nick :: n in routes && routes[n] == old(routes)[n]
      ensures clients == old(clients) && channels == old(channels) && outbox == old(outbox)
    {
      routes := routes - {nick};
    }

    /** `get_channel`: the index of the first channel with that name. */
    method GetChannel(channelName: string) returns (r: Option<nat>)
      ensures r.Some? ==> r.value < |channels| && channels[r.value].name == channelName
      ensures r.Some? ==> forall j | 0 <= j < r.value :: channels[j].name != channelName
      ensures r.None? ==> forall j | 0 <= j < |channels| :: channels[j].name != channelName
    {
      var i := 0;
      while i < |channels|
        invariant 0 <= i <= |channels|
        invariant forall j | 0 <= j < i :: channels[j].name != channelName
      {
        if channels[i].name == channelName {
          return Some(i);
        }
        i := i + 1;
      }
      return None;
    }

    /** `welcome_client`. */
    method WelcomeClient(client: Client, conn: ConnId)
      modifies this
      ensures Names() == old(Names()) && Members() == old(Members())
      ensures outbox == old(outbox)[conn := old(Sent(conn)) + [Welcome(client)]]
      ensures clients == old(clients) && channels == old(channels) && routes == old(routes)
    {
      Send(conn, Welcome(client));
    }

    /** `handle_quit_command`: echoes the first parameter; with no parameter it
        unwraps `from_nick`, which panics when it was never set. */
    method HandleQuit(msg: IrcMessage, conn: ConnId) returns (r: Fallible<()>)
      modifies this
      ensures Names() == old(Names()) && Members() == old(Members())
      ensures clients == old(clients) && channels == old(channels) && routes == old(routes)
      ensures |msg.params| > 0 ==>
        r.Ok? && outbox == old(outbox)[conn := old(Sent(conn)) + ["QUIT :" + msg.params[0] + "\r\n"]]
      ensures |msg.params| == 0 && msg.fromNick.Some? ==>
        r.Ok? && outbox == old(outbox)[conn := old(Sent(conn)) + ["QUIT :" + (msg.fromNick.value + " has quit") + "\r\n"]]
      ensures |msg.params| == 0 && msg.fromNick.None? ==> r == Panic(UnwrapNone) && outbox == old(outbox)
    {
      var message;
      if |msg.params| > 0 {
        message := msg.params[0];
      } else if msg.fromNick.Some? {
        message := msg.fromNick.value + " has quit";
      } else {
        return Panic(UnwrapNone);
      }
      Send(conn, "QUIT :" + message + "\r\n");
      return Ok(());
    }

    /** Channel `i` gains the client's nick at the end; no other channel and no
        name moves. */
    method JoinAt(i: nat, client: Client)
      requires Valid() && i < |channels|
      modifies channels[i]
      ensures Names() == old(Names())
      ensures Members() == old(Members())[i := old(Members())[i] + [client.nick]]
    {
      ghost var before := Members();
      channels[i].Join(client);
      assert Members() == before[i := before[i] + [client.nick]];
    }

    /** Channel `i` loses the first copy of the client's nick, if it has one;
        no other channel and no name moves. */
    method PartAt(i: nat, client: Client) returns (parted: bool)
      requires Valid() && i < |channels|
      modifies channels[i]
      ensures parted <==> client.nick in old(Members())[i]
      ensures Names() == old(Names())
      ensures Members() == old(Members())[i := RemoveFirst(old(Members())[i], client.nick)]
    {
      ghost var before := Members();
      parted := channels[i].Part(client);
      assert Members() == before[i := RemoveFirst(before[i], client.nick)];
    }

    /** `handle_join_command`. */
    method HandleJoin(msg: IrcMessage, conn: ConnId, client: Client)
      requires Valid()
      modifies this, channels
      ensures Valid()
      ensures clients == old(clients) && channels == old(channels) && routes == old(routes)
      ensures Names() == old(Names())
      ensures |msg.params| == 0 ==>
        && outbox == old(outbox)[conn := old(Sent(conn)) + [NeedMoreParams("JOIN")]]
        && Members() == old(Members())
      ensures |msg.params| > 0 && !StartsWith(msg.params[0], '#') ==>
        && outbox == old(outbox)[conn := old(Sent(conn)) + [NoSuchChannel(msg.params[0])]]
        && Members() == old(Members())
      ensures |msg.params| > 0 && StartsWith(msg.params[0], '#') ==>
        && outbox == old(outbox)
        && match IndexOf(old(Names()), msg.params[0])
           case Some(i) => Members() == old(Members())[i := old(Members())[i] + [client.nick]]
           case None => Members() == old(Members())
    {
      if |msg.params| < 1 {
        Send(conn, NeedMoreParams("JOIN"));
      } else {
        var channelName := msg.params[0];
        if !StartsWith(channelName, '#') {
          Send(conn, NoSuchChannel(channelName));
        } else {
          var found := GetChannel(channelName);
          assert found == IndexOf(Names(), channelName) by {
            IndexOfNames(channelName, found);
          }
          if found.Some? {
            JoinAt(found.value, client);
          }
        }
      }
    }

    /** `handle_part_command`: as JOIN, except that leaving a channel one is not
        a member of gets the no-such-channel reply. */
    method HandlePart(msg: IrcMessage, conn: ConnId, client: Client)
      requires Valid()
      modifies this, channels
      ensures Valid()
      ensures clients == old(clients) && channels == old(channels) && routes == old(routes)
      ensures Names() == old(Names())
      ensures |msg.params| == 0 ==>
        && outbox == old(outbox)[conn := old(Sent(conn)) + [NeedMoreParams("PART")]]
        && Members() == old(Members())
      ensures |msg.params| > 0 && !StartsWith(msg.params[0], '#') ==>
        && outbox == old(outbox)[conn := old(Sent(conn)) + [NoSuchChannel(msg.params[0])]]
        && Members() == old(Members())
      ensures |msg.params| > 0 && StartsWith(msg.params[0], '#') ==>
        match IndexOf(old(Names()), msg.params[0])
        case Some(i) =>
          && Members() == old(Members())[i := RemoveFirst(old(Members())[i], client.nick)]
          && (client.nick in old(Members())[i] ==> outbox == old(outbox))
          && (client.nick !in old(Members())[i] ==>
                outbox == old(outbox)[conn := old(Sent(conn)) + [NoSuchChannel(msg.params[0])]])
        case None => Members() == old(Members()) && outbox == old(outbox)
    {
      if |msg.params| < 1 {
        Send(conn, NeedMoreParams("PART"));
      } else {
        var channelName := msg.params[0];
        if !StartsWith(channelName, '#') {
          Send(conn, NoSuchChannel(channelName));
        } else {
          var found := GetChannel(channelName);
          assert found == IndexOf(Names(), channelName) by {
            IndexOfNames(channelName, found);
          }
          if found.Some? {
            var parted := PartAt(found.value, client);
            if !parted {
              Send(conn, NoSuchChannel(channelName));
            }
          }
        }
      }
    }

    /** What `get_channel` finds is the first index of the name in `Names()`. */
    lemma IndexOfNames(channelName: string, found: Option<nat>)
      requires found.Some? ==> found.value < |channels| && channels[found.value].name == channelName
      requires found.Some? ==> forall j | 0 <= j < found.value :: channels[j].name != channelName
      requires found.None? ==> forall j | 0 <= j < |channels| :: channels[j].name != channelName
      ensures found == IndexOf(Names(), channelName)
    {
      var names := Names();
      var wanted := IndexOf(names, channelName);
      if found.Some? {
        assert names[found.value] == channelName;
        assert channelName !in names[..found.value];
      } else {
        assert channelName !in names;
      }
    }

    /** `handle_privmsg_command`: the target (or "No target" when the message
        has none) is looked up among the routes; `params[1]`, CR LF terminated,
        goes to the target's connection, or the sender is told the target was not
        found (without CR LF). Fewer than two parameters: index panic. */
    method HandlePrivmsg(msg: IrcMessage, from: ConnId, fromNick: string) returns (r: Fallible<()>)
      modifies this
      ensures Names() == old(Names()) && Members() == old(Members())
      ensures clients == old(clients) && channels == old(channels) && routes == old(routes)
      ensures |msg.params| < 2 ==> r == Panic(IndexOutOfBounds(|msg.params|, 1)) && outbox == old(outbox)
      ensures |msg.params| >= 2 ==> r.Ok?
      ensures |msg.params| >= 2 && msg.toNick.GetOr("No target") in routes ==>
        var to := routes[msg.toNick.GetOr("No target")];
        outbox == old(outbox)[to := old(Sent(to)) + [Terminated(msg.params[1])]]
      ensures |msg.params| >= 2 && msg.toNick.GetOr("No target") !in routes ==>
        outbox == old(outbox)[from := old(Sent(from)) + ["Target client not found"]]
    {
      var target := msg.toNick.GetOr("No target");
      if |msg.params| < 2 {
        return Panic(IndexOutOfBounds(|msg.params|, 1));
      }
      var message := Terminated(msg.params[1]);
      if target in routes {
        Send(routes[target], message);
      } else {
        Send(from, "Target client not found");
      }
      return Ok(());
    }

    /** `handle_ping_command`: answers PONG with the first parameter; none is an
        index panic. */
    method HandlePing(msg: IrcMessage, conn: ConnId) returns (r: Fallible<()>)
      modifies this
      ensures Names() == old(Names()) && Members() == old(Members())
      ensures clients == old(clients) && channels == old(channels) && routes == old(routes)
      ensures |msg.params| == 0 ==> r == Panic(IndexOutOfBounds(0, 0)) && outbox == old(outbox)
      ensures |msg.params| > 0 ==>
        r.Ok? && outbox == old(outbox)[conn := old(Sent(conn)) + ["PONG :" + msg.params[0] + "\r\n"]]
    {
      if |msg.params| == 0 {
        return Panic(IndexOutOfBounds(0, 0));
      }
      Send(conn, "PONG :" + msg.params[0] + "\r\n");
      return Ok(());
    }

    /** `handle_user_command`: needs at least four parameters, the last of which
        starts with ':'; the real name is that parameter without its ':'. */
    method HandleUser(msg: IrcMessage, conn: ConnId, client: Client) returns (updated: Client)
      modifies this
      ensures Names() == old(Names()) && Members() == old(Members())
      ensures clients == old(clients) && channels == old(channels) && routes == old(routes)
      ensures |msg.params| < 4 || !StartsWith(msg.params[|msg.params| - 1], ':') ==>
        && updated == client
        && outbox == old(outbox)[conn := old(Sent(conn)) + ["ERR_NEEDMOREPARAMS\r\n"]]
      ensures |msg.params| >= 4 && StartsWith(msg.params[|msg.params| - 1], ':') ==>
        && updated == client.(realname := Some(msg.params[|msg.params| - 1][1..]))
        && outbox == old(outbox)
    {
      if |msg.params| < 4 {
        Send(conn, "ERR_NEEDMOREPARAMS\r\n");
        return client;
      }
      var last := msg.params[|msg.params| - 1];
      if !StartsWith(last, ':') {
        Send(conn, "ERR_NEEDMOREPARAMS\r\n");
        return client;
      }
      return client.(realname := Some(last[1..]));
    }

    /** `handle_nick_command`: the first parameter (an index panic when there is
        none) must pass `valid_nickname` and be held by no recorded client; then
        the client takes it and a copy of the client is appended to `clients`,
        which never shrinks, so the name stays taken. */
    method HandleNick(msg: IrcMessage, conn: ConnId, client: Client) returns (r: Fallible<Client>)
      requires Valid()
      modifies this
      ensures Names() == old(Names()) && Members() == old(Members())
      ensures Valid()
      ensures channels == old(channels) && routes == old(routes)
      ensures old(clients) <= clients
      ensures |msg.params| == 0 ==>
        r == Panic(IndexOutOfBounds(0, 0)) && clients == old(clients) && outbox == old(outbox)
      ensures |msg.params| > 0 && msg.params[0] == "" ==>
        r == Panic(UnwrapNone) && clients == old(clients) && outbox == old(outbox)
      ensures |msg.params| > 0 && msg.params[0] != "" && !IsNickname(msg.params[0]) ==>
        && r == Ok(client) && clients == old(clients)
        && outbox == old(outbox)[conn := old(Sent(conn)) + ["ERR_ERRONEUSNICKNAME\r\n"]]
      ensures |msg.params| > 0 && IsNickname(msg.params[0]) && NickInUse(old(clients), msg.params[0]) ==>
        && r == Ok(client) && clients == old(clients)
        && outbox == old(outbox)[conn := old(Sent(conn)) + ["ERR_NICKCOLLISION\r\n"]]
      ensures |msg.params| > 0 && IsNickname(msg.params[0]) && !NickInUse(old(clients), msg.params[0]) ==>
        && r == Ok(client.(nick := msg.params[0]))
        && clients == old(clients) + [client.(nick := msg.params[0])]
        && outbox == old(outbox)
    {
      if |msg.params| == 0 {
        return Panic(IndexOutOfBounds(0, 0));
      }
      var newNick := msg.params[0];
      ValidNicknameIff(newNick);
      var valid := ValidNickname(newNick);
      if valid.Panic? {
        return Panic(valid.reason);
      }
      if !valid.value {
        Send(conn, "ERR_ERRONEUSNICKNAME\r\n");
        return Ok(client);
      }
      if NickInUse(clients, newNick) {
        Send(conn, "ERR_NICKCOLLISION\r\n");
        return Ok(client);
      }
      var updated := client.(nick := newNick);
      clients := clients + [updated];
      return Ok(updated);
    }
  }
}
