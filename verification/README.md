# IRC-subset server: a Dafny model of the line path

This project models the sequential path one line takes through the Rust IRC
server in `src/`. Bytes arrive on a connection. `ConnectionRead` frames them into
CR LF terminated lines in a 512-byte buffer. `IrcMessage::parse` turns a line into
a command. `handle_client` decides from the session's registration state whether
that command is honoured. If it is, one of the `IrcServer` handlers updates the
registry, a channel's member list, or the session's `Client` record, and writes
replies.

The model takes the source's own form:

- `connect.dfy` (module `Connect`): `ConnectionRead` is a class over a
  512-element `array` and a `buflen` field. `BufferCrlf`, the retrying read loop,
  the copy into the buffer and the `copy_within` shift are loops. `ReadMessage` is
  proved equal to the specification function `ReadFrame`. The framing
  properties are lemmas about `ReadFrame`.
- `irc_message.dfy` (module `IrcMessages`): the tokenizer is pure functions.
  `Words` models `split_whitespace`, `FromStr` models `IrcCommand::from_str`, and
  `Parse` models `IrcMessage::parse`.
- `channel.dfy` (module `Channels`): `Channel` is a class whose `Join` and
  `Part` update its `clients` sequence in place.
- `irc_server.dfy` (module `Server`): `IrcServer` is a class with the
  client list, the channel list, the nickname-to-connection routes
  (`connection_map`) and an outbox per connection. Each handler is a method.
  `valid_nickname` and the reply texts are functions.
- `client_loop.dfy` (module `ClientLoop`): `HandleClient` is the loop of
  `handle_client`, `Step` is one turn of it, and `Dispatch` is one pass of its
  `match`. They are proved equal to reference functions on values: `Handle`
  for one command, `TurnOn` for one read, and `Run` for the whole loop over
  the buffered bytes and the socket. `Replay` folds `Handle` over a list of
  commands, and `RunReplays` shows that a run leaves the registry as the
  replay of the commands it handled. The lemmas about `Handle` state what a
  turn promises, and those about `Run` state how a session ends.
- `utf8.dfy` (module `Utf8`): `String::from_utf8` and the UTF-8 encoder, with
  both round trips proved.
- `base.dfy`, `client.dfy`: `Option`, `Result`, the panic outcome `Fallible`,
  and the `Client` record.

Modelling conventions:

- A connection's write half is a number (`ConnId`). Writing a line appends it
  to that number's outbox (`IrcServer.outbox`; read with `Sent`).
- The socket is the list of results its successive `read` calls return. A chunk
  larger than the free space in the buffer is taken in part; the rest stays in
  the socket. A used-up list reads as end of stream.
- Every `unwrap`, `expect` and out-of-range index that can fail becomes a
  `Panic` outcome, not a precondition. This covers `irc_server.rs` lines 21, 80,
  164, 205 and 252, and `irc_message.rs` line 24. A panic ends that session's
  task. Nothing the handler changed before panicking is lost, and in every case
  the panic comes before any change.
- Each command runs while holding the registry's mutex, so one command's
  handling is modelled as a single sequential step.

Where the code differs from what a reader of the IRC protocol might expect, the
model follows the code:

- `USER a b c :Real Name` is refused. The line is split on whitespace before
  USER looks at its last parameter, which is `Name` (`UserRealNameWithSpace`).
- PRIVMSG forwards `params[1]`. That is the first word of the body with its ':'
  kept (`":hello\r\n"`), not the text after the ':'
  (`PrivmsgForwardsSecondWord`).
- `read_message` does one successful read per call. A line split across two reads
  is reported as `MessageTooLong` and dropped, even when the buffer had room
  (`SplitLineLost`).
- The channel list starts empty and no command adds to it, so JOIN and PART on a
  well-formed name never find a channel. The model keeps the list anyway and
  proves the handlers against any contents.
- QUIT with no parameter panics, because `parse` never sets `from_nick`.

## Model

| member | source | states |
|---|---|---|
| Utf8.SeqLen | src/lib/connect.rs:140 | the length of the well-formed UTF-8 sequence at the front (0 when ill-formed) is at most 4 and the input length, and is 1 exactly for an ASCII lead byte |
| Utf8.CodePoint | src/lib/connect.rs:140 | a well-formed sequence denotes a Unicode scalar value: below U+D800 or from U+E000 up to U+10FFFF |
| Utf8.EncodeChar | src/lib/ircs/irc_server.rs:19 | a character's UTF-8 encoding has 1 to 4 bytes, and 1 exactly for ASCII |
| Utf8.Encode | src/lib/ircs/irc_server.rs:19 | the encoding of a string is never shorter than the string |
| Utf8.EncodeCharDecodes | src/lib/connect.rs:140 | a character's encoding, whatever follows it, is a well-formed sequence of that length decoding back to the character |
| Utf8.DecodeCharEncodes | src/lib/connect.rs:140 | a well-formed sequence is exactly the encoding of the character it decodes to |
| Utf8.Decode | src/lib/connect.rs:140 | decoded text is never longer than the bytes; bytes that are all ASCII always decode, one character per byte with the same value |
| Utf8.DecodeEncode | src/lib/connect.rs:140 | round trip: the bytes of any string decode to that string |
| Utf8.EncodeDecode | src/lib/connect.rs:140 | reverse round trip: bytes that decode are the encoding of their decoding, so the decoder accepts exactly the encodings of strings |
| Utf8.AsciiLength | src/lib/ircs/irc_server.rs:19 | an ASCII string's byte length (`str::len`) equals its character count |
| IrcMessages.TokenLen | src/lib/ircs/irc_message.rs:10 | the leading run of non-whitespace characters is maximal: the next character, if any, is whitespace |
| IrcMessages.IsWhitespace | src/lib/ircs/irc_message.rs:10 | space, tab, CR and LF separate words; ':', ASCII letters and digits never do |
| IrcMessages.Words | src/lib/ircs/irc_message.rs:10 | `split_whitespace` yields only non-empty words without whitespace |
| IrcMessages.WordsEmptyIffBlank | src/lib/ircs/irc_message.rs:10-13 | a line has no words exactly when it is all whitespace, in both directions |
| IrcMessages.WordsUnwords | src/lib/ircs/irc_message.rs:10 | splitting words joined by single spaces gives back exactly those words, in order |
| IrcMessages.ToAsciiUpper | src/lib/ircs/irc_message.rs:54 | upper-casing keeps the length and maps each character on its own, changing only 'a' to 'z' |
| IrcMessages.FromStr | src/lib/ircs/irc_message.rs:53-65 | a selected command's keyword is the token's ASCII upper-case form; a token of any length but 4 or 7 selects nothing |
| IrcMessages.FromStrIffKeyword | src/lib/ircs/irc_message.rs:53-65 | a token selects a command exactly when its ASCII upper-case form is that command's keyword; any other token selects none |
| IrcMessages.FromStrIgnoresCase | src/lib/ircs/irc_message.rs:54 | tokens equal up to ASCII case select the same command ("nick", "Nick", "NICK") |
| IrcMessages.Parse | src/lib/ircs/irc_message.rs:9-34 | a parsed message never has a sender, and its parameters begin with the words after the keyword, in order |
| IrcMessages.ParseBlank | src/lib/ircs/irc_message.rs:10-13 | an empty or all-whitespace line is not a message |
| IrcMessages.ParseUnknown | src/lib/ircs/irc_message.rs:15 | a line whose first word is none of the eight keywords is not a message |
| IrcMessages.ParseWords | src/lib/ircs/irc_message.rs:9-34 | words joined by spaces and led by a keyword other than PRIVMSG parse to that command with the remaining words as parameters and no target |
| IrcMessages.ParsePlain | src/lib/ircs/irc_message.rs:16-19 | every command but PRIVMSG, and PRIVMSG with fewer than two words after it, gets exactly the words after the keyword, no target and nothing appended |
| IrcMessages.ParsePrivmsg | src/lib/ircs/irc_message.rs:19-27 | PRIVMSG with two or more words: panics exactly when the line has no ':'; otherwise the target is the first word, and the parameters are the words plus the raw text after the first ':', one more than the word count |
| IrcMessages.WithFromNick | src/lib/ircs/irc_message.rs:35-37 | `set_from_nick` sets the sender and leaves command, parameters and target unchanged |
| Base.IndexOf | src/lib/ircs/channel.rs:18 | `position` gives the first index of the nick, and None exactly when it is absent; it also models `find(':')` of src/lib/ircs/irc_message.rs lines 21-22 |
| Channels.RemoveFirst | src/lib/ircs/channel.rs:18-19 | removing an absent nick changes nothing; removing a present one shortens the list by one |
| Channels.RemoveFirstMultiset | src/lib/ircs/channel.rs:19 | exactly one copy of the nick leaves the member multiset |
| Channels.RemoveFirstAt | src/lib/ircs/channel.rs:18-19 | exactly the first occurrence is removed; the members before and after it keep their order |
| Channels.Channel.constructor | src/lib/ircs/channel.rs:5-9 | a channel holds the given name and members |
| Channels.Channel.Join | src/lib/ircs/channel.rs:12-15 | the nick is appended at the end, duplicates included, and the name is unchanged |
| Channels.Channel.Part | src/lib/ircs/channel.rs:17-25 | returns true exactly when the nick was a member; the members become the old list without its first occurrence (one shorter), or stay unchanged when it returns false; the name is unchanged |
| Server.ValidNickname | src/lib/ircs/irc_server.rs:17-22 | panics exactly on the empty name; a name it accepts has 1 to 9 ASCII letters or digits and does not start with a digit |
| Server.ValidNicknameIff | src/lib/ircs/irc_server.rs:17-22 | `valid_nickname` panics exactly on "" and accepts exactly the names of 1 to 9 ASCII letters or digits not starting with a digit |
| Server.NicknameAccepted | src/lib/ircs/irc_server.rs:17-22 | "Alice1" is accepted |
| Server.NicknameLeadingDigit | src/lib/ircs/irc_server.rs:17-22 | "1Alice" is refused: it starts with a digit |
| Server.NicknameTooLong | src/lib/ircs/irc_server.rs:17-22 | "Alice12345" is refused: it has ten characters |
| Server.NicknameHyphen | src/lib/ircs/irc_server.rs:17-22 | "al-ice" is refused: '-' is neither a letter nor a digit |
| Server.NickInUseAppend | src/lib/ircs/irc_server.rs:262-274 | after a client is pushed, a nickname is in use exactly when it was before or is the pushed client's |
| Server.NeedMoreParams | src/lib/ircs/irc_server.rs:24-26 | the 461 reply starts with ':', the command and " 461", and ends in CR LF |
| Server.NoSuchChannel | src/lib/ircs/irc_server.rs:28-30 | the 403 reply starts with " 403  " and the channel name, and ends in CR LF |
| Server.Welcome | src/lib/ircs/irc_server.rs:64-68 | the welcome starts with ":iris-server 001 <nick> :Hi " and ends in CR LF |
| Server.ReplyKindsDistinct | src/lib/ircs/irc_server.rs:24-30 | the 461 and 403 reply texts never coincide: one starts with ':' and the other with a space |
| Server.Terminated | src/lib/ircs/irc_server.rs:166-168 | the forwarded body always ends in CR LF, extends the body by at most two characters, and is the body itself when it already ends in CR LF |
| Server.TerminatedIdempotent | src/lib/ircs/irc_server.rs:166-168 | terminating twice is the same as terminating once |
| Server.TerminatedWord | src/lib/ircs/irc_server.rs:164-168 | a tokenizer word never ends in CR LF, so it is always forwarded with a fresh CR LF |
| Server.IrcServer.constructor | src/lib/ircs/irc_server.rs:31-37 | a new registry has no clients, channels, routes or output, and satisfies the registry invariant |
| Server.IrcServer.Send | src/lib/connect.rs:161-171 | a write appends one line to that connection's outbox and changes nothing else, channel names and members included |
| Server.IrcServer.AddConnection | src/lib/ircs/irc_server.rs:40-42 | inserts or overwrites exactly one route; every other route is unchanged |
| Server.IrcServer.RemoveConnection | src/lib/ircs/irc_server.rs:44-46 | deletes exactly that route, if present; every other route is unchanged |
| Server.IrcServer.GetChannel | src/lib/ircs/irc_server.rs:90-97 | returns the index of the first channel with that name, or None when no channel has it |
| Server.IrcServer.WelcomeClient | src/lib/ircs/irc_server.rs:59-71 | sends ":iris-server 001 <nick> :Hi <realname or nick>, welcome to IRC\r\n" to the connection and nothing else |
| Server.IrcServer.HandleQuit | src/lib/ircs/irc_server.rs:72-88 | replies "QUIT :<params[0]>\r\n"; with no parameter it replies "<from_nick> has quit", or panics, writing nothing, when the sender is unset |
| Server.IrcServer.JoinAt | src/lib/ircs/irc_server.rs:115-116 | the nick is appended to channel i's members; every other channel's members and all names are unchanged |
| Server.IrcServer.PartAt | src/lib/ircs/irc_server.rs:142-143 | channel i loses the first copy of the nick and reports whether it had one; every other channel's members and all names are unchanged |
| Server.IrcServer.HandleJoin | src/lib/ircs/irc_server.rs:101-126 | no parameter: the 461 reply; a name without '#': the 403 reply; an existing channel: the nick is appended to that channel's members only, with no reply; a missing channel: nothing; channel names never change |
| Server.IrcServer.HandlePart | src/lib/ircs/irc_server.rs:128-155 | as JOIN, except that the first occurrence of the nick is removed, and the 403 reply is sent when the client was not a member |
| Server.IrcServer.HandlePrivmsg | src/lib/ircs/irc_server.rs:157-199 | with a route for the target (or "No target"), only the target's outbox gets `params[1]` with CR LF ensured; without a route, only the sender gets "Target client not found" with no CR LF; fewer than two parameters panic and write nothing |
| Server.IrcServer.HandlePing | src/lib/ircs/irc_server.rs:200-211 | replies "PONG :<params[0]>\r\n" to the sender; with no parameter it panics and writes nothing |
| Server.IrcServer.HandleUser | src/lib/ircs/irc_server.rs:213-244 | fewer than four parameters, or a last one not starting with ':', gives "ERR_NEEDMOREPARAMS\r\n" and leaves the client unchanged; otherwise the real name becomes the last parameter without its ':' and nothing is sent |
| Server.IrcServer.HandleNick | src/lib/ircs/irc_server.rs:246-274 | a missing or empty nick panics; an invalid nick gives "ERR_ERRONEUSNICKNAME\r\n" and a taken one "ERR_NICKCOLLISION\r\n", both leaving client and registry unchanged; otherwise the client takes the nick and a copy is appended to the clients, which only grow, so nicks stay valid and distinct |
| Connect.FirstCrlfFrom | src/lib/connect.rs:96-102 | the first index at or after k where CR LF starts, or None when there is none from k on |
| Connect.FirstCrlf | src/lib/connect.rs:96-102 | the smallest index where CR LF starts, or None when there is none |
| Connect.ReadFrame | src/lib/connect.rs:104-143 | the buffer stays within 512 bytes; a disconnection leaves it unchanged; MessageTooLong empties it and only happens when no CR LF was buffered |
| Connect.ReadChunk | src/lib/connect.rs:108-121 | a successful read delivers between 1 byte and the free space |
| Connect.InterruptedRetried | src/lib/connect.rs:116 | an interrupted read is retried and changes nothing but the socket |
| Connect.ReadOutcomes | src/lib/connect.rs:110-118 | a 0-byte read or an exhausted socket gives ConnectionClosed, any other error gives ConnectionLost, and a chunk is taken whole if it fits, otherwise up to the free space with the rest left in the socket |
| Connect.NoReadWhenBuffered | src/lib/connect.rs:107 | with a CR LF already buffered, `read_message` does not touch the socket and cannot report MessageTooLong |
| Connect.FrameLine | src/lib/connect.rs:126-140 | on a line (or invalid UTF-8) the buffer after the read is line, CR LF, then the new buffer; the line has no CR LF; the returned text's bytes are exactly the line; MessageInvalidUtf8 is returned exactly when the line does not decode, and the frame is consumed either way |
| Connect.FrameBound | src/lib/connect.rs:110-138 | the buffer never exceeds 512 bytes, and after any result that keeps the connection it holds at most 510 |
| Connect.ReadChunkProgress | src/lib/connect.rs:108-121 | a successful read strictly shrinks what the socket still offers, and no read grows it |
| Connect.FrameProgress | src/lib/connect.rs:104-143 | a call that keeps the connection either consumes socket input or, without reading, shrinks the buffer |
| Connect.ReadSentLine | src/lib/connect.rs:104-143 | round trip: a line of at most 510 bytes without CR LF, sent with its CR LF in one piece to an empty buffer, is read back exactly and leaves the buffer empty |
| Connect.SplitLineLost | src/lib/connect.rs:108-130 | a line whose first part arrives without CR LF is reported as MessageTooLong and the first part is discarded, however much room was left |
| Connect.ConnectionRead.FromReader | src/lib/connect.rs:87-94 | a new reader has a fresh 512-byte buffer holding nothing |
| Connect.ConnectionRead.BufferCrlf | src/lib/connect.rs:96-102 | returns the smallest i with i+1 < buflen, buffer[i] = CR and buffer[i+1] = LF, or None when there is none |
| Connect.ConnectionRead.ReadRetrying | src/lib/connect.rs:108-121 | the read loop ends exactly as `ReadChunk` says and leaves the socket it says |
| Connect.ConnectionRead.Append | src/lib/connect.rs:110-123 | the bytes read land after the buffered ones and `buflen` grows by their number |
| Connect.ConnectionRead.TakeFront | src/lib/connect.rs:132-138 | returns the bytes before the CR LF and moves everything after it to the front, shrinking `buflen` by end + 2 |
| Connect.ConnectionRead.ReadMessage | src/lib/connect.rs:104-143 | result, remaining buffer and remaining socket are exactly those of `ReadFrame`, whose properties are the lemmas above |
| ClientLoop.NewClient | src/client_loop.rs:19-24 | a session starts with no nickname, no real name and no channels |
| ClientLoop.Handle | src/client_loop.rs:50-117 | the reference for one command; channel names and the number of channels never change (its other properties are the lemmas below) |
| ClientLoop.TurnOn | src/client_loop.rs:29-120 | a read that carries no command (disconnection, oversized or non-UTF-8 line, blank or unknown line, parse panic) leaves registry, record and registration unchanged; one that carries a command is handled exactly as `Handle` says |
| ClientLoop.Replay | src/client_loop.rs:12-122 | a session is its commands handled in order from a fresh record; channel names never change |
| ClientLoop.HandleGated | src/client_loop.rs:50-117 | NICK once registered, USER once registered or before a nick, PRIVMSG, JOIN and PART before registration, and PONG change nothing and the loop goes on |
| ClientLoop.HandleStops | src/client_loop.rs:91-97 | QUIT always ends the session, by the QUIT reply exactly when it has a parameter or a sender; any other command ends it only by a panic, never as a disconnection |
| ClientLoop.HandleRegistration | src/client_loop.rs:60-72 | an unregistered session registers exactly on USER after a nickname with at least four parameters, the last starting with ':'; it then records that parameter without ':' as the real name, routes its nick to this connection and writes the welcome to it; a registered session stays registered with record and routes unchanged; routes change only on registration |
| ClientLoop.HandleNickChosen | src/client_loop.rs:51-58 | NICK before registration: a valid free nick becomes the session's and is in use afterwards; an invalid one gets ERR_ERRONEUSNICKNAME and a taken one ERR_NICKCOLLISION, the record unchanged |
| ClientLoop.HandleWrites | src/client_loop.rs:50-117 | a command writes only to its own connection and to connections already routed |
| ClientLoop.HandleKeeps | src/client_loop.rs:50-117 | a command never removes a line already written or a client already recorded |
| ClientLoop.TurnOnNext | src/client_loop.rs:30-48 | ConnectionClosed and ConnectionLost stop the loop as a disconnection; MessageTooLong, MessageInvalidUtf8 and a line that parses to nothing go on with registry, record and registration unchanged; a parse panic stops the loop with that panic |
| ClientLoop.Carried | src/client_loop.rs:30-48 | a read hands `Handle` at most one command, exactly the one the line parses to |
| ClientLoop.TurnOnEnds | src/client_loop.rs:30-120 | a QUIT ends the turn by quit or panic; a turn ends by the client's quit only on a QUIT; it ends as a disconnection only on ConnectionClosed or ConnectionLost |
| ClientLoop.Run | src/client_loop.rs:28-121 | the whole loop over the buffered bytes and the socket terminates for every finite socket and never changes the channel names |
| ClientLoop.RunAdvance | src/client_loop.rs:28-121 | a run is one turn and then, if the turn goes on, the run from the buffer, socket, registry, record and registration that turn left |
| ClientLoop.RunStops | src/client_loop.rs:28-121 | a session whose next turn stops ends with that turn's end and registry, having handled the command it carried |
| ClientLoop.RunGoesOn | src/client_loop.rs:28-121 | a session whose next turn goes on is that turn's command followed by the run from what the turn left |
| ClientLoop.QuitsJoined | src/client_loop.rs:91-97 | a non-QUIT command in front of a session keeps QUIT last and does not change whether the session ends with QUIT |
| ClientLoop.RunEnds | src/client_loop.rs:28-121 | a run ends as a disconnection only on ConnectionClosed or ConnectionLost; by the client's quit only when its last command is QUIT; a QUIT occurs only as the last command, and a final QUIT ends it by quit or panic |
| ClientLoop.RunReplays | src/client_loop.rs:28-121 | a run continuing a replayed session leaves the registry that the replay of the old commands followed by the run's commands gives |
| ClientLoop.ReplayRegistered | src/client_loop.rs:60-72 | a session that is registered has handled a USER command |
| ClientLoop.ReplayTurn | src/client_loop.rs:28-121 | a turn on a replayed session is the replay of one command more when the line carried one; it ends by the client's quit only on QUIT, a QUIT never lets it go on, and only ConnectionClosed or ConnectionLost end it as a disconnection |
| ClientLoop.ChooseNick | src/client_loop.rs:51-58 | NICK before registration changes registry, record and next move exactly as `Handle` says, keeping the registry and session invariants |
| ClientLoop.Register | src/client_loop.rs:60-72 | USER with a nick set changes registry, record and registration exactly as `Handle` says, and the loop goes on |
| ClientLoop.Pinged | src/client_loop.rs:73-78 | PING changes the registry and next move exactly as `Handle` says |
| ClientLoop.Forward | src/client_loop.rs:80-90 | PRIVMSG from a registered session changes the registry and next move exactly as `Handle` says |
| ClientLoop.Quitting | src/client_loop.rs:91-97 | QUIT changes the registry and next move exactly as `Handle` says |
| ClientLoop.Membership | src/client_loop.rs:98-113 | JOIN and PART from a registered session change the registry exactly as `Handle` says, and the loop goes on |
| ClientLoop.Dispatch | src/client_loop.rs:50-117 | one parsed command changes registry (clients, routes, outbox, channel members), record, registration and next move exactly as `Handle` says, keeping the registry and session invariants |
| ClientLoop.Step | src/client_loop.rs:29-120 | one turn: buffer and socket become those of `ReadFrame`, and registry, record, registration and next move become those of `TurnOn` on its result; a turn that goes on has consumed socket input or, without reading, shrunk the buffer |
| ClientLoop.HandleClient | src/client_loop.rs:12-122 | the loop ends exactly as `Run` of the buffered bytes and the socket: same end reason, same registry, and `msgs` are the commands the run handled; the registry is the `Replay` of those commands, with the session invariant; a QUIT can only be the last command, the session ends by the client's quit only when the last command is QUIT and a final QUIT ends it by quit or panic; it ends as a disconnection only on ConnectionClosed or ConnectionLost; a registered session has handled USER |
| ClientLoop.UserRealNameWithSpace | src/lib/ircs/irc_server.rs:229-238 | for any words, "USER u m x :First Second" parses to USER with exactly those five words as parameters, so the last parameter is "Second", which lacks the ':' USER needs, and the real name is refused |
| ClientLoop.PrivmsgForwardsSecondWord | src/lib/ircs/irc_server.rs:164-168 | for any spelling of PRIVMSG, any target word without ':' and any body of words w1 w2 ..., "PRIVMSG target :w1 w2 ..." parses with target `target` and parameters target, ":w1", w2, ..., then the whole body; so `params[1]` is ":w1" and ":w1\r\n" is what the target receives |

## Left out

- Socket I/O: `ConnectionManager`, `accept_new_connection` and the write-and-flush
  in `ConnectionWrite::write_message` are not modelled. Reads are a list of
  outcomes and writes are outbox appends. A write never fails, so the `unwrap`
  on a failed write is not modelled.
- `ConnectionRead::id` and all logging (`println!`, `dbg!`, timestamps) have
  no effect on state and are not modelled.
- Concurrency: tasks, `Arc<Mutex<..>>` and the accept loop `handle_client_loop`
  are not modelled. The mutex is taken once per command
  (`src/client_loop.rs` lines 53, 62, 74, 82, 92, 100 and 108), so other
  sessions may change the registry between two commands of one session.
  `HandleClient` is a choice of this model: it covers one session against a
  registry that no other session touches while it runs. Each single command,
  `Dispatch`, is described for any registry.
- `Channel::broadcast_message` and `send_privmsg_from_server` are never called
  and only write to the network, so they are not modelled.
- `src/lib/handlers.rs`, `src/concurrency.rs`, `src/main.rs`,
  `src/arguments.rs` and `src/user_input.rs` are outside this model: an unused
  alternative command path, process start-up, command-line parsing and a stdin
  thread.
- Base.IndexOf: `str::find` returns a byte offset. The model uses a
  character index. Both select the same text after ':', because ':' is one
  byte.
- ClientLoop.HandleClient: the Rust function returns nothing. The model
  returns how the session ended (`end`, which the Rust code only logs), and a
  ghost output `msgs`, the commands the session handled, that exists only for
  the contract.
