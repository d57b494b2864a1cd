/** The per-connection session record (src/lib/ircs/client.rs). */
module Clients {
  import opened Base

  /** `Client`: the nickname (empty until NICK succeeds), the real name (set by
      USER) and a list of channel names that no command ever fills. */
  datatype Client = Client(nick: string, realname: Option<string>, channels: seq<string>)
}
