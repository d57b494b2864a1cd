/** A chat channel and its member list (src/lib/ircs/channel.rs). */
module Channels {
  import opened Base
  import opened Clients

  /** `s` without its first occurrence of `x` (`Vec::remove` at the position
      found); `s` itself when `x` does not occur. */
  function RemoveFirst(s: seq<string>, x: string): (r: seq<string>)
    ensures x !in s ==> r == s
    ensures x in s ==> |r| == |s| - 1
  {
    if s == [] then []
    else if s[0] == x then
      assert s == [x] + s[1..];
      s[1..]
    else
      assert s == [s[0]] + s[1..];
      [s[0]] + RemoveFirst(s[1..], x)
  }

  /** One copy of `x` leaves the members and nothing else changes in count. */
  lemma {:induction false} RemoveFirstMultiset(s: seq<string>, x: string)
    ensures multiset(RemoveFirst(s, x)) == multiset(s) - multiset{x}
  {
    if s != [] {
      assert s == [s[0]] + s[1..];
      if s[0] != x {
        RemoveFirstMultiset(s[1..], x);
      }
    }
  }

  /** Exactly the first occurrence goes: what stood before it and what stood
      after it keep their order. */
  lemma {:induction false} RemoveFirstAt(s: seq<string>, x: string)
    requires x in s
    ensures var i := IndexOf(s, x).value;
      RemoveFirst(s, x) == s[..i] + s[i + 1..]
  {
    if s[0] != x {
      var t := s[1..];
      IndexOfTail(s, x);
      RemoveFirstAt(t, x);
      var j := IndexOf(t, x).value;
      SplitAround(s, j);
    }
  }

  /** Past a head that differs, the first occurrence is one further on. */
  lemma IndexOfTail(s: seq<string>, x: string)
    requires x in s && s[0] != x
    ensures x in s[1..] && IndexOf(s, x) == Some(IndexOf(s[1..], x).value + 1)
  {
    var k :| 0 <= k < |s| && s[k] == x;
    assert s[1..][k - 1] == x;
  }

  /** Cutting element `j + 1` out of `s` is keeping the head and cutting element
      `j` out of the tail. */
  lemma SplitAround(s: seq<string>, j: nat)
    requires j + 1 < |s|
    ensures s[..j + 1] + s[j + 2..] == [s[0]] + (s[1..][..j] + s[1..][j + 1..])
  {
    assert s[..j + 1] == [s[0]] + s[1..][..j];
    assert s[j + 2..] == s[1..][j + 1..];
  }

  /** `Channel`: a name and the nicknames of its members, in joining order,
      duplicates allowed. */
  class Channel {
    var name: string
    var clients: seq<string>

    /** The struct literal `Channel { name, clients }`. */
    constructor (name: string, clients: seq<string>)
      ensures this.name == name && this.clients == clients
    {
      this.name := name;
      this.clients := clients;
    }

    /** `Channel::join`: the client's nick goes at the end, even when it is
        already a member. */
    method Join(client: Client)
      modifies this
      ensures name == old(name)
      ensures clients == old(clients) + [client.nick]
    {
      clients := clients + [client.nick];
    }

    /** `Channel::part`: removes the first occurrence of the client's nick and
        reports whether there was one. */
    method Part(client: Client) returns (found: bool)
      modifies this
      ensures name == old(name)
      ensures found <==> client.nick in old(clients)
      ensures clients == RemoveFirst(old(clients), client.nick)
      ensures found ==> |clients| == |old(clients)| - 1
      ensures !found ==> clients == old(clients)
    {
      var i := 0;
      while i < |clients| && clients[i] != client.nick
        invariant 0 <= i <= |clients|
        invariant client.nick !in clients[..i]
      {
        i := i + 1;
      }
      if i < |clients| {
        assert clients[..i + 1] == clients[..i] + [clients[i]];
        assert IndexOf(clients, client.nick) == Some(i);
        RemoveFirstAt(clients, client.nick);
        clients := clients[..i] + clients[i + 1..];
        found := true;
      } else {
        assert clients[..i] == clients;
        found := false;
      }
    }
  }
}
