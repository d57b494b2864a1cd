/** The command tokenizer: one framed line of text becomes an `IrcMessage`
    (src/lib/ircs/irc_message.rs). */
module IrcMessages {
  import opened Base

  /** The eight commands the server recognises. */
  datatype IrcCommand = Nick | User | Ping | Pong | Quit | Privmsg | Join | Part

  /** A parsed line. `params` holds the whitespace-separated words after the
      keyword (and, for a PRIVMSG with a target and a body, the raw text after
      the first ':' as one extra element); `toNick` is the PRIVMSG target. */
  datatype IrcMessage = IrcMessage(
    command: IrcCommand,
    params: seq<string>,
    fromNick: Option<string>,
    toNick: Option<string>)

  // ---------------------------------------------------------------------------
  // Words: `str::split_whitespace`
  // ---------------------------------------------------------------------------

  /** Rust's `char::is_whitespace`: the Unicode White_Space property. */
  predicate IsWhitespace(c: char): (r: bool)
    ensures c == ' ' || c == '\t' || c == '\r' || c == '\n' ==> r
    ensures r ==> c != ':' && !('0' <= c <= '9') && !('A' <= c <= 'Z') && !('a' <= c <= 'z')
  {
    || ('\t' <= c <= '\r')
    || c == ' '
    || c == '\U{85}'
    || c == '\U{A0}'
    || c == '\U{1680}'
    || ('\U{2000}' <= c <= '\U{200A}')
    || c == '\U{2028}'
    || c == '\U{2029}'
    || c == '\U{202F}'
    || c == '\U{205F}'
    || c == '\U{3000}'
  }

  /** What `split_whitespace` can yield: a non-empty run without whitespace. */
  predicate IsWord(w: string) {
    |w| > 0 && forall i | 0 <= i < |w| :: !IsWhitespace(w[i])
  }

  /** Length of the maximal run of non-whitespace characters at the front of `s`. */
  function TokenLen(s: string): (n: nat)
    ensures n <= |s|
    ensures forall i | 0 <= i < n :: !IsWhitespace(s[i])
    ensures n < |s| ==> IsWhitespace(s[n])
  {
    if s == [] || IsWhitespace(s[0]) then 0 else 1 + TokenLen(s[1..])
  }

  /** `s.split_whitespace().collect()`: the maximal runs of non-whitespace
      characters of `s`, in order. */
  function Words(s: string): (ws: seq<string>)
    ensures forall i | 0 <= i < |ws| :: IsWord(ws[i])
    decreases |s|
  {
    if s == [] then []
    else if IsWhitespace(s[0]) then Words(s[1..])
    else
      var n := TokenLen(s);
      [s[..n]] + Words(s[n..])
  }

  /** The words joined by single spaces: the independent description of a line
      that `Words` must take apart again. */
  function Unwords(ws: seq<string>): string {
    if ws == [] then ""
    else if |ws| == 1 then ws[0]
    else ws[0] + " " + Unwords(ws[1..])
  }

  /** A line has no words exactly when every character in it is whitespace. */
  lemma {:induction false} WordsEmptyIffBlank(s: string)
    ensures Words(s) == [] <==> forall i | 0 <= i < |s| :: IsWhitespace(s[i])
    decreases |s|
  {
    if s != [] && IsWhitespace(s[0]) {
      WordsEmptyIffBlank(s[1..]);
      assert forall i | 1 <= i < |s| :: s[i] == s[1..][i - 1];
    }
  }

  /** A word followed by nothing or by whitespace is split off as the first word. */
  lemma WordsOfWordThen(w: string, t: string)
    requires IsWord(w)
    requires t == [] || IsWhitespace(t[0])
    ensures Words(w + t) == [w] + Words(t)
  {
    var s := w + t;
    TokenLenOfWordThen(w, t);
    assert s[..|w|] == w && s[|w|..] == t;
  }

  lemma {:induction false} TokenLenOfWordThen(w: string, t: string)
    requires forall i | 0 <= i < |w| :: !IsWhitespace(w[i])
    requires t == [] || IsWhitespace(t[0])
    ensures TokenLen(w + t) == |w|
    decreases |w|
  {
    if w != [] {
      assert (w + t)[1..] == w[1..] + t;
      TokenLenOfWordThen(w[1..], t);
    }
  }

  /** Round trip: splitting words joined by spaces gives the words back. */
  lemma {:induction false} WordsUnwords(ws: seq<string>)
    requires forall i | 0 <= i < |ws| :: IsWord(ws[i])
    ensures Words(Unwords(ws)) == ws
  {
    if |ws| == 1 {
      WordsOfWordThen(ws[0], "");
      assert ws[0] + "" == ws[0];
    } else if |ws| > 1 {
      var rest := Unwords(ws[1..]);
      WordsUnwords(ws[1..]);
      assert Unwords(ws) == ws[0] + (" " + rest);
      WordsOfWordThen(ws[0], " " + rest);
      assert (" " + rest)[1..] == rest;
      assert ws == [ws[0]] + ws[1..];
    }
  }

  // ---------------------------------------------------------------------------
  // Keywords: `IrcCommand::from_str`
  // ---------------------------------------------------------------------------

  /** `char::to_ascii_uppercase`. */
  function AsciiUpper(c: char): char {
    if 'a' <= c <= 'z' then (c as int - 32) as char else c
  }

  /** `str::to_ascii_uppercase`. */
  function ToAsciiUpper(s: string): (u: string)
    ensures |u| == |s|
    ensures forall i | 0 <= i < |s| :: u[i] == AsciiUpper(s[i])
  {
    if s == [] then [] else [AsciiUpper(s[0])] + ToAsciiUpper(s[1..])
  }

  /** The upper-case spelling of each command. */
  function Keyword(c: IrcCommand): string {
    match c
    case Nick => "NICK"
    case User => "USER"
    case Ping => "PING"
    case Pong => "PONG"
    case Quit => "QUIT"
    case Privmsg => "PRIVMSG"
    case Join => "JOIN"
    case Part => "PART"
  }

  /** `IrcCommand::from_str`: the command whose keyword the token spells,
      ignoring ASCII case. */
  function FromStr(s: string): (r: Option<IrcCommand>)
    ensures r.Some? ==> ToAsciiUpper(s) == Keyword(r.value)
    ensures |s| != 4 && |s| != 7 ==> r.None?
  {
    var u := ToAsciiUpper(s);
    if u == "NICK" then Some(Nick)
    else if u == "USER" then Some(User)
    else if u == "PING" then Some(Ping)
    else if u == "PONG" then Some(Pong)
    else if u == "QUIT" then Some(Quit)
    else if u == "PRIVMSG" then Some(Privmsg)
    else if u == "JOIN" then Some(Join)
    else if u == "PART" then Some(Part)
    else None
  }

  /** A token selects a command exactly when its upper-case form is that
      command's keyword; any other token selects nothing. */
  lemma FromStrIffKeyword(s: string, c: IrcCommand)
    ensures FromStr(s) == Some(c) <==> ToAsciiUpper(s) == Keyword(c)
  {
  }

  /** The match ignores case: tokens equal up to ASCII case select the same
      command, e.g. "nick", "Nick" and "NICK". */
  lemma FromStrIgnoresCase(s: string, t: string)
    requires |s| == |t|
    requires forall i | 0 <= i < |s| :: AsciiUpper(s[i]) == AsciiUpper(t[i])
    ensures FromStr(s) == FromStr(t)
  {
    assert ToAsciiUpper(s) == ToAsciiUpper(t);
  }

  // ---------------------------------------------------------------------------
  // IrcMessage::parse and IrcMessage::set_from_nick
  // ---------------------------------------------------------------------------

  /** `IrcMessage::parse`. `Ok(None)` for a blank line or an unknown keyword;
      a PRIVMSG with a target and at least one more word but no ':' anywhere in
      the line panics with "Message part not found". */
  function Parse(line: string): (r: Fallible<Option<IrcMessage>>)
    ensures r.Ok? && r.value.Some? ==> r.value.value.fromNick.None?
    ensures r.Ok? && r.value.Some? ==> |Words(line)| >= 1 && Words(line)[1..] <= r.value.value.params
  {
    var parts := Words(line);
    if parts == [] then Ok(None)
    else match FromStr(parts[0])
      case None => Ok(None)
      case Some(command) =>
        var params := parts[1..];
        if command == Privmsg && |params| >= 2 then
          match IndexOf(line, ':')
          case None => Panic("Message part not found")
          case Some(i) => Ok(Some(IrcMessage(command, params + [line[i + 1..]], None, Some(parts[1]))))
        else
          Ok(Some(IrcMessage(command, params, None, None)))
  }

  /** A blank or all-whitespace line is not a message. */
  lemma ParseBlank(line: string)
    requires forall i | 0 <= i < |line| :: IsWhitespace(line[i])
    ensures Parse(line) == Ok(None)
  {
    WordsEmptyIffBlank(line);
  }

  /** A line whose first word is not one of the eight keywords is not a message. */
  lemma ParseUnknown(line: string)
    requires Words(line) != []
    requires forall c: IrcCommand :: ToAsciiUpper(Words(line)[0]) != Keyword(c)
    ensures Parse(line) == Ok(None)
  {
    var w := Words(line)[0];
    if FromStr(w).Some? {
      FromStrIffKeyword(w, FromStr(w).value);
    }
  }

  /** A line of words joined by spaces, led by a keyword other than PRIVMSG,
      parses to that command with the remaining words as parameters. */
  lemma ParseWords(ws: seq<string>, c: IrcCommand)
    requires |ws| >= 1 && forall i | 0 <= i < |ws| :: IsWord(ws[i])
    requires ToAsciiUpper(ws[0]) == Keyword(c) && c != Privmsg
    ensures Parse(Unwords(ws)) == Ok(Some(IrcMessage(c, ws[1..], None, None)))
  {
    WordsUnwords(ws);
    FromStrIffKeyword(ws[0], c);
  }

  /** Every command other than PRIVMSG, and PRIVMSG with fewer than two words
      after the keyword, gets exactly the words after the keyword and no target. */
  lemma ParsePlain(line: string, c: IrcCommand)
    requires Words(line) != [] && FromStr(Words(line)[0]) == Some(c)
    requires c != Privmsg || |Words(line)| < 3
    ensures Parse(line) == Ok(Some(IrcMessage(c, Words(line)[1..], None, None)))
  {
  }

  /** PRIVMSG with a target and at least one more word: the target is the first
      word after the keyword, and the parameters are all the words after the
      keyword followed by the raw text after the first ':' of the line (one more
      element than there are words). Without a ':' the parser panics. */
  lemma ParsePrivmsg(line: string)
    requires |Words(line)| >= 3 && FromStr(Words(line)[0]) == Some(Privmsg)
    ensures ':' !in line ==> Parse(line).Panic?
    ensures ':' in line ==>
      var i := IndexOf(line, ':').value;
      && Parse(line).Ok? && Parse(line).value.Some?
      && var m := Parse(line).value.value;
      && m.toNick == Some(Words(line)[1])
      && m.params == Words(line)[1..] + [line[i + 1..]]
      && |m.params| == |Words(line)|
      && ':' !in line[..i]
  {
    var f := IndexOf(line, ':');
    if f.Some? {
      assert ':' in line;
    }
  }

  /** `IrcMessage::set_from_nick`: the sender is recorded, nothing else moves. */
  function WithFromNick(m: IrcMessage, nick: string): (r: IrcMessage)
    ensures r.fromNick == Some(nick)
    ensures r.command == m.command && r.params == m.params && r.toNick == m.toNick
  {
    m.(fromNick := Some(nick))
  }
}
