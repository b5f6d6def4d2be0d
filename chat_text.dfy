/**
 * The text shaping of ChatBot: escaping of in-game broadcasts and their
 * split into console "say" lines, truncation of chat-room messages, the
 * pattern that recognises a message addressed to the bot, the pattern of
 * the server's player-UUID log line, and the fixed texts of the event
 * mirrors.
 */
module ChatText {
  import opened Wrappers
  import opened Text

  const TOO_LONG := "... That's too long. I'm not gonna bother"
  const STARTED := "And we're online. It's hard to overstate my satisfaction."
  const GREETING := "Oh look, it's humans, my favourite people to talk to."
  const LEAVING := "And believe me I am still alive."
  const UUID_PREFIX := "UUID of player "

  /** The characters the game treats specially in a broadcast: '@' and the section sign. */
  predicate IsSpecial(c: char) {
    c == '@' || c == '\U{A7}'
  }

  /**
   * The replacement of (?<!\\)[@§] by a backslash and the character itself.
   * The look-behind reads the original text, so afterBackslash says whether
   * the character before s in the original text is a backslash.
   */
  function Esc(s: string, afterBackslash: bool): string
    decreases |s|
  {
    if s == [] then []
    else
      var c := s[0];
      (if IsSpecial(c) && !afterBackslash then ['\\', c] else [c]) + Esc(s[1..], c == '\\')
  }

  function Escape(s: string): string {
    Esc(s, false)
  }

  /** Every special character of r is preceded by a backslash, the one before r counting as b. */
  predicate SafeAfter(r: string, b: bool) {
    (|r| > 0 && IsSpecial(r[0]) ==> b)
    && forall i :: 1 <= i < |r| && IsSpecial(r[i]) ==> r[i - 1] == '\\'
  }

  predicate Safe(r: string) {
    SafeAfter(r, false)
  }

  /** Safety of a concatenation: the tail is safe after the head's last character. */
  lemma SafeAppend(head: string, tail: string, b: bool)
    requires |head| > 0 && SafeAfter(head, b) && SafeAfter(tail, head[|head| - 1] == '\\')
    ensures SafeAfter(head + tail, b)
  {
    var r := head + tail;
    forall i | 1 <= i < |r| && IsSpecial(r[i])
      ensures r[i - 1] == '\\'
    {
      if i >= |head| {
        var j := i - |head|;
        assert r[i] == tail[j];
        if j > 0 {
          assert r[i - 1] == tail[j - 1];
        }
      }
    }
  }

  lemma {:induction false} EscSafe(s: string, b: bool)
    ensures SafeAfter(Esc(s, b), b)
    decreases |s|
  {
    if s != [] {
      var c := s[0];
      var head := if IsSpecial(c) && !b then ['\\', c] else [c];
      var tail := Esc(s[1..], c == '\\');
      EscSafe(s[1..], c == '\\');
      assert head[|head| - 1] == c;
      SafeAppend(head, tail, b);
      assert head + tail == Esc(s, b);
    }
  }

  /** After escaping, every '@' and section sign is preceded by a backslash. */
  lemma EscapeSafe(s: string)
    ensures Safe(Escape(s))
  {
    EscSafe(s, false);
  }

  lemma {:induction false} EscIdentity(s: string, b: bool)
    requires SafeAfter(s, b)
    ensures Esc(s, b) == s
    decreases |s|
  {
    if s != [] {
      var t := s[1..];
      assert SafeAfter(t, s[0] == '\\') by {
        if |t| > 0 && IsSpecial(t[0]) {
          assert s[1] == t[0];
        }
        forall i | 1 <= i < |t| && IsSpecial(t[i])
          ensures t[i - 1] == '\\'
        {
          assert s[i + 1] == t[i];
        }
      }
      EscIdentity(t, s[0] == '\\');
      assert IsSpecial(s[0]) ==> b;
      assert s == [s[0]] + t;
    }
  }

  /** Text already escaped, and text without special characters, is left as it is. */
  lemma EscapeKeepsSafeText(s: string)
    requires Safe(s)
    ensures Escape(s) == s
  {
    EscIdentity(s, false);
  }

  /** Escaping twice is escaping once. */
  lemma EscapeIdempotent(s: string)
    ensures Escape(Escape(s)) == Escape(s)
  {
    EscapeSafe(s);
    EscapeKeepsSafeText(Escape(s));
  }

  /** One "say" per non-empty piece, in order. */
  function SayLines(pieces: seq<string>): seq<string> {
    if pieces == [] then []
    else
      var last := pieces[|pieces| - 1];
      SayLines(pieces[..|pieces| - 1]) + (if last == "" then [] else ["say " + last])
  }

  /** Each "say" carries one non-empty piece, and there are no more of them than pieces. */
  lemma {:induction false} SayLinesShape(pieces: seq<string>)
    ensures var r := SayLines(pieces);
      |r| <= |pieces| && forall i :: 0 <= i < |r| ==> "say " <= r[i] && |r[i]| > 4 && r[i][4..] in pieces
  {
    if pieces != [] {
      var init := pieces[..|pieces| - 1];
      SayLinesShape(init);
      assert forall x :: x in init ==> x in pieces;
    }
  }

  /** The console lines gameMessage sends: one "say" per non-empty line of the escaped text. */
  function SayCommands(message: string): seq<string> {
    SayLines(Split(Escape(message), '\n'))
  }

  /** Every line gameMessage sends is a "say" of one non-empty line of the escaped text. */
  lemma SayCommandsShape(message: string)
    ensures forall x :: x in SayCommands(message) ==>
      "say " <= x && |x| > 4 && '\n' !in x[4..] && x[4..] in Split(Escape(message), '\n')
  {
    var pieces := Split(Escape(message), '\n');
    SayLinesShape(pieces);
    forall x | x in SayCommands(message)
      ensures "say " <= x && |x| > 4 && '\n' !in x[4..] && x[4..] in pieces
    {
      var i :| 0 <= i < |SayLines(pieces)| && SayLines(pieces)[i] == x;
      var k :| 0 <= k < |pieces| && pieces[k] == x[4..];
    }
  }

  /** A one-line broadcast without special characters is sent as a single "say". */
  lemma SayCommandsOneLine(message: string)
    requires message != "" && '\n' !in message
    requires forall i :: 0 <= i < |message| ==> !IsSpecial(message[i])
    ensures SayCommands(message) == ["say " + message]
  {
    EscapeKeepsSafeText(message);
    assert Split(Escape(message), '\n') == [message];
    assert [message][..0] == [];
    assert SayLines([message]) == SayLines([]) + ["say " + message];
  }

  /**
   * mucMessage: text longer than maxLen keeps its first maxLen characters
   * and gets the notice. A negative maxLen makes every message too long and
   * substring(0, maxLen) throws.
   */
  function Truncate(message: string, maxLen: int): (r: Result<string, Exception>)
    ensures maxLen < 0 <==> r.Err?
    ensures r.Err? ==> r.error.className == "java.lang.StringIndexOutOfBoundsException"
    ensures 0 <= maxLen && |message| <= maxLen ==> r == Ok(message)
    ensures 0 <= maxLen < |message| ==>
      r.Ok? && |r.value| == maxLen + |TOO_LONG| && r.value[..maxLen] == message[..maxLen] && r.value[maxLen..] == TOO_LONG
  {
    if |message| > maxLen then
      if maxLen < 0 then Err(Exception("java.lang.StringIndexOutOfBoundsException", None))
      else Ok(message[..maxLen] + TOO_LONG)
    else Ok(message)
  }

  /** A sent chat-room message is never longer than maxLen plus the notice, and begins like the original. */
  lemma TruncateBound(message: string, maxLen: nat)
    ensures Truncate(message, maxLen).Ok?
    ensures |Truncate(message, maxLen).value| <= maxLen + |TOO_LONG|
    ensures var n := if |message| < maxLen then |message| else maxLen;
      Truncate(message, maxLen).value[..n] == message[..n]
  {
  }

  predicate IsSeparator(c: char) {
    c == ',' || c == ':' || c == ' '
  }

  /**
   * The whole-message match of nick(?:[,: ] ?)?(.+), case-insensitive, and
   * its group 1. The optional separator is greedy, so it is taken whenever
   * the remaining text is still non-empty.
   */
  function CommandGroup(nick: string, message: string): (r: Option<string>) {
    if |message| <= |nick| || !EqualsIgnoreCase(message[..|nick|], nick) then None
    else
      var rest := message[|nick|..];
      if !NoLineTerminator(rest) then None
      else if |rest| > 2 && IsSeparator(rest[0]) && rest[1] == ' ' then Some(rest[2..])
      else if |rest| > 1 && IsSeparator(rest[0]) then Some(rest[1..])
      else Some(rest)
  }

  /** What the pattern captures is a non-empty one-line tail of a message that starts with the nick. */
  lemma CommandGroupSound(nick: string, message: string)
    ensures CommandGroup(nick, message).Some? ==>
      var g := CommandGroup(nick, message).value;
      |nick| < |message| && EqualsIgnoreCase(message[..|nick|], nick)
      && g != "" && NoLineTerminator(g)
      && message[|message| - |g|..] == g
      && |message| - |g| - |nick| <= 2
  {
  }

  /** "nick, command", "nick: command" and "nick command" give the command back. */
  lemma CommandGroupAddressed(nick: string, sep: char, command: string)
    requires IsSeparator(sep) && command != "" && NoLineTerminator(command)
    ensures CommandGroup(nick, nick + [sep, ' '] + command) == Some(command)
    ensures command[0] != ' ' ==> CommandGroup(nick, nick + [sep] + command) == Some(command)
  {
    var m1 := nick + [sep, ' '] + command;
    assert m1[..|nick|] == nick;
    assert m1[|nick|..] == [sep, ' '] + command;
    var m2 := nick + [sep] + command;
    assert m2[..|nick|] == nick;
    assert m2[|nick|..] == [sep] + command;
  }

  /**
   * The whole-line match of "UUID of player ([^ ]+) is (.+)": the player
   * name runs to the first space, and the UUID is a non-empty single line.
   */
  function UuidMatch(line: string): (r: Option<(string, string)>) {
    if !(UUID_PREFIX <= line) then None
    else
      var rest := line[|UUID_PREFIX|..];
      var k := IndexOf(rest, ' ');
      if k >= 1 && k + 4 < |rest| && rest[k..k + 4] == " is " && NoLineTerminator(rest[k + 4..]) then
        Some((rest[..k], rest[k + 4..]))
      else None
  }

  lemma UuidMatchSound(line: string)
    ensures UuidMatch(line).Some? ==>
      var m := UuidMatch(line).value;
      line == UUID_PREFIX + m.0 + " is " + m.1
      && m.0 != "" && ' ' !in m.0 && m.1 != "" && NoLineTerminator(m.1)
  {
    if UuidMatch(line).Some? {
      var n := |UUID_PREFIX|;
      var rest := line[n..];
      var k := IndexOf(rest, ' ');
      var player, uuid, sep := rest[..k], rest[k + 4..], rest[k..k + 4];
      assert UuidMatch(line).value == (player, uuid);
      assert sep == " is ";
      assert rest == player + sep + uuid;
      assert line == line[..n] + rest;
      AppendAssoc(UUID_PREFIX, player + sep, uuid);
      AppendAssoc(UUID_PREFIX, player, sep);
    }
  }

  lemma UuidMatchComplete(player: string, uuid: string)
    requires player != "" && ' ' !in player && uuid != "" && NoLineTerminator(uuid)
    ensures UuidMatch(UUID_PREFIX + player + " is " + uuid) == Some((player, uuid))
  {
    var n := |player|;
    var rest := player + " is " + uuid;
    AppendAssoc(UUID_PREFIX, player, " is ");
    AppendAssoc(UUID_PREFIX, player + " is ", uuid);
    var line := UUID_PREFIX + rest;
    assert line[|UUID_PREFIX|..] == rest;
    assert rest[..n] == player && rest[n] == ' ';
    assert IndexOf(rest, ' ') == n;
    assert rest[n..n + 4] == " is ";
    assert rest[n + 4..] == uuid;
  }

  /** "<name> message", the mirrored form of a chat line. */
  function MirrorText(name: string, message: string): string {
    "<" + name + "> " + message
  }

  /** The join or left notice; a linked player is shown with the chat nickname beside the game name. */
  function JoinLeftText(username: string, nickname: Option<string>, joined: bool): (r: string)
    ensures nickname.None? ==> username <= r
    ensures nickname.Some? ==> username + " (" + nickname.value + ")" <= r
  {
    var who := if nickname.None? then username else username + " (" + nickname.value + ")";
    who + (if joined then " joined. How lucky." else " left. What a relief.")
  }

  function AchievementText(name: string, achievement: string): string {
    name + " just achieved [" + achievement + "]. Should I get the cake ?"
  }

  function DeathText(username: string, death: string): string {
    username + " " + death + ". That's hilarious."
  }
}
