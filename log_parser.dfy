/**
 * The server-log pipeline of the bot: a queue of raw console lines, and a
 * dispatcher that takes one line at a time, recognises its shape and tells
 * every registered listener about it, while an optional capture buffer
 * collects the plain log lines.
 *
 * The regular expressions of the source are written out as hand matchers.
 * Every pattern starts with the log prefix (a bracketed group, a space, and a bracketed group ending in "/INFO", then ": "), whose two greedy
 * groups are searched in the engine's backtracking order: the first group
 * tries its longest span first, and for each of its spans the second group
 * does the same; the first split whose remainder matches the shape wins.
 */
module LogParsing {
  import opened Wrappers
  import opened Text

  const EARNED := "has just earned the achievement ["
  const ACHIEVED := " " + EARNED
  const STOPPING := "Stopping the server"
  const DEATH_WORDS := ["was", "walked", "drowned", "blew", "hit", "fell", "went", "burned", "got",
                        "tried", "died", "starved", "suffocated", "withered"]

  /* ---- the shapes after the prefix ---- */

  /**
   * The log prefix ends at b + 8: "[" at 0, "] [" at a, "/INFO]: " at b,
   * neither group spanning a line terminator.
   */
  predicate PrefixAt(line: string, a: int, b: int) {
    1 <= a && a + 3 <= b && b + 8 <= |line| && line[0] == '['
    && line[a..a + 3] == "] [" && line[b..b + 8] == "/INFO]: "
    && NoLineTerminator(line[1..a]) && NoLineTerminator(line[a + 3..b])
  }

  /** The patterns of the log lines, in the order the dispatcher tries them. */
  datatype Shape = MessageShape | JoinShape | AchievementShape | DeathShape | ExitShape | AnyShape

  /** <(.+)> (.+) with the name ending at k. */
  predicate MessageAt(t: string, k: int) {
    2 <= k && k + 2 < |t| && t[0] == '<' && t[k..k + 2] == "> "
    && NoLineTerminator(t[1..k]) && NoLineTerminator(t[k + 2..])
  }

  /** The greedy name group: the split points are tried from the far end. */
  function MessageSearch(t: string, k: int): (r: Option<(string, string)>)
    decreases k
  {
    if k < 2 then None
    else if MessageAt(t, k) then Some((t[1..k], t[k + 2..]))
    else MessageSearch(t, k - 1)
  }

  function MessageTail(t: string): Option<(string, string)> {
    MessageSearch(t, |t|)
  }

  /** What the message pattern finds is the longest name that leaves a valid body. */
  lemma {:induction false} MessageSearchFound(t: string, k: int)
    ensures MessageSearch(t, k).Some? ==>
      exists j :: 0 <= j <= k && MessageAt(t, j)
        && MessageSearch(t, k) == Some((t[1..j], t[j + 2..]))
        && forall i :: j < i <= k ==> !MessageAt(t, i)
    decreases k
  {
    if k >= 2 && !MessageAt(t, k) {
      MessageSearchFound(t, k - 1);
    }
  }

  /** Any valid split makes the message pattern match. */
  lemma {:induction false} MessageSearchComplete(t: string, k: int, j: int)
    requires 0 <= j <= k && MessageAt(t, j)
    ensures MessageSearch(t, k).Some?
    decreases k
  {
    if j < k && !MessageAt(t, k) {
      MessageSearchComplete(t, k - 1, j);
    }
  }

  /**
   * "<name> body" is a chat message, and the name the pattern reports is at
   * least as long as name: a "> " inside the text is taken as late as possible.
   */
  lemma MessageTailLongest(t: string, name: string, body: string)
    requires name != "" && body != "" && NoLineTerminator(name) && NoLineTerminator(body)
    requires t == "<" + name + "> " + body
    ensures MessageTail(t).Some? && |MessageTail(t).value.0| >= |name|
  {
    var j := |name| + 1;
    assert t[1..j] == name && t[j..j + 2] == "> " && t[j + 2..] == body;
    assert MessageAt(t, j);
    MessageSearchComplete(t, |t|, j);
    MessageSearchFound(t, |t|);
  }

  /** For the player-name shapes: the name group [^ ]+ runs up to the first space. */
  lemma FirstSpace(t: string, n: string, rest: string)
    requires ' ' !in n && t == n + " " + rest
    ensures IndexOf(t, ' ') == |n| && t[..|n|] == n && t[|n| + 1..] == rest
  {
    assert t[|n|] == ' ';
    assert t[..|n|] == n;
    var k := IndexOf(t, ' ');
  }

  const THE_GAME := " the game"

  /** ([^ ]+) (joined|left) the game */
  function JoinTail(t: string): Option<(string, string)> {
    var k := IndexOf(t, ' ');
    if k < 1 then None
    else if t[k + 1..] == "joined" + THE_GAME then Some((t[..k], "joined"))
    else if t[k + 1..] == "left" + THE_GAME then Some((t[..k], "left"))
    else None
  }

  lemma JoinTailSound(t: string)
    ensures JoinTail(t).Some? ==> var g := JoinTail(t).value;
      g.0 != "" && ' ' !in g.0 && (g.1 == "joined" || g.1 == "left") && t == g.0 + " " + (g.1 + THE_GAME)
  {
    if JoinTail(t).Some? {
      var k := IndexOf(t, ' ');
      assert t == t[..k] + " " + t[k + 1..];
    }
  }

  lemma JoinTailComplete(t: string, n: string, verb: string)
    requires n != "" && ' ' !in n && (verb == "joined" || verb == "left") && t == n + " " + (verb + THE_GAME)
    ensures JoinTail(t) == Some((n, verb))
  {
    FirstSpace(t, n, verb + THE_GAME);
    assert |"left" + THE_GAME| != |"joined" + THE_GAME|;
  }

  /** The join pattern accepts exactly "name joined the game" and "name left the game", with a name free of spaces. */
  lemma JoinTailExact(t: string, n: string, verb: string)
    ensures JoinTail(t) == Some((n, verb)) <==>
      n != "" && ' ' !in n && (verb == "joined" || verb == "left") && t == n + " " + (verb + THE_GAME)
  {
    JoinTailSound(t);
    if n != "" && ' ' !in n && (verb == "joined" || verb == "left") && t == n + " " + (verb + THE_GAME) {
      JoinTailComplete(t, n, verb);
    }
  }

  /** ([^ ]+) has just earned the achievement \[(.+)\] */
  function AchievementTail(t: string): Option<(string, string)> {
    var k := IndexOf(t, ' ');
    if k < 1 then None
    else
      var rest := t[k..];
      var n := |ACHIEVED|;
      if |rest| > n + 1 && rest[..n] == ACHIEVED && rest[|rest| - 1] == ']' && NoLineTerminator(rest[n..|rest| - 1]) then
        Some((t[..k], rest[n..|rest| - 1]))
      else None
  }

  lemma AchievementTailSound(t: string)
    ensures AchievementTail(t).Some? ==> var g := AchievementTail(t).value;
      g.0 != "" && ' ' !in g.0 && g.1 != "" && NoLineTerminator(g.1) && t == g.0 + (ACHIEVED + g.1 + "]")
  {
    if AchievementTail(t).Some? {
      var n := |ACHIEVED|;
      var k := IndexOf(t, ' ');
      var rest := t[k..];
      assert rest == rest[..n] + rest[n..|rest| - 1] + [rest[|rest| - 1]];
      assert t == t[..k] + rest;
    }
  }

  lemma AchievementTailComplete(t: string, name: string, title: string)
    requires name != "" && ' ' !in name && title != "" && NoLineTerminator(title)
    requires t == name + (ACHIEVED + title + "]")
    ensures AchievementTail(t) == Some((name, title))
  {
    var n := |ACHIEVED|;
    var rest := ACHIEVED + title + "]";
    var words := EARNED + title + "]";
    assert rest == " " + words;
    FirstSpace(t, name, words);
    assert t[|name|..] == rest;
    assert rest[..n] == ACHIEVED;
    assert rest[n..|rest| - 1] == title;
  }

  /** The achievement pattern accepts exactly "name has just earned the achievement [title]". */
  lemma AchievementTailExact(t: string, name: string, title: string)
    ensures AchievementTail(t) == Some((name, title)) <==>
      name != "" && ' ' !in name && title != "" && NoLineTerminator(title) && t == name + (ACHIEVED + title + "]")
  {
    AchievementTailSound(t);
    if name != "" && ' ' !in name && title != "" && NoLineTerminator(title) && t == name + (ACHIEVED + title + "]") {
      AchievementTailComplete(t, name, title);
    }
  }

  /** The body of the death pattern: one of the verbs followed by at least one more character. */
  predicate DeathCause(g: string) {
    NoLineTerminator(g) && exists i :: 0 <= i < |DEATH_WORDS| && DEATH_WORDS[i] <= g && |g| > |DEATH_WORDS[i]|
  }

  /** ([^ ]+) ((was|walked|...|withered).+) */
  function DeathTail(t: string): Option<(string, string)> {
    var k := IndexOf(t, ' ');
    if k < 1 || !DeathCause(t[k + 1..]) then None else Some((t[..k], t[k + 1..]))
  }

  lemma DeathTailExact(t: string, name: string, cause: string)
    ensures DeathTail(t) == Some((name, cause)) <==>
      name != "" && ' ' !in name && DeathCause(cause) && t == name + " " + cause
  {
    if DeathTail(t) == Some((name, cause)) {
      var k := IndexOf(t, ' ');
      assert t == t[..k] + " " + t[k + 1..];
    }
    if name != "" && ' ' !in name && DeathCause(cause) && t == name + " " + cause {
      FirstSpace(t, name, cause);
    }
  }

  /** The groups of a shape on the text after the prefix; the exit and plain shapes use the first slot. */
  function TailMatch(shape: Shape, t: string): Option<(string, string)> {
    match shape
    case MessageShape => MessageTail(t)
    case JoinShape => JoinTail(t)
    case AchievementShape => AchievementTail(t)
    case DeathShape => DeathTail(t)
    case ExitShape => if t == STOPPING then Some(("", "")) else None
    case AnyShape => if NoLineTerminator(t) then Some((t, "")) else None
  }

  /* ---- the prefix and the backtracking search ---- */

  /**
   * The engine's order for a greedy group: the candidate ends are tried
   * from b down to 0, and the first that yields groups wins.
   */
  function SearchDown(f: int -> Option<(string, string)>, b: int): Option<(string, string)>
    decreases b
  {
    if b < 0 then None else if f(b).Some? then f(b) else SearchDown(f, b - 1)
  }

  /** What the search finds is the groups of some candidate. */
  lemma {:induction false} SearchDownFound(f: int -> Option<(string, string)>, b: int)
    ensures SearchDown(f, b).Some? ==> exists j :: 0 <= j <= b && f(j).Some? && SearchDown(f, b) == f(j)
    decreases b
  {
    if b >= 0 && f(b).None? {
      SearchDownFound(f, b - 1);
    }
  }

  /** No candidate that yields groups is missed by the search. */
  lemma {:induction false} SearchDownComplete(f: int -> Option<(string, string)>, b: int, j: int)
    requires 0 <= j <= b && f(j).Some?
    ensures SearchDown(f, b).Some?
    decreases b
  {
    if j < b && f(b).None? {
      SearchDownComplete(f, b - 1, j);
    }
  }

  /** The groups of the shape when the prefix ends at b + 8 with its first group ending at a. */
  function SplitMatch(line: string, shape: Shape, a: int, b: int): Option<(string, string)> {
    if PrefixAt(line, a, b) then TailMatch(shape, line[b + 8..]) else None
  }

  /** The second group of the prefix, tried from b down for a first group ending at a. */
  function SearchSecond(line: string, shape: Shape, a: int, b: int): Option<(string, string)> {
    SearchDown(j => SplitMatch(line, shape, a, j), b)
  }

  /** The first group of the prefix, tried from a down. */
  function SearchFirst(line: string, shape: Shape, a: int): Option<(string, string)> {
    SearchDown(i => SearchSecond(line, shape, i, |line|), a)
  }

  /** Matcher.matches of the prefix followed by the shape, with the shape's groups. */
  function LineMatch(line: string, shape: Shape): Option<(string, string)> {
    SearchFirst(line, shape, |line|)
  }

  /** A split of the line into a prefix and a remainder that the shape accepts. */
  predicate MatchAt(line: string, shape: Shape, a: int, b: int) {
    PrefixAt(line, a, b) && TailMatch(shape, line[b + 8..]).Some?
  }

  lemma SearchSecondExact(line: string, shape: Shape, a: int, b: int)
    ensures SearchSecond(line, shape, a, b).Some? <==> exists j :: 0 <= j <= b && MatchAt(line, shape, a, j)
    ensures SearchSecond(line, shape, a, b).Some? ==>
      exists j :: 0 <= j <= b && MatchAt(line, shape, a, j) && SearchSecond(line, shape, a, b) == TailMatch(shape, line[j + 8..])
  {
    var f := j => SplitMatch(line, shape, a, j);
    assert forall j :: f(j) == SplitMatch(line, shape, a, j);
    SearchDownFound(f, b);
    if SearchSecond(line, shape, a, b).Some? {
      var j :| 0 <= j <= b && f(j).Some? && SearchDown(f, b) == f(j);
      assert MatchAt(line, shape, a, j) && f(j) == TailMatch(shape, line[j + 8..]);
    }
    if exists j :: 0 <= j <= b && MatchAt(line, shape, a, j) {
      var j :| 0 <= j <= b && MatchAt(line, shape, a, j);
      assert f(j).Some?;
      SearchDownComplete(f, b, j);
    }
  }

  lemma SearchFirstExact(line: string, shape: Shape, a: int)
    ensures SearchFirst(line, shape, a).Some? <==> exists i, j :: 0 <= i <= a && 0 <= j <= |line| && MatchAt(line, shape, i, j)
    ensures SearchFirst(line, shape, a).Some? ==>
      exists i, j :: 0 <= i <= a && 0 <= j <= |line| && MatchAt(line, shape, i, j) && SearchFirst(line, shape, a) == TailMatch(shape, line[j + 8..])
  {
    var f := i => SearchSecond(line, shape, i, |line|);
    assert forall i :: f(i) == SearchSecond(line, shape, i, |line|);
    SearchDownFound(f, a);
    if SearchFirst(line, shape, a).Some? {
      var i :| 0 <= i <= a && f(i).Some? && SearchDown(f, a) == f(i);
      SearchSecondExact(line, shape, i, |line|);
    }
    if exists i, j :: 0 <= i <= a && 0 <= j <= |line| && MatchAt(line, shape, i, j) {
      var i, j :| 0 <= i <= a && 0 <= j <= |line| && MatchAt(line, shape, i, j);
      SearchSecondExact(line, shape, i, |line|);
      SearchDownComplete(f, a, i);
    }
  }

  /**
   * A line matches a pattern exactly when it splits into a log prefix and a
   * remainder of the pattern's shape, and the groups come from such a split.
   */
  lemma LineMatchExact(line: string, shape: Shape)
    ensures LineMatch(line, shape).Some? <==> exists a, b :: MatchAt(line, shape, a, b)
    ensures LineMatch(line, shape).Some? ==>
      exists a, b :: MatchAt(line, shape, a, b) && LineMatch(line, shape) == TailMatch(shape, line[b + 8..])
  {
    SearchFirstExact(line, shape, |line|);
    if exists a, b :: MatchAt(line, shape, a, b) {
      var a, b :| MatchAt(line, shape, a, b);
      assert 0 <= a <= |line| && 0 <= b <= |line|;
    }
  }

  /* ---- classification of one line ---- */

  /** The listener callbacks of GameListener, with their arguments. */
  datatype Callback =
    | OnMessage(name: string, body: string)
    | OnJoinLeft(name: string, joined: bool)
    | OnAchievement(name: string, achievement: string)
    | OnDeath(name: string, death: string)
    | OnExit
    | OnLog(text: string)

  /** The if/else chain of the dispatcher: at most one callback per line, the first pattern that matches. */
  function Classify(line: string): Option<Callback> {
    var m := LineMatch(line, MessageShape);
    if m.Some? then Some(OnMessage(m.value.0, m.value.1))
    else
      var j := LineMatch(line, JoinShape);
      if j.Some? then Some(OnJoinLeft(j.value.0, j.value.1 == "joined"))
      else
        var a := LineMatch(line, AchievementShape);
        if a.Some? then Some(OnAchievement(a.value.0, a.value.1))
        else
          var d := LineMatch(line, DeathShape);
          if d.Some? then Some(OnDeath(d.value.0, d.value.1))
          else if LineMatch(line, ExitShape).Some? then Some(OnExit)
          else
            var l := LineMatch(line, AnyShape);
            if l.Some? then Some(OnLog(l.value.0)) else None
  }

  /** A join or left notice: the flag is true exactly for "joined", and no chat-message split exists. */
  lemma ClassifyJoinLeft(line: string, name: string, joined: bool)
    requires Classify(line) == Some(OnJoinLeft(name, joined))
    ensures !exists a, b :: MatchAt(line, MessageShape, a, b)
    ensures exists a, b :: PrefixAt(line, a, b) && name != "" && ' ' !in name
                           && line[b + 8..] == name + " " + ((if joined then "joined" else "left") + THE_GAME)
  {
    LineMatchExact(line, MessageShape);
    LineMatchExact(line, JoinShape);
    var a, b :| MatchAt(line, JoinShape, a, b) && LineMatch(line, JoinShape) == TailMatch(JoinShape, line[b + 8..]);
    var g := LineMatch(line, JoinShape).value;
    JoinTailExact(line[b + 8..], g.0, g.1);
    assert g.0 == name && (g.1 == "joined" <==> joined);
  }

  /** A chat message: "<name> body" after the prefix. */
  lemma ClassifyMessage(line: string, name: string, body: string)
    requires Classify(line) == Some(OnMessage(name, body))
    ensures exists a, b :: PrefixAt(line, a, b) && line[b + 8..] == "<" + name + "> " + body
                           && name != "" && body != "" && NoLineTerminator(name) && NoLineTerminator(body)
  {
    LineMatchExact(line, MessageShape);
    var a, b :| MatchAt(line, MessageShape, a, b) && LineMatch(line, MessageShape) == TailMatch(MessageShape, line[b + 8..]);
    MessageTailSound(line[b + 8..], name, body);
  }

  /** What a successful split of the message pattern's tail is made of. */
  lemma MessageTailSound(t: string, name: string, body: string)
    requires MessageTail(t) == Some((name, body))
    ensures t == "<" + name + "> " + body && name != "" && body != "" && NoLineTerminator(name) && NoLineTerminator(body)
  {
    MessageSearchFound(t, |t|);
    var k :| 0 <= k <= |t| && MessageAt(t, k) && MessageSearch(t, |t|) == Some((t[1..k], t[k + 2..]));
    assert t == [t[0]] + t[1..k] + t[k..k + 2] + t[k + 2..];
  }

  /** An achievement: neither a message nor a join or left notice, and "name has just earned the achievement [title]". */
  lemma ClassifyAchievement(line: string, name: string, title: string)
    requires Classify(line) == Some(OnAchievement(name, title))
    ensures !exists a, b :: MatchAt(line, MessageShape, a, b)
    ensures !exists a, b :: MatchAt(line, JoinShape, a, b)
    ensures exists a, b :: PrefixAt(line, a, b) && line[b + 8..] == name + (ACHIEVED + title + "]")
                           && name != "" && ' ' !in name && title != ""
  {
    LineMatchExact(line, MessageShape);
    LineMatchExact(line, JoinShape);
    LineMatchExact(line, AchievementShape);
    var a, b :| MatchAt(line, AchievementShape, a, b) && LineMatch(line, AchievementShape) == TailMatch(AchievementShape, line[b + 8..]);
    AchievementTailExact(line[b + 8..], name, title);
  }

  /** A death: no earlier pattern applies, and the cause starts with one of the verbs. */
  lemma ClassifyDeath(line: string, name: string, cause: string)
    requires Classify(line) == Some(OnDeath(name, cause))
    ensures !exists a, b :: MatchAt(line, MessageShape, a, b) || MatchAt(line, JoinShape, a, b) || MatchAt(line, AchievementShape, a, b)
    ensures exists a, b :: PrefixAt(line, a, b) && line[b + 8..] == name + " " + cause && ' ' !in name && DeathCause(cause)
  {
    LineMatchExact(line, MessageShape);
    LineMatchExact(line, JoinShape);
    LineMatchExact(line, AchievementShape);
    LineMatchExact(line, DeathShape);
    var a, b :| MatchAt(line, DeathShape, a, b) && LineMatch(line, DeathShape) == TailMatch(DeathShape, line[b + 8..]);
    DeathTailExact(line[b + 8..], name, cause);
  }

  /**
   * The fallback: a plain log line is delivered without its prefix, and only
   * when no specific pattern applies.
   */
  lemma ClassifyLog(line: string, text: string)
    requires Classify(line) == Some(OnLog(text))
    ensures forall s, a, b :: s != AnyShape ==> !MatchAt(line, s, a, b)
    ensures exists a, b :: PrefixAt(line, a, b) && text == line[b + 8..]
  {
    forall s, a, b | s != AnyShape
      ensures !MatchAt(line, s, a, b)
    {
      LineMatchExact(line, s);
    }
    LineMatchExact(line, AnyShape);
  }

  /**
   * A line produces no callback exactly when no pattern matches it; in
   * particular every plain log line produces one.
   */
  lemma ClassifyNone(line: string)
    ensures Classify(line).None? <==> forall s, a, b :: !MatchAt(line, s, a, b)
    ensures (exists a, b :: PrefixAt(line, a, b) && NoLineTerminator(line[b + 8..])) ==> Classify(line).Some?
  {
    forall s
      ensures LineMatch(line, s).Some? <==> exists a, b :: MatchAt(line, s, a, b)
    {
      LineMatchExact(line, s);
    }
    if exists a, b :: PrefixAt(line, a, b) && NoLineTerminator(line[b + 8..]) {
      var a, b :| PrefixAt(line, a, b) && NoLineTerminator(line[b + 8..]);
      assert MatchAt(line, AnyShape, a, b);
    }
  }

  /** What the capture buffer receives from a line: the text of a plain log line. */
  function Captured(cl: string -> Option<Callback>, line: string): Option<string> {
    var c := cl(line);
    if c.Some? && c.value.OnLog? then Some(c.value.text) else None
  }

  /* ---- the dispatcher ---- */

  /** A registered listener, told apart by its identity. */
  type ListenerId = nat

  /** One callback made on one listener. */
  datatype Delivery = Delivery(listener: ListenerId, callback: Callback)

  /** The same callback, made on each listener of the snapshot in registration order. */
  function Notify(ls: seq<ListenerId>, c: Callback): (r: seq<Delivery>)
    ensures |r| == |ls| && forall i :: 0 <= i < |ls| ==> r[i] == Delivery(ls[i], c)
  {
    if ls == [] then [] else Notify(ls[..|ls| - 1], c) + [Delivery(ls[|ls| - 1], c)]
  }

  /*
   * A listener is code the dispatcher cannot see. Whether a callback throws
   * an unchecked exception out of its listener is the parameter
   * fails: Delivery -> bool. The dispatcher catches only
   * InterruptedException, so such an exception leaves the listener loop and
   * then ends the dispatcher thread.
   */

  /**
   * How many listeners of the snapshot a callback reaches: all of them, or
   * those up to and including the first one that throws.
   */
  function Reached(ls: seq<ListenerId>, c: Callback, fails: Delivery -> bool): (n: nat)
    ensures n <= |ls|
  {
    if ls == [] then 0
    else if fails(Delivery(ls[0], c)) then 1
    else 1 + Reached(ls[1..], c, fails)
  }

  /** A callback stops right after the first listener that throws. */
  lemma {:induction false} ReachedAt(ls: seq<ListenerId>, c: Callback, fails: Delivery -> bool, i: nat)
    requires i < |ls| && fails(Delivery(ls[i], c))
    requires forall j :: 0 <= j < i ==> !fails(Delivery(ls[j], c))
    ensures Reached(ls, c, fails) == i + 1
  {
    if i > 0 {
      assert !fails(Delivery(ls[0], c));
      forall j | 0 <= j < i - 1 ensures !fails(Delivery(ls[1..][j], c)) {
        assert ls[1..][j] == ls[j + 1];
      }
      ReachedAt(ls[1..], c, fails, i - 1);
    }
  }

  /** A callback reaches at least every listener before the first that throws. */
  lemma {:induction false} ReachedPast(ls: seq<ListenerId>, c: Callback, fails: Delivery -> bool, n: nat)
    requires n <= |ls| && forall j :: 0 <= j < n ==> !fails(Delivery(ls[j], c))
    ensures n <= Reached(ls, c, fails)
  {
    if n > 0 {
      forall j | 0 <= j < n - 1 ensures !fails(Delivery(ls[1..][j], c)) {
        assert ls[1..][j] == ls[j + 1];
      }
      ReachedPast(ls[1..], c, fails, n - 1);
    }
  }

  /** A callback that some listener throws on ends at the first such listener; otherwise it reaches them all. */
  lemma {:induction false} ReachedStops(ls: seq<ListenerId>, c: Callback, fails: Delivery -> bool)
    ensures (exists i :: 0 <= i < |ls| && fails(Delivery(ls[i], c))) ==>
      var n := Reached(ls, c, fails);
      0 < n && fails(Delivery(ls[n - 1], c)) && forall j :: 0 <= j < n - 1 ==> !fails(Delivery(ls[j], c))
    ensures (forall i :: 0 <= i < |ls| ==> !fails(Delivery(ls[i], c))) ==> Reached(ls, c, fails) == |ls|
  {
    if ls != [] && !fails(Delivery(ls[0], c)) {
      var tail := ls[1..];
      ReachedStops(tail, c, fails);
      forall i | 0 < i < |ls| ensures ls[i] == tail[i - 1] { }
      if exists i :: 0 <= i < |ls| && fails(Delivery(ls[i], c)) {
        var i :| 0 <= i < |ls| && fails(Delivery(ls[i], c));
        assert fails(Delivery(tail[i - 1], c));
      }
    }
  }

  /** The listener loop making one more callback. */
  lemma NotifySnoc(before: seq<Delivery>, ls: seq<ListenerId>, c: Callback, i: nat)
    requires i < |ls|
    ensures before + Notify(ls[..i], c) + [Delivery(ls[i], c)] == before + Notify(ls[..i + 1], c)
  {
    assert ls[..i + 1][..i] == ls[..i];
    AppendAssoc(before, Notify(ls[..i], c), [Delivery(ls[i], c)]);
  }

  /** The listener loop leaving at the first listener that throws. */
  lemma NotifyUntilAt(ls: seq<ListenerId>, c: Callback, fails: Delivery -> bool, i: nat)
    requires i < |ls| && fails(Delivery(ls[i], c))
    requires forall j :: 0 <= j < i ==> !fails(Delivery(ls[j], c))
    ensures NotifyUntil(ls, c, fails) == Notify(ls[..i + 1], c)
  {
    ReachedAt(ls, c, fails, i);
  }

  /** The listener loop running to its end when no listener throws. */
  lemma NotifyUntilAll(ls: seq<ListenerId>, c: Callback, fails: Delivery -> bool)
    requires forall j :: 0 <= j < |ls| ==> !fails(Delivery(ls[j], c))
    ensures NotifyUntil(ls, c, fails) == Notify(ls, c)
  {
    ReachedPast(ls, c, fails, |ls|);
    assert ls[..|ls|] == ls;
  }

  /** Whether the callback of a line reaches a listener that throws. */
  predicate LineThrows(cl: string -> Option<Callback>, ls: seq<ListenerId>, line: string, fails: Delivery -> bool) {
    cl(line).Some? && exists i :: 0 <= i < |ls| && fails(Delivery(ls[i], cl(line).value))
  }

  /** The callbacks the listener loop makes: on the snapshot in order, up to the first listener that throws. */
  function NotifyUntil(ls: seq<ListenerId>, c: Callback, fails: Delivery -> bool): seq<Delivery> {
    Notify(ls[..Reached(ls, c, fails)], c)
  }

  /** The callbacks one line causes. */
  function LineDeliveries(cl: string -> Option<Callback>, ls: seq<ListenerId>, line: string, fails: Delivery -> bool): seq<Delivery> {
    var c := cl(line);
    if c.Some? then NotifyUntil(ls, c.value, fails) else []
  }

  /** The callbacks of a run of lines, line by line in queue order. */
  function Deliveries(cl: string -> Option<Callback>, ls: seq<ListenerId>, lines: seq<string>, fails: Delivery -> bool): seq<Delivery> {
    if lines == [] then []
    else Deliveries(cl, ls, lines[..|lines| - 1], fails) + LineDeliveries(cl, ls, lines[|lines| - 1], fails)
  }

  /**
   * How many queued lines the dispatcher takes before it runs out or ends:
   * all of them, or those up to and including the first whose callback throws.
   */
  function Taken(cl: string -> Option<Callback>, ls: seq<ListenerId>, lines: seq<string>, fails: Delivery -> bool): (n: nat)
    ensures n <= |lines|
  {
    if lines == [] then 0
    else if LineThrows(cl, ls, lines[0], fails) then 1
    else 1 + Taken(cl, ls, lines[1..], fails)
  }

  /** The dispatcher ends right after the first line whose callback throws. */
  lemma {:induction false} TakenAt(cl: string -> Option<Callback>, ls: seq<ListenerId>, lines: seq<string>,
                                   fails: Delivery -> bool, i: nat)
    requires i < |lines| && LineThrows(cl, ls, lines[i], fails)
    requires forall j :: 0 <= j < i ==> !LineThrows(cl, ls, lines[j], fails)
    ensures Taken(cl, ls, lines, fails) == i + 1
  {
    if i > 0 {
      assert !LineThrows(cl, ls, lines[0], fails);
      forall j | 0 <= j < i - 1 ensures !LineThrows(cl, ls, lines[1..][j], fails) {
        assert lines[1..][j] == lines[j + 1];
      }
      TakenAt(cl, ls, lines[1..], fails, i - 1);
    }
  }

  /** The dispatcher takes at least every line before the first whose callback throws. */
  lemma {:induction false} TakenPast(cl: string -> Option<Callback>, ls: seq<ListenerId>, lines: seq<string>,
                                     fails: Delivery -> bool, n: nat)
    requires n <= |lines| && forall j :: 0 <= j < n ==> !LineThrows(cl, ls, lines[j], fails)
    ensures n <= Taken(cl, ls, lines, fails)
  {
    if n > 0 {
      forall j | 0 <= j < n - 1 ensures !LineThrows(cl, ls, lines[1..][j], fails) {
        assert lines[1..][j] == lines[j + 1];
      }
      TakenPast(cl, ls, lines[1..], fails, n - 1);
    }
  }

  /** The captured texts of a run of lines, in queue order. */
  function CapturedTexts(cl: string -> Option<Callback>, lines: seq<string>): seq<string> {
    if lines == [] then []
    else
      var c := Captured(cl, lines[|lines| - 1]);
      CapturedTexts(cl, lines[..|lines| - 1]) + (if c.Some? then [c.value] else [])
  }

  /** The capture buffer after one more line. */
  function Record(cl: string -> Option<Callback>, buffer: Option<seq<string>>, line: string): Option<seq<string>> {
    var c := Captured(cl, line);
    if buffer.Some? && c.Some? then Some(buffer.value + [c.value]) else buffer
  }

  /** The capture buffer after a run of lines. */
  function RecordAll(cl: string -> Option<Callback>, buffer: Option<seq<string>>, lines: seq<string>): Option<seq<string>> {
    if lines == [] then buffer else Record(cl, RecordAll(cl, buffer, lines[..|lines| - 1]), lines[|lines| - 1])
  }

  /** Handling two runs of lines one after the other is handling their concatenation: the queue order is kept. */
  lemma {:induction false} DeliveriesAppend(cl: string -> Option<Callback>, ls: seq<ListenerId>, xs: seq<string>, ys: seq<string>,
                                            fails: Delivery -> bool)
    ensures Deliveries(cl, ls, xs + ys, fails) == Deliveries(cl, ls, xs, fails) + Deliveries(cl, ls, ys, fails)
    decreases |ys|
  {
    if ys == [] {
      assert xs + ys == xs;
    } else {
      var init, last := ys[..|ys| - 1], ys[|ys| - 1];
      assert (xs + ys)[..|xs + ys| - 1] == xs + init;
      assert (xs + ys)[|xs + ys| - 1] == last;
      var line := LineDeliveries(cl, ls, last, fails);
      assert Deliveries(cl, ls, xs + ys, fails) == Deliveries(cl, ls, xs + init, fails) + line;
      assert Deliveries(cl, ls, ys, fails) == Deliveries(cl, ls, init, fails) + line;
      DeliveriesAppend(cl, ls, xs, init, fails);
      AppendAssoc(Deliveries(cl, ls, xs, fails), Deliveries(cl, ls, init, fails), line);
    }
  }

  /** One more line of a run: its callbacks follow those of the lines before it. */
  lemma DeliveriesSnoc(cl: string -> Option<Callback>, ls: seq<ListenerId>, lines: seq<string>, k: nat, fails: Delivery -> bool)
    requires k < |lines|
    ensures Deliveries(cl, ls, lines[..k + 1], fails) == Deliveries(cl, ls, lines[..k], fails) + LineDeliveries(cl, ls, lines[k], fails)
  {
    assert lines[..k + 1][..k] == lines[..k];
  }

  /** One more line of a run: the capture buffer records it after the lines before it. */
  lemma RecordAllSnoc(cl: string -> Option<Callback>, buffer: Option<seq<string>>, lines: seq<string>, k: nat)
    requires k < |lines|
    ensures RecordAll(cl, buffer, lines[..k + 1]) == Record(cl, RecordAll(cl, buffer, lines[..k]), lines[k])
  {
    assert lines[..k + 1][..k] == lines[..k];
  }

  /** Only an active capture collects lines, and it collects exactly the plain log texts, in order. */
  lemma {:induction false} RecordAllCollects(cl: string -> Option<Callback>, buffer: Option<seq<string>>, lines: seq<string>)
    ensures buffer.None? ==> RecordAll(cl, buffer, lines).None?
    ensures buffer.Some? ==> RecordAll(cl, buffer, lines) == Some(buffer.value + CapturedTexts(cl, lines))
    decreases |lines|
  {
    if lines == [] {
      assert buffer.Some? ==> buffer.value + CapturedTexts(cl, lines) == buffer.value;
    } else {
      var init := lines[..|lines| - 1];
      RecordAllCollects(cl, buffer, init);
      assert RecordAll(cl, buffer, lines) == Record(cl, RecordAll(cl, buffer, init), lines[|lines| - 1]);
      if buffer.Some? {
        var c := Captured(cl, lines[|lines| - 1]);
        if c.Some? {
          assert CapturedTexts(cl, lines) == CapturedTexts(cl, init) + [c.value];
          assert buffer.value + CapturedTexts(cl, init) + [c.value] == buffer.value + (CapturedTexts(cl, init) + [c.value]);
        } else {
          assert CapturedTexts(cl, lines) == CapturedTexts(cl, init);
        }
      }
    }
  }

  /**
   * A line without a callback causes nothing. A line with one reaches every
   * listener once when none of them throws, and otherwise stops at the first
   * that throws.
   */
  lemma LineDeliveriesCount(cl: string -> Option<Callback>, ls: seq<ListenerId>, line: string, fails: Delivery -> bool)
    ensures cl(line).None? ==> LineDeliveries(cl, ls, line, fails) == []
    ensures !LineThrows(cl, ls, line, fails) ==> |LineDeliveries(cl, ls, line, fails)| == if cl(line).Some? then |ls| else 0
    ensures LineThrows(cl, ls, line, fails) ==>
      var ds := LineDeliveries(cl, ls, line, fails);
      0 < |ds| <= |ls| && fails(ds[|ds| - 1]) && forall j :: 0 <= j < |ds| - 1 ==> !fails(ds[j])
    ensures forall d :: d in LineDeliveries(cl, ls, line, fails) ==> d.listener in ls && Some(d.callback) == cl(line)
  {
    var c := cl(line);
    if c.Some? {
      ReachedStops(ls, c.value, fails);
    }
  }

  /**
   * The dispatcher's queue, callbacks, capture buffer and thread once the
   * first done lines of a run have been taken: only the last of them may
   * have thrown, and the thread has ended exactly when it did.
   */
  ghost predicate RunState(cl: string -> Option<Callback>, ls: seq<ListenerId>, fails: Delivery -> bool,
                          lines: seq<string>, done: nat, del0: seq<Delivery>, buf0: Option<seq<string>>,
                          fifo: seq<string>, delivered: seq<Delivery>, buffer: Option<seq<string>>, dead: bool)
  {
    done <= |lines| && fifo == lines[done..]
    && delivered == del0 + Deliveries(cl, ls, lines[..done], fails)
    && buffer == RecordAll(cl, buf0, lines[..done])
    && (forall j :: 0 <= j < done - 1 ==> !LineThrows(cl, ls, lines[j], fails))
    && dead == (done > 0 && LineThrows(cl, ls, lines[done - 1], fails))
  }

  /** Taking the head line of the queue, on a live thread, hands one more line of the run. */
  lemma HandledNext(cl: string -> Option<Callback>, ls: seq<ListenerId>, fails: Delivery -> bool,
                    lines: seq<string>, done: nat, del0: seq<Delivery>, buf0: Option<seq<string>>,
                    fifo: seq<string>, delivered: seq<Delivery>, buffer: Option<seq<string>>)
    requires RunState(cl, ls, fails, lines, done, del0, buf0, fifo, delivered, buffer, false) && fifo != []
    ensures RunState(cl, ls, fails, lines, done + 1, del0, buf0, fifo[1..], delivered + LineDeliveries(cl, ls, fifo[0], fails),
                    Record(cl, buffer, fifo[0]), LineThrows(cl, ls, fifo[0], fails))
  {
    assert lines[done] == fifo[0] && lines[done..][1..] == lines[done + 1..];
    DeliveriesSnoc(cl, ls, lines, done, fails);
    AppendAssoc(del0, Deliveries(cl, ls, lines[..done], fails), LineDeliveries(cl, ls, fifo[0], fails));
    RecordAllSnoc(cl, buf0, lines, done);
  }

  /**
   * Where a run that has taken done lines stands: ended after the first line
   * that threw, or still going with no line thrown so far.
   */
  lemma RunStateTaken(cl: string -> Option<Callback>, ls: seq<ListenerId>, fails: Delivery -> bool,
                      lines: seq<string>, done: nat, dead: bool)
    requires done <= |lines|
    requires forall j :: 0 <= j < done - 1 ==> !LineThrows(cl, ls, lines[j], fails)
    requires dead == (done > 0 && LineThrows(cl, ls, lines[done - 1], fails))
    ensures dead ==> Taken(cl, ls, lines, fails) == done
    ensures !dead ==> done <= Taken(cl, ls, lines, fails)
    ensures dead <==> exists i :: 0 <= i < done && LineThrows(cl, ls, lines[i], fails)
  {
    if dead {
      TakenAt(cl, ls, lines, fails, done - 1);
    } else {
      TakenPast(cl, ls, lines, fails, done);
    }
  }

  /** What one call of Step did. */
  datatype StepResult = Ended | Stopped | Waiting | Handled(line: string) | Threw(line: string)

  class LogParser {
    /** The pattern chain of the dispatcher; the constructor fixes it to Classify. */
    const classify: string -> Option<Callback>
    var fifo: seq<string>
    var listeners: seq<ListenerId>
    var captureBuffer: Option<seq<string>>
    var stop: bool
    /** Whether start has created the reader and dispatcher threads. */
    var started: bool
    /** Every callback made so far, in order. */
    var delivered: seq<Delivery>
    /** Whether a listener's exception has ended the dispatcher thread: no line is taken after that. */
    var dead: bool

    constructor()
      ensures classify == Classify
      ensures fifo == [] && listeners == [] && captureBuffer.None? && stop && !started && delivered == [] && !dead
    {
      classify := Classify;
      fifo := [];
      listeners := [];
      captureBuffer := None;
      stop := true;
      started := false;
      delivered := [];
      dead := false;
    }

    /** The reader thread's handling of one line read from the console: queued at the tail unless stopped. */
    method Enqueue(line: string)
      modifies this`fifo
      ensures fifo == if old(stop) then old(fifo) else old(fifo) + [line]
    {
      if !stop {
        fifo := fifo + [line];
      }
    }

    method AddListener(l: ListenerId)
      modifies this`listeners
      ensures listeners == old(listeners) + [l]
    {
      listeners := listeners + [l];
    }

    method ClearListeners()
      modifies this`listeners
      ensures listeners == []
    {
      listeners := [];
    }

    /**
     * start: refused while running, even when the dispatcher thread has
     * ended; otherwise clears the stop flag and creates new threads.
     */
    method Start() returns (failure: Option<Exception>)
      modifies this`stop, this`started, this`dead
      ensures !old(stop) ==>
        (failure == Some(Exception("java.lang.IllegalStateException", Some("Already started")))
         && stop == old(stop) && started == old(started) && dead == old(dead))
      ensures old(stop) ==> failure.None? && !stop && started && !dead
    {
      if !stop {
        return Some(Exception("java.lang.IllegalStateException", Some("Already started")));
      }
      stop := false;
      started := true;
      dead := false;
      failure := None;
    }

    /** close: sets the stop flag, then interrupts the threads, which fails when they were never created. */
    method Close() returns (failure: Option<Exception>)
      modifies this`stop
      ensures stop
      ensures failure == if started then None else Some(Exception("java.lang.NullPointerException", None))
    {
      stop := true;
      failure := if started then None else Some(Exception("java.lang.NullPointerException", None));
    }

    /** The first half of capture: a fresh empty buffer replaces any current one. */
    method BeginCapture()
      modifies this`captureBuffer
      ensures captureBuffer == Some([])
    {
      captureBuffer := Some([]);
    }

    /** The second half of capture: the current buffer is handed out and removed. */
    method EndCapture() returns (r: Option<seq<string>>)
      modifies this`captureBuffer
      ensures r == old(captureBuffer) && captureBuffer.None?
    {
      r := captureBuffer;
      captureBuffer := None;
    }

    /**
     * The listener loop of one line: each listener of the snapshot gets the
     * callback in turn, until one throws; thrown tells whether one did.
     */
    method NotifyAll(snapshot: seq<ListenerId>, c: Callback, fails: Delivery -> bool) returns (thrown: bool)
      modifies this`delivered
      ensures thrown <==> exists i :: 0 <= i < |snapshot| && fails(Delivery(snapshot[i], c))
      ensures delivered == old(delivered) + NotifyUntil(snapshot, c, fails)
      ensures !thrown ==> delivered == old(delivered) + Notify(snapshot, c)
    {
      for i := 0 to |snapshot|
        invariant delivered == old(delivered) + Notify(snapshot[..i], c)
        invariant forall j :: 0 <= j < i ==> !fails(Delivery(snapshot[j], c))
      {
        NotifySnoc(old(delivered), snapshot, c, i);
        delivered := delivered + [Delivery(snapshot[i], c)];
        if fails(Delivery(snapshot[i], c)) {
          NotifyUntilAt(snapshot, c, fails, i);
          return true;
        }
      }
      NotifyUntilAll(snapshot, c, fails);
      thrown := false;
    }

    /**
     * One turn of the dispatcher loop: nothing once the thread has ended;
     * return when stopped, wait when the queue is empty, and otherwise take
     * the head line, collect it into an active capture when it is a plain
     * log line, and notify a snapshot of the listeners. A listener that
     * throws ends the thread.
     */
    method Step(fails: Delivery -> bool) returns (r: StepResult)
      modifies this`fifo, this`delivered, this`captureBuffer, this`dead
      ensures old(dead) ==> r == Ended
      ensures !old(dead) && old(stop) ==> r == Stopped
      ensures !old(dead) && !old(stop) && old(fifo) == [] ==> r == Waiting
      ensures old(dead) || old(stop) || old(fifo) == [] ==>
        fifo == old(fifo) && delivered == old(delivered) && captureBuffer == old(captureBuffer) && dead == old(dead)
      ensures !old(dead) && !old(stop) && old(fifo) != [] ==>
        var line := old(fifo)[0];
        fifo == old(fifo)[1..]
        && delivered == old(delivered) + LineDeliveries(classify, listeners, line, fails)
        && captureBuffer == Record(classify, old(captureBuffer), line)
        && dead == LineThrows(classify, listeners, line, fails)
        && r == if dead then Threw(line) else Handled(line)
    {
      if dead {
        return Ended;
      }
      if stop {
        return Stopped;
      }
      if fifo == [] {
        return Waiting;
      }
      var line := fifo[0];
      fifo := fifo[1..];
      var snapshot := listeners;
      var c := classify(line);
      if c.Some? && c.value.OnLog? && captureBuffer.Some? {
        captureBuffer := Some(captureBuffer.value + [c.value.text]);
      }
      r := Handled(line);
      if c.Some? {
        var thrown := NotifyAll(snapshot, c.value, fails);
        if thrown {
          dead := true;
          r := Threw(line);
        }
      }
    }

    /**
     * The dispatcher state once the first done lines of a run have been
     * taken: only the last of them may have thrown, and the thread has ended
     * exactly when it did.
     */
    ghost predicate HandledUpTo(lines: seq<string>, done: nat, del0: seq<Delivery>, buf0: Option<seq<string>>,
                                fails: Delivery -> bool)
      reads this
    {
      RunState(classify, listeners, fails, lines, done, del0, buf0, fifo, delivered, captureBuffer, dead)
    }

    /** One turn of the dispatcher inside a run: the next line of the run is taken unless ended, stopped or out of lines. */
    method StepInRun(ghost lines: seq<string>, ghost done: nat, ghost del0: seq<Delivery>, ghost buf0: Option<seq<string>>,
                     fails: Delivery -> bool)
      returns (ghost next: nat)
      requires HandledUpTo(lines, done, del0, buf0, fails)
      modifies this`fifo, this`delivered, this`captureBuffer, this`dead
      ensures next == if old(dead) || stop || old(fifo) == [] then done else done + 1
      ensures HandledUpTo(lines, next, del0, buf0, fails)
    {
      next := done;
      if !dead && !stop && fifo != [] {
        HandledNext(classify, listeners, fails, lines, done, del0, buf0, fifo, delivered, captureBuffer);
        next := done + 1;
      }
      var _ := Step(fails);
    }

    /**
     * The dispatcher run up to the point where it would wait: queued lines
     * are taken in queue order until one's callback throws, which ends the
     * thread; when none throws, every queued line is taken.
     */
    method Run(fails: Delivery -> bool)
      modifies this`fifo, this`delivered, this`captureBuffer, this`dead
      ensures old(dead) || old(stop) ==>
        fifo == old(fifo) && delivered == old(delivered) && captureBuffer == old(captureBuffer) && dead == old(dead)
      ensures !old(dead) && !old(stop) ==>
        var k := Taken(classify, listeners, old(fifo), fails);
        fifo == old(fifo)[k..]
        && delivered == old(delivered) + Deliveries(classify, listeners, old(fifo)[..k], fails)
        && captureBuffer == RecordAll(classify, old(captureBuffer), old(fifo)[..k])
        && (dead <==> exists i :: 0 <= i < |old(fifo)| && LineThrows(classify, listeners, old(fifo)[i], fails))
        && (!dead ==> fifo == [])
    {
      if dead || stop {
        return;
      }
      ghost var lines := fifo;
      ghost var done := 0;
      assert lines[..0] == [];
      while !dead && fifo != []
        invariant HandledUpTo(lines, done, old(delivered), old(captureBuffer), fails) && !stop
        decreases |fifo|
      {
        done := StepInRun(lines, done, old(delivered), old(captureBuffer), fails);
      }
      RunStateTaken(classify, listeners, fails, lines, done, dead);
      assert !dead ==> done == |lines| && lines[..done] == lines;
    }

    /** The dispatcher taking up to steps queued lines, as it does while capture sleeps. */
    method RunSteps(steps: nat, fails: Delivery -> bool)
      modifies this`fifo, this`delivered, this`captureBuffer, this`dead
      ensures var t := Taken(classify, listeners, old(fifo), fails);
        var k := if old(dead) || old(stop) then 0 else if steps < t then steps else t;
        fifo == old(fifo)[k..]
        && delivered == old(delivered) + Deliveries(classify, listeners, old(fifo)[..k], fails)
        && captureBuffer == RecordAll(classify, old(captureBuffer), old(fifo)[..k])
        && (dead <==> old(dead) || exists i :: 0 <= i < k && LineThrows(classify, listeners, old(fifo)[i], fails))
    {
      if dead || stop {
        assert fifo[..0] == [] && fifo[0..] == fifo;
        return;
      }
      ghost var lines := fifo;
      assert lines[..0] == [];
      ghost var done := StepsInRun(steps, lines, old(delivered), old(captureBuffer), fails);
      RunStateTaken(classify, listeners, fails, lines, done, dead);
    }

    /** The turns of the dispatcher loop while capture sleeps, from the start of a run on a live, running parser. */
    method StepsInRun(steps: nat, ghost lines: seq<string>, ghost del0: seq<Delivery>, ghost buf0: Option<seq<string>>,
                      fails: Delivery -> bool)
      returns (ghost done: nat)
      requires HandledUpTo(lines, 0, del0, buf0, fails) && !stop
      modifies this`fifo, this`delivered, this`captureBuffer, this`dead
      ensures HandledUpTo(lines, done, del0, buf0, fails)
      ensures done <= steps && (!dead ==> done == if steps < |lines| then steps else |lines|)
    {
      done := 0;
      for i := 0 to steps
        invariant HandledUpTo(lines, done, del0, buf0, fails)
        invariant done <= i
        invariant !dead ==> done == if i < |lines| then i else |lines|
      {
        done := StepInRun(lines, done, del0, buf0, fails);
      }
    }

    /**
     * capture(millis): a fresh buffer, then the dispatcher takes up to steps
     * queued lines while the caller sleeps, then the buffer is handed out.
     * It holds the plain log texts of the lines taken, including one whose
     * callback threw, since a line is collected before its listeners run.
     */
    method Capture(steps: nat, fails: Delivery -> bool) returns (r: Option<seq<string>>)
      modifies this`fifo, this`delivered, this`captureBuffer, this`dead
      ensures captureBuffer.None?
      ensures var t := Taken(classify, listeners, old(fifo), fails);
        var k := if old(dead) || old(stop) then 0 else if steps < t then steps else t;
        r == Some(CapturedTexts(classify, old(fifo)[..k])) && fifo == old(fifo)[k..]
        && delivered == old(delivered) + Deliveries(classify, listeners, old(fifo)[..k], fails)
        && (dead <==> old(dead) || exists i :: 0 <= i < k && LineThrows(classify, listeners, old(fifo)[i], fails))
    {
      ghost var lines := fifo;
      ghost var t := Taken(classify, listeners, fifo, fails);
      ghost var k := if dead || stop then 0 else if steps < t then steps else t;
      BeginCapture();
      RunSteps(steps, fails);
      RecordAllCollects(classify, Some([]), lines[..k]);
      assert [] + CapturedTexts(classify, lines[..k]) == CapturedTexts(classify, lines[..k]);
      r := EndCapture();
    }
  }
}
