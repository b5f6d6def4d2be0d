/**
 * ChatBot: the registered commands, parseCommand, the routing of a
 * command's answer between the Minecraft server and the chat room, and the
 * handlers of game events. Everything the bot sends is appended to an
 * outbox of actions; the roster, presence and connection state and the
 * captured console output are read from an environment value.
 */
module Bot {
  import opened Wrappers
  import opened Text
  import opened Registry
  import opened Commands
  import opened ChatText
  import opened Dispatch
  import UserCommands
  import GameCommands

  /** What the bot sends: a console line to the server, a chat-room message, a private chat message. */
  datatype Action = GameInput(line: string) | MucSend(text: string) | ChatSend(text: string)

  /**
   * What the bot reads from outside: the roster, the JIDs whose presence is
   * available, whether the room is joined and the connection up, the console
   * output a capture returns, and the outcome of the core command bodies
   * that only touch settings files, the updater or the network.
   */
  datatype Env = Env(roster: set<string>, available: set<string>, online: bool, captured: seq<string>, external: Outcome)

  /** The parts of an incoming room packet the bot looks at. */
  datatype Packet = Packet(from: string, delayed: bool, isMessage: bool, body: Option<string>)

  function Consoles(lines: seq<string>): (r: seq<Action>)
    ensures |r| == |lines| && forall i :: 0 <= i < |r| ==> r[i] == GameInput(lines[i])
  {
    if lines == [] then [] else [GameInput(lines[0])] + Consoles(lines[1..])
  }

  /** gameMessage: the escaped text, one "say" console line per non-empty line. */
  function Broadcast(text: string): seq<Action> {
    Consoles(SayCommands(text))
  }

  /** mucMessage: nothing when the room is not joined or the connection is down; long text is cut. */
  function ToRoom(text: string, maxLen: nat, online: bool): seq<Action> {
    if online then [MucSend(Truncate(text, maxLen).value)] else []
  }

  /** One more piece of the broadcast adds its "say" line, when it is not empty. */
  lemma SayLinesStep(pieces: seq<string>, i: nat)
    requires i < |pieces|
    ensures Consoles(SayLines(pieces[..i + 1])) ==
      Consoles(SayLines(pieces[..i])) + (if pieces[i] != "" then [GameInput("say " + pieces[i])] else [])
  {
    assert pieces[..i + 1][..i] == pieces[..i];
    var said := SayLines(pieces[..i]);
    if pieces[i] != "" {
      assert SayLines(pieces[..i + 1]) == said + ["say " + pieces[i]];
      assert Consoles(said + ["say " + pieces[i]]) == Consoles(said) + [GameInput("say " + pieces[i])];
    }
  }

  /** The actions of the effects a game command asks for, in order. */
  function EffectActions(effects: seq<GameCommands.Effect>): seq<Action> {
    if effects == [] then []
    else
      var last := effects[|effects| - 1];
      EffectActions(effects[..|effects| - 1]) + EffectAction(last)
  }

  function EffectAction(e: GameCommands.Effect): seq<Action> {
    match e
    case Console(l) => [GameInput(l)]
    case Broadcast(t) => Broadcast(t)
  }

  lemma EffectActionsStep(effects: seq<GameCommands.Effect>, i: nat)
    requires i < |effects|
    ensures EffectActions(effects[..i + 1]) == EffectActions(effects[..i]) + EffectAction(effects[i])
  {
    assert effects[..i + 1][..i] == effects[..i];
  }

  /** The answer of a command sent from the game: a private "tell", or a broadcast, also sent to the room when asked. */
  function GameAnswer(text: Option<string>, target: Option<UserData>, both: bool, maxLen: nat, online: bool): seq<Action> {
    if text.None? then []
    else if target.Some? then [GameInput("tell " + ValueOf(target.value.gamename) + " " + text.value)]
    else (if both then ToRoom(text.value, maxLen, online) else []) + Broadcast(text.value)
  }

  /** The answer of a command sent from the chat room: addressed by nickname, or sent to the room, also broadcast when asked. */
  function RoomAnswer(text: Option<string>, target: Option<UserData>, both: bool, maxLen: nat, online: bool): seq<Action> {
    if text.None? then []
    else if target.Some? then ToRoom(ValueOf(target.value.nickname) + ": " + text.value, maxLen, online)
    else (if both then Broadcast(text.value) else []) + ToRoom(text.value, maxLen, online)
  }

  /** The copy of a message sent from the game into the room, when there is one. */
  function GameMirror(mirror: Option<string>, maxLen: nat, online: bool): seq<Action> {
    if mirror.Some? then ToRoom(mirror.value, maxLen, online) else []
  }

  /** The copy of a message sent from the room into the game, when there is one. */
  function RoomMirror(mirror: Option<string>): seq<Action> {
    if mirror.Some? then Broadcast(mirror.value) else []
  }

  /** The routing of a command sent from the game: the optional mirror of the original message, then the answer. */
  function GameRoute(mirror: Option<string>, text: Option<string>, target: Option<UserData>, both: bool, maxLen: nat, online: bool): seq<Action> {
    GameMirror(mirror, maxLen, online) + GameAnswer(text, target, both, maxLen, online)
  }

  /** The routing of a command sent from the chat room: the optional mirror of the original message, then the answer. */
  function RoomRoute(mirror: Option<string>, text: Option<string>, target: Option<UserData>, both: bool, maxLen: nat, online: bool): seq<Action> {
    RoomMirror(mirror) + RoomAnswer(text, target, both, maxLen, online)
  }

  predicate SentToRoom(r: seq<Action>) {
    exists i :: 0 <= i < |r| && r[i].MucSend?
  }

  predicate SentToGame(r: seq<Action>) {
    exists i :: 0 <= i < |r| && r[i].GameInput?
  }

  lemma ConsolesOnlyGame(lines: seq<string>)
    ensures !SentToRoom(Consoles(lines))
    ensures SentToGame(Consoles(lines)) <==> lines != []
  {
    if lines != [] {
      assert Consoles(lines)[0].GameInput?;
    }
  }

  lemma SentConcat(a: seq<Action>, b: seq<Action>)
    ensures SentToRoom(a + b) <==> SentToRoom(a) || SentToRoom(b)
    ensures SentToGame(a + b) <==> SentToGame(a) || SentToGame(b)
  {
    var r := a + b;
    if SentToRoom(r) {
      var i :| 0 <= i < |r| && r[i].MucSend?;
      if i >= |a| { assert b[i - |a|] == r[i]; }
    }
    if SentToGame(r) {
      var i :| 0 <= i < |r| && r[i].GameInput?;
      if i >= |a| { assert b[i - |a|] == r[i]; }
    }
    if SentToRoom(a) {
      var i :| 0 <= i < |a| && a[i].MucSend?;
      assert r[i] == a[i];
    }
    if SentToGame(a) {
      var i :| 0 <= i < |a| && a[i].GameInput?;
      assert r[i] == a[i];
    }
    if SentToRoom(b) {
      var i :| 0 <= i < |b| && b[i].MucSend?;
      assert r[i + |a|] == b[i];
    }
    if SentToGame(b) {
      var i :| 0 <= i < |b| && b[i].GameInput?;
      assert r[i + |a|] == b[i];
    }
  }

  /** A broadcast reaches only the game, and does so iff some line is left to say. */
  lemma BroadcastSides(text: string)
    ensures !SentToRoom(Broadcast(text))
    ensures SentToGame(Broadcast(text)) <==> SayCommands(text) != []
  {
    ConsolesOnlyGame(SayCommands(text));
  }

  /** A chat-room message reaches only the room, and only when the room is up. */
  lemma MucSides(text: string, maxLen: nat, online: bool)
    ensures SentToRoom(ToRoom(text, maxLen, online)) <==> online
    ensures !SentToGame(ToRoom(text, maxLen, online))
  {
    if online {
      assert ToRoom(text, maxLen, online)[0].MucSend?;
    }
  }

  /**
   * From the game side: the chat room hears something iff the room is up
   * and either the original is mirrored or a public answer is meant for
   * both sides; the game hears something iff there is a private tell or a
   * public answer with a non-empty line.
   */
  lemma GameRouteSides(mirror: Option<string>, text: Option<string>, target: Option<UserData>, both: bool, maxLen: nat, online: bool)
    ensures SentToRoom(GameRoute(mirror, text, target, both, maxLen, online)) <==>
      online && (mirror.Some? || (text.Some? && target.None? && both))
    ensures SentToGame(GameRoute(mirror, text, target, both, maxLen, online)) <==>
      text.Some? && (target.Some? || SayCommands(text.value) != [])
  {
    var m: seq<Action> := if mirror.Some? then ToRoom(mirror.value, maxLen, online) else [];
    if mirror.Some? { MucSides(mirror.value, maxLen, online); }
    if text.Some? && target.None? {
      var c: seq<Action> := if both then ToRoom(text.value, maxLen, online) else [];
      if both { MucSides(text.value, maxLen, online); }
      BroadcastSides(text.value);
      SentConcat(c, Broadcast(text.value));
      SentConcat(m, c + Broadcast(text.value));
    } else if text.Some? {
      var t := [GameInput("tell " + ValueOf(target.value.gamename) + " " + text.value)];
      assert t[0].GameInput?;
      SentConcat(m, t);
    } else {
      SentConcat(m, []);
    }
  }

  /** The other side's point of view: likewise from the chat room, with game and room exchanged. */
  lemma RoomRouteSides(mirror: Option<string>, text: Option<string>, target: Option<UserData>, both: bool, maxLen: nat, online: bool)
    ensures SentToRoom(RoomRoute(mirror, text, target, both, maxLen, online)) <==> online && text.Some?
    ensures SentToGame(RoomRoute(mirror, text, target, both, maxLen, online)) <==>
      (mirror.Some? && SayCommands(mirror.value) != [])
      || (text.Some? && target.None? && both && SayCommands(text.value) != [])
  {
    var m: seq<Action> := if mirror.Some? then Broadcast(mirror.value) else [];
    if mirror.Some? { BroadcastSides(mirror.value); }
    if text.Some? && target.None? {
      var b: seq<Action> := if both then Broadcast(text.value) else [];
      if both { BroadcastSides(text.value); }
      MucSides(text.value, maxLen, online);
      SentConcat(b, ToRoom(text.value, maxLen, online));
      SentConcat(m, b + ToRoom(text.value, maxLen, online));
    } else if text.Some? {
      MucSides(ValueOf(target.value.nickname) + ": " + text.value, maxLen, online);
      SentConcat(m, ToRoom(ValueOf(target.value.nickname) + ": " + text.value, maxLen, online));
    } else {
      SentConcat(m, []);
    }
  }

  function TargetOf(u: User?): (t: Option<UserData>)
    reads u
    ensures t.None? <==> u == null
  {
    if u == null then None else Some(u.Data())
  }

  predicate IsUserHandler(h: Handler) {
    h.UserAdd? || h.UserMod? || h.UserDel? || h.Lookup? || h.Nickname?
  }

  predicate IsGameHandler(h: Handler) {
    h.Exec? || h.Say? || h.Shutdown? || h.List?
  }

  /** The core commands whose bodies touch only settings files, the updater or the network. */
  predicate IsExternalHandler(h: Handler) {
    h.Save? || h.Get? || h.Set? || h.Reset? || h.Version? || h.Update? || h.Reload?
  }

  /** The effects and outcome of a game command's body. */
  function GameBody(h: Handler, command: string, source: Source, captured: seq<string>, maxLines: int): (seq<GameCommands.Effect>, Outcome)
    requires IsGameHandler(h)
  {
    match h
    case Exec => GameCommands.Exec(command, source, captured, maxLines)
    case Say => GameCommands.Say(command, source)
    case Shutdown => GameCommands.Shutdown()
    case List => GameCommands.List(captured)
  }

  /** What a command body may read and change of the bot itself; the registry's users are kept apart. */
  datatype BotState = BotState(
    settings: map<string, string>, mtxMirror: bool, xtmMirror: bool,
    lastException: Option<Exception>, outbox: seq<Action>)

  /** The new users and the outcome of a user command's body. */
  function UserStep(h: Handler, us: seq<UserData>, issuer: Option<int>, command: string, source: Source, matcher: Option<MatchState>): (seq<UserData>, Outcome)
    requires IsUserHandler(h)
  {
    match h
    case UserAdd => UserCommands.AfterUserAdd(us, command)
    case UserMod => UserCommands.AfterUserMod(us, issuer, command)
    case UserDel => UserCommands.AfterUserDel(us, command)
    case Lookup => (us, UserCommands.AfterLookup(us, command, source))
    case Nickname => UserCommands.AfterNickname(us, matcher)
  }

  /** The new state and the outcome of a game command: its effects reach the outbox in order. */
  function GameStep(h: Handler, s: BotState, command: string, source: Source, captured: seq<string>, maxLines: int): (BotState, Outcome)
    requires IsGameHandler(h)
  {
    var body := GameBody(h, command, source, captured, maxLines);
    (s.(outbox := s.outbox + EffectActions(body.0)), body.1)
  }

  /**
   * The new state and the outcome of a Core or Utils command other than
   * help. The bodies that only touch files, the updater or the network
   * return the outcome the environment supplies.
   */
  function CoreStep(h: Handler, s: BotState, command: string, env: Env): (BotState, Outcome) {
    if h == GetError then (s.(lastException := None), Returned(TextResponse(LastErrorText(s.lastException))))
    else if h == Ping then (s, Returned(TextResponse(PONG)))
    else if h == Toggle then
      var t := ToggleOutcome(command);
      var (settings, xtm, mtx) := Toggled(t.0, s.settings, s.xtmMirror, s.mtxMirror);
      (s.(settings := settings, xtmMirror := xtm, mtxMirror := mtx), t.1)
    else (s, env.external)
  }

  /** The new state and the outcome of a command that leaves the registry alone: a game, Core or Utils command. */
  function BotStep(h: Handler, s: BotState, issuer: Option<int>, command: string, source: Source, env: Env,
                   views: seq<CommandView>, direct: Option<CommandView>, maxLines: int): (BotState, Outcome)
    requires !IsUserHandler(h)
  {
    if IsGameHandler(h) then GameStep(h, s, command, source, env.captured, maxLines)
    else if h == Help then (s, HelpOutcome(views, direct, issuer, command))
    else CoreStep(h, s, command, env)
  }

  /**
   * cmd.execute, by handler: the new state and the outcome of a command's
   * body. issuer is the issuer's level (None when unknown), matcher the
   * command's last matcher, views and direct what help reads of the
   * commands.
   */
  function BodyStep(h: Handler, s: BotState, us: seq<UserData>, issuer: Option<int>, command: string, source: Source, env: Env,
                    matcher: Option<MatchState>, views: seq<CommandView>, direct: Option<CommandView>, maxLines: int): (BotState, seq<UserData>, Outcome)
  {
    if IsUserHandler(h) then
      var u := UserStep(h, us, issuer, command, source, matcher);
      (s, u.0, u.1)
    else
      var b := BotStep(h, s, issuer, command, source, env, views, direct, maxLines);
      (b.0, us, b.1)
  }

  /** A user command changes the users and nothing of the bot's own state. */
  lemma UserStepKeepsBot(h: Handler, s: BotState, us: seq<UserData>, issuer: Option<int>, command: string, source: Source, env: Env,
                         matcher: Option<MatchState>, views: seq<CommandView>, direct: Option<CommandView>, maxLines: int)
    requires IsUserHandler(h)
    ensures BodyStep(h, s, us, issuer, command, source, env, matcher, views, direct, maxLines).0 == s
  {
  }

  /** Any other command leaves the users alone. */
  lemma OtherStepKeepsUsers(h: Handler, s: BotState, us: seq<UserData>, issuer: Option<int>, command: string, source: Source, env: Env,
                            matcher: Option<MatchState>, views: seq<CommandView>, direct: Option<CommandView>, maxLines: int)
    requires !IsUserHandler(h)
    ensures BodyStep(h, s, us, issuer, command, source, env, matcher, views, direct, maxLines).1 == us
  {
  }

  /** help, ping and the bodies the environment answers leave the bot's state alone. */
  lemma QuietStepKeepsBot(h: Handler, s: BotState, issuer: Option<int>, command: string, source: Source, env: Env,
                          views: seq<CommandView>, direct: Option<CommandView>, maxLines: int)
    requires h == Help || h == Ping || IsExternalHandler(h)
    ensures !IsUserHandler(h) && BotStep(h, s, issuer, command, source, env, views, direct, maxLines).0 == s
  {
  }

  /** A game command only appends to the outbox. */
  lemma GameStepAppends(h: Handler, s: BotState, command: string, source: Source, captured: seq<string>, maxLines: int)
    requires IsGameHandler(h)
    ensures var t := GameStep(h, s, command, source, captured, maxLines);
      t.0.outbox[..|s.outbox|] == s.outbox && t.0.(outbox := s.outbox) == s
  {
    var body := GameBody(h, command, source, captured, maxLines);
    assert (s.outbox + EffectActions(body.0))[..|s.outbox|] == s.outbox;
  }

  /** A failed body's exception becomes the last exception. */
  function Recorded(t: BotState, o: Outcome): BotState {
    if o.Failed? then t.(lastException := Some(o.exception)) else t
  }

  /** parseCommand around the body: a failure becomes the last exception. */
  function RunStep(h: Handler, s: BotState, us: seq<UserData>, issuer: Option<int>, command: string, source: Source, env: Env,
                   matcher: Option<MatchState>, views: seq<CommandView>, direct: Option<CommandView>, maxLines: int): (BotState, seq<UserData>, Outcome)
  {
    var b := BodyStep(h, s, us, issuer, command, source, env, matcher, views, direct, maxLines);
    (Recorded(b.0, b.2), b.1, b.2)
  }

  /** How many commands the selection loop asked: up to the chosen one, or all of them. */
  function Asked(i: Option<nat>, n: nat): nat {
    if i.Some? then i.value + 1 else n
  }

  /** cmd.matches(command) && cmd.isEnabled(), for one command of the loop. */
  method Probe(cmd: BotCommand, command: string) returns (b: bool)
    modifies cmd`lastMatcher
    ensures b == Selected(old(cmd.View()), command) && cmd.View() == old(cmd.View())
    ensures cmd.matcher.Pattern? ==> cmd.lastMatcher == Some(MatchState(command, RegexMatch(cmd.matcher.regex, command)))
    ensures cmd.lastMatcher == ProbedMatcher(cmd.matcher, command, old(cmd.lastMatcher))
  {
    b := cmd.Matches(command);
    b := b && cmd.enabled;
  }

  /** What init gives one command it registers: category, name, level and body. */
  datatype Registration = Registration(category: string, name: string, level: int, handler: Handler)

  /** UserCommands.init, in registration order. */
  const USER_REGISTRATIONS := [
    Registration(UserCommands.CATEGORY, "useradd", OP, UserAdd),
    Registration(UserCommands.CATEGORY, "usermod", OP, UserMod),
    Registration(UserCommands.CATEGORY, "userdel", OP, UserDel),
    Registration(UserCommands.CATEGORY, "lookup", OP, Lookup),
    Registration(UserCommands.CATEGORY, "nickname", UserCommands.NICKNAME_LEVEL, Handler.Nickname)]

  /** GameCommands.init, in registration order. */
  const GAME_REGISTRATIONS := [
    Registration(GameCommands.CATEGORY, "$", GameCommands.EXEC_LEVEL, Exec),
    Registration(GameCommands.CATEGORY, "say", GameCommands.SAY_LEVEL, Say),
    Registration(GameCommands.CATEGORY, "shutdown", GameCommands.SHUTDOWN_LEVEL, Shutdown),
    Registration(GameCommands.CATEGORY, "list", GameCommands.LIST_LEVEL, List)]

  /** The Core half of initCoreCommands, in registration order. */
  const CORE_REGISTRATIONS := [
    Registration("Core", "save", OP, Save),
    Registration("Core", "get", ADMIN, Get),
    Registration("Core", "set", ADMIN, Set),
    Registration("Core", "reset", ADMIN, Reset),
    Registration("Core", "version", ANON, Version),
    Registration("Core", "update", ADMIN, Update),
    Registration("Core", "geterror", OP, GetError)]

  /** The Utils half of initCoreCommands, in registration order. */
  const UTILS_REGISTRATIONS := [
    Registration("Utils", "help", ANON, Help),
    Registration("Utils", "reload", ADMIN, Reload),
    Registration("Utils", "ping", ANON, Ping),
    Registration("Utils", "toggle", OP, Toggle)]

  /** Everything the constructor registers: the user, game, core and utils commands. */
  const INITIAL_REGISTRATIONS := USER_REGISTRATIONS + GAME_REGISTRATIONS + CORE_REGISTRATIONS + UTILS_REGISTRATIONS

  /** The full names a list of registrations puts commands under. */
  function RegisteredNames(rs: seq<Registration>): set<string> {
    set i | 0 <= i < |rs| :: FullNameOf(rs[i].category, rs[i].name)
  }

  /** The command has everything r gives it. */
  predicate Gives(cmd: BotCommand, r: Registration) {
    cmd.category == r.category && cmd.name == r.name && cmd.level == r.level && cmd.handler == r.handler
  }

  /** The command under r's full name has everything r gives it. */
  predicate RegisteredAs(m: map<string, BotCommand>, r: Registration) {
    var f := FullNameOf(r.category, r.name);
    f in m && Gives(m[f], r)
  }

  /** m is m0 after the registrations rs: their full names are added, each holds its command, and nothing else changes. */
  predicate Registers(m0: map<string, BotCommand>, m: map<string, BotCommand>, rs: seq<Registration>) {
    m.Keys == m0.Keys + RegisteredNames(rs)
    && (forall i :: 0 <= i < |rs| ==> RegisteredAs(m, rs[i]))
    && (forall k :: k in m0 && k !in RegisteredNames(rs) ==> m[k] == m0[k])
  }

  /** The names of two batches in a row are the names of each. */
  lemma NamesOfAppend(a: seq<Registration>, b: seq<Registration>)
    ensures RegisteredNames(a + b) == RegisteredNames(a) + RegisteredNames(b)
  {
    var ab := a + b;
    forall n | n in RegisteredNames(ab) ensures n in RegisteredNames(a) + RegisteredNames(b) {
      var i :| 0 <= i < |ab| && n == FullNameOf(ab[i].category, ab[i].name);
      if i < |a| {
        assert ab[i] == a[i];
      } else {
        assert ab[i] == b[i - |a|];
      }
    }
    forall n | n in RegisteredNames(a) ensures n in RegisteredNames(ab) {
      var i :| 0 <= i < |a| && n == FullNameOf(a[i].category, a[i].name);
      assert ab[i] == a[i];
    }
    forall n | n in RegisteredNames(b) ensures n in RegisteredNames(ab) {
      var i :| 0 <= i < |b| && n == FullNameOf(b[i].category, b[i].name);
      assert ab[|a| + i] == b[i];
    }
  }

  /** Registrations of two categories without a dot never share a full name. */
  lemma CategoriesApart(a: seq<Registration>, ca: string, b: seq<Registration>, cb: string)
    requires '.' !in ca && '.' !in cb && ca != cb
    requires forall i :: 0 <= i < |a| ==> a[i].category == ca
    requires forall i :: 0 <= i < |b| ==> b[i].category == cb
    ensures RegisteredNames(a) !! RegisteredNames(b)
  {
    forall n | n in RegisteredNames(a) ensures n !in RegisteredNames(b) {
      var i :| 0 <= i < |a| && n == FullNameOf(a[i].category, a[i].name);
      if n in RegisteredNames(b) {
        var j :| 0 <= j < |b| && n == FullNameOf(b[j].category, b[j].name);
        FullNameInjective(a[i].category, a[i].name, b[j].category, b[j].name);
      }
    }
  }

  /** Two batches of registrations under different full names make one batch. */
  lemma RegistersAppend(m0: map<string, BotCommand>, m1: map<string, BotCommand>, m2: map<string, BotCommand>,
                        a: seq<Registration>, b: seq<Registration>)
    requires Registers(m0, m1, a) && Registers(m1, m2, b)
    requires RegisteredNames(a) !! RegisteredNames(b)
    ensures Registers(m0, m2, a + b)
  {
    var ab := a + b;
    NamesOfAppend(a, b);
    forall i | 0 <= i < |ab| ensures RegisteredAs(m2, ab[i]) {
      if i < |a| {
        assert ab[i] == a[i];
        var f := FullNameOf(a[i].category, a[i].name);
        assert f in RegisteredNames(a);
      } else {
        assert ab[i] == b[i - |a|];
      }
    }
  }

  /** Nothing registered yet. */
  lemma RegistersNone(m0: map<string, BotCommand>, rs: seq<Registration>)
    ensures Registers(m0, m0, rs[..0])
  {
    assert RegisteredNames(rs[..0]) == {};
  }

  /** The next command of a batch named apart is under a name the batch has not used so far. */
  lemma NextNameFresh(rs: seq<Registration>, k: nat)
    requires k < |rs| && NamesApart(rs)
    ensures FullNameOf(rs[k].category, rs[k].name) !in RegisteredNames(rs[..k])
  {
    var pre := rs[..k];
    if FullNameOf(rs[k].category, rs[k].name) in RegisteredNames(pre) {
      var j :| 0 <= j < k && FullNameOf(rs[k].category, rs[k].name) == FullNameOf(pre[j].category, pre[j].name);
      assert pre[j] == rs[j];
      FullNameInjective(rs[j].category, rs[j].name, rs[k].category, rs[k].name);
    }
  }

  /** One more registerCommand, under a name not used so far, extends a batch by one. */
  lemma RegistersSnoc(m0: map<string, BotCommand>, m: map<string, BotCommand>, done: seq<Registration>,
                      r: Registration, cmd: BotCommand)
    requires Registers(m0, m, done) && Gives(cmd, r)
    requires FullNameOf(r.category, r.name) !in RegisteredNames(done)
    ensures Registers(m0, m[cmd.FullName() := cmd], done + [r])
  {
    NamesOfAppend(done, [r]);
    assert RegisteredNames([r]) == {FullNameOf(r.category, r.name)} by {
      assert [r][0] == r;
    }
    var post := done + [r];
    forall i | 0 <= i < |post| ensures RegisteredAs(m[cmd.FullName() := cmd], post[i]) {
      if i < |done| {
        assert post[i] == done[i];
        assert FullNameOf(done[i].category, done[i].name) in RegisteredNames(done);
      }
    }
  }

  /**
   * One more registerCommand, of the next command of the batch rs, named
   * apart from those before it in the same category, extends the batch.
   */
  lemma RegistersStep(m0: map<string, BotCommand>, m: map<string, BotCommand>, rs: seq<Registration>, k: nat, cmd: BotCommand)
    requires k < |rs| && Registers(m0, m, rs[..k])
    requires NamesApart(rs) && Gives(cmd, rs[k])
    ensures Registers(m0, m[cmd.FullName() := cmd], rs[..k + 1])
    ensures k + 1 == |rs| ==> Registers(m0, m[cmd.FullName() := cmd], rs)
  {
    NextNameFresh(rs, k);
    RegistersSnoc(m0, m, rs[..k], rs[k], cmd);
    assert rs[..k + 1] == rs[..k] + [rs[k]];
    assert k + 1 == |rs| ==> rs[..k + 1] == rs;
  }

  /** A batch of one category, without a dot, whose commands have pairwise different names. */
  predicate NamesApart(rs: seq<Registration>) {
    (forall k :: 0 <= k < |rs| ==> '.' !in rs[k].category && rs[k].category == rs[0].category)
    && forall j, k :: 0 <= j < k < |rs| ==> rs[j].name != rs[k].name
  }

  /** Within each batch of init, the names differ and the category holds no dot. */
  lemma UserNamedApart() ensures NamesApart(USER_REGISTRATIONS) { }
  lemma GameNamedApart() ensures NamesApart(GAME_REGISTRATIONS) { }
  lemma CoreNamedApart() ensures NamesApart(CORE_REGISTRATIONS) { }
  lemma UtilsNamedApart() ensures NamesApart(UTILS_REGISTRATIONS) { }

  /** The commands UserCommands.init builds carry the entries of USER_REGISTRATIONS, in order. */
  lemma UserEntries(useradd: BotCommand, usermod: BotCommand, userdel: BotCommand, lookup: BotCommand, nickname: BotCommand)
    requires Gives(useradd, Registration(UserCommands.CATEGORY, "useradd", OP, UserAdd))
    requires Gives(usermod, Registration(UserCommands.CATEGORY, "usermod", OP, UserMod))
    requires Gives(userdel, Registration(UserCommands.CATEGORY, "userdel", OP, UserDel))
    requires Gives(lookup, Registration(UserCommands.CATEGORY, "lookup", OP, Lookup))
    requires Gives(nickname, Registration(UserCommands.CATEGORY, "nickname", UserCommands.NICKNAME_LEVEL, Handler.Nickname))
    ensures Gives(useradd, USER_REGISTRATIONS[0])
    ensures Gives(usermod, USER_REGISTRATIONS[1])
    ensures Gives(userdel, USER_REGISTRATIONS[2])
    ensures Gives(lookup, USER_REGISTRATIONS[3])
    ensures Gives(nickname, USER_REGISTRATIONS[4])
  {
  }

  /** The commands GameCommands.init builds carry the entries of GAME_REGISTRATIONS, in order. */
  lemma GameEntries(exec: BotCommand, say: BotCommand, shutdown: BotCommand, list: BotCommand)
    requires Gives(exec, Registration(GameCommands.CATEGORY, "$", GameCommands.EXEC_LEVEL, Exec))
    requires Gives(say, Registration(GameCommands.CATEGORY, "say", GameCommands.SAY_LEVEL, Say))
    requires Gives(shutdown, Registration(GameCommands.CATEGORY, "shutdown", GameCommands.SHUTDOWN_LEVEL, Shutdown))
    requires Gives(list, Registration(GameCommands.CATEGORY, "list", GameCommands.LIST_LEVEL, List))
    ensures Gives(exec, GAME_REGISTRATIONS[0])
    ensures Gives(say, GAME_REGISTRATIONS[1])
    ensures Gives(shutdown, GAME_REGISTRATIONS[2])
    ensures Gives(list, GAME_REGISTRATIONS[3])
  {
  }

  /** The commands the Core half of initCoreCommands builds carry the entries of CORE_REGISTRATIONS, in order. */
  lemma CoreEntries(save: BotCommand, get: BotCommand, setCmd: BotCommand, reset: BotCommand, version: BotCommand, update: BotCommand, geterror: BotCommand)
    requires Gives(save, Registration("Core", "save", OP, Save))
    requires Gives(get, Registration("Core", "get", ADMIN, Get))
    requires Gives(setCmd, Registration("Core", "set", ADMIN, Set))
    requires Gives(reset, Registration("Core", "reset", ADMIN, Reset))
    requires Gives(version, Registration("Core", "version", ANON, Version))
    requires Gives(update, Registration("Core", "update", ADMIN, Update))
    requires Gives(geterror, Registration("Core", "geterror", OP, GetError))
    ensures Gives(save, CORE_REGISTRATIONS[0])
    ensures Gives(get, CORE_REGISTRATIONS[1])
    ensures Gives(setCmd, CORE_REGISTRATIONS[2])
    ensures Gives(reset, CORE_REGISTRATIONS[3])
    ensures Gives(version, CORE_REGISTRATIONS[4])
    ensures Gives(update, CORE_REGISTRATIONS[5])
    ensures Gives(geterror, CORE_REGISTRATIONS[6])
  {
  }

  /** The commands the Utils half of initCoreCommands builds carry the entries of UTILS_REGISTRATIONS, in order. */
  lemma UtilsEntries(help: BotCommand, reload: BotCommand, ping: BotCommand, toggle: BotCommand)
    requires Gives(help, Registration("Utils", "help", ANON, Help))
    requires Gives(reload, Registration("Utils", "reload", ADMIN, Reload))
    requires Gives(ping, Registration("Utils", "ping", ANON, Ping))
    requires Gives(toggle, Registration("Utils", "toggle", OP, Toggle))
    ensures Gives(help, UTILS_REGISTRATIONS[0])
    ensures Gives(reload, UTILS_REGISTRATIONS[1])
    ensures Gives(ping, UTILS_REGISTRATIONS[2])
    ensures Gives(toggle, UTILS_REGISTRATIONS[3])
  {
  }

  /** Registering four commands that carry the first four entries of a batch, one after the other, registers those four. */
  lemma RegistersFirstFour(m0: map<string, BotCommand>, c0: BotCommand, c1: BotCommand, c2: BotCommand, c3: BotCommand,
                           rs: seq<Registration>)
    requires |rs| >= 4 && NamesApart(rs)
    requires Gives(c0, rs[0]) && Gives(c1, rs[1]) && Gives(c2, rs[2]) && Gives(c3, rs[3])
    ensures Registers(m0, m0[c0.FullName() := c0][c1.FullName() := c1][c2.FullName() := c2][c3.FullName() := c3], rs[..4])
  {
    RegistersNone(m0, rs);
    RegistersStep(m0, m0, rs, 0, c0);
    var m1 := m0[c0.FullName() := c0];
    RegistersStep(m0, m1, rs, 1, c1);
    var m2 := m1[c1.FullName() := c1];
    RegistersStep(m0, m2, rs, 2, c2);
    var m3 := m2[c2.FullName() := c2];
    RegistersStep(m0, m3, rs, 3, c3);
  }

  /** A batch of four commands, registered one after the other. */
  lemma RegistersFour(m0: map<string, BotCommand>, c0: BotCommand, c1: BotCommand, c2: BotCommand, c3: BotCommand,
                      rs: seq<Registration>)
    requires |rs| == 4 && NamesApart(rs)
    requires Gives(c0, rs[0]) && Gives(c1, rs[1]) && Gives(c2, rs[2]) && Gives(c3, rs[3])
    ensures Registers(m0, m0[c0.FullName() := c0][c1.FullName() := c1][c2.FullName() := c2][c3.FullName() := c3], rs)
  {
    RegistersFirstFour(m0, c0, c1, c2, c3, rs);
    assert rs[..4] == rs;
  }

  /** A batch of five commands, registered one after the other. */
  lemma RegistersFive(m0: map<string, BotCommand>, c0: BotCommand, c1: BotCommand, c2: BotCommand, c3: BotCommand,
                      c4: BotCommand, rs: seq<Registration>)
    requires |rs| == 5 && NamesApart(rs)
    requires Gives(c0, rs[0]) && Gives(c1, rs[1]) && Gives(c2, rs[2]) && Gives(c3, rs[3]) && Gives(c4, rs[4])
    ensures Registers(m0, m0[c0.FullName() := c0][c1.FullName() := c1][c2.FullName() := c2][c3.FullName() := c3]
      [c4.FullName() := c4], rs)
  {
    RegistersFirstFour(m0, c0, c1, c2, c3, rs);
    RegistersStep(m0, m0[c0.FullName() := c0][c1.FullName() := c1][c2.FullName() := c2][c3.FullName() := c3], rs, 4, c4);
  }

  /** A batch of seven commands, registered one after the other. */
  lemma RegistersSeven(m0: map<string, BotCommand>, c0: BotCommand, c1: BotCommand, c2: BotCommand, c3: BotCommand,
                       c4: BotCommand, c5: BotCommand, c6: BotCommand, rs: seq<Registration>)
    requires |rs| == 7 && NamesApart(rs)
    requires Gives(c0, rs[0]) && Gives(c1, rs[1]) && Gives(c2, rs[2]) && Gives(c3, rs[3])
    requires Gives(c4, rs[4]) && Gives(c5, rs[5]) && Gives(c6, rs[6])
    ensures Registers(m0, m0[c0.FullName() := c0][c1.FullName() := c1][c2.FullName() := c2][c3.FullName() := c3]
      [c4.FullName() := c4][c5.FullName() := c5][c6.FullName() := c6], rs)
  {
    RegistersFirstFour(m0, c0, c1, c2, c3, rs);
    var m4 := m0[c0.FullName() := c0][c1.FullName() := c1][c2.FullName() := c2][c3.FullName() := c3];
    RegistersStep(m0, m4, rs, 4, c4);
    var m5 := m4[c4.FullName() := c4];
    RegistersStep(m0, m5, rs, 5, c5);
    var m6 := m5[c5.FullName() := c5];
    RegistersStep(m0, m6, rs, 6, c6);
  }

  /** No command the constructor registers replaces another: the four batches lie in four categories. */
  lemma InitialBatchesApart()
    ensures RegisteredNames(USER_REGISTRATIONS) !! RegisteredNames(GAME_REGISTRATIONS)
    ensures RegisteredNames(USER_REGISTRATIONS + GAME_REGISTRATIONS) !! RegisteredNames(CORE_REGISTRATIONS)
    ensures RegisteredNames(USER_REGISTRATIONS + GAME_REGISTRATIONS + CORE_REGISTRATIONS) !! RegisteredNames(UTILS_REGISTRATIONS)
  {
    var ug := USER_REGISTRATIONS + GAME_REGISTRATIONS;
    CategoriesApart(USER_REGISTRATIONS, "User", GAME_REGISTRATIONS, "Game");
    CategoriesApart(USER_REGISTRATIONS, "User", CORE_REGISTRATIONS, "Core");
    CategoriesApart(GAME_REGISTRATIONS, "Game", CORE_REGISTRATIONS, "Core");
    CategoriesApart(USER_REGISTRATIONS, "User", UTILS_REGISTRATIONS, "Utils");
    CategoriesApart(GAME_REGISTRATIONS, "Game", UTILS_REGISTRATIONS, "Utils");
    CategoriesApart(CORE_REGISTRATIONS, "Core", UTILS_REGISTRATIONS, "Utils");
    NamesOfAppend(USER_REGISTRATIONS, GAME_REGISTRATIONS);
    NamesOfAppend(ug, CORE_REGISTRATIONS);
  }

  /** The help text of toggle. */
  const TOGGLE_HELP := "Toggles the chat mirroring, Minecraft-to-XMPP (MtX) or the other way around (XtM)"

  class ChatBot {
    const registry: UserRegistry
    const nick: string   // the bot's nickname in the room
    const jid: string    // room JID + "/" + nick
    var commands: map<string, BotCommand>
    var lastException: Option<Exception>
    var mtxMirror: bool
    var xtmMirror: bool
    var maxLen: nat
    var maxLines: int
    var settings: map<string, string>
    var outbox: seq<Action>

    /** Every command is registered under its own full name. */
    predicate Valid()
      reads this`commands, registry
    {
      registry.Valid() && forall k :: k in commands ==> commands[k].FullName() == k
    }

    /** Nothing a command body may change has changed: no output, no error, no setting, no user. */
    twostate predicate Quiet()
      reads this, registry, registry.users
    {
      outbox == old(outbox) && lastException == old(lastException) && settings == old(settings)
      && mtxMirror == old(mtxMirror) && xtmMirror == old(xtmMirror) && unchanged(registry) && unchanged(old(registry.users))
    }

    /** The state a command body reads and changes. */
    function State(): BotState
      reads this
    {
      BotState(settings, mtxMirror, xtmMirror, lastException, outbox)
    }

    /** order lists every registered full name exactly once: one iteration order of the map. */
    predicate Enumerates(order: seq<string>)
      reads this`commands
    {
      (forall k :: k in commands ==> k in order)
      && (forall i :: 0 <= i < |order| ==> order[i] in commands)
      && forall i, j :: 0 <= i < j < |order| ==> order[i] != order[j]
    }

    /** The commands in the given iteration order, as parseCommand and help read them. */
    function Views(order: seq<string>): (vs: seq<CommandView>)
      requires forall i :: 0 <= i < |order| ==> order[i] in commands
      reads this`commands, commands.Values`help, commands.Values`enabled
      ensures |vs| == |order| && forall i :: 0 <= i < |order| ==> vs[i] == commands[order[i]].View()
    {
      if order == [] then []
      else
        assert commands[order[0]] in commands.Values;
        [commands[order[0]].View()] + Views(order[1..])
    }

    /** commands.get(name), as help reads it. */
    function NamedView(name: string): Option<CommandView>
      reads this`commands, commands.Values`help, commands.Values`enabled
    {
      if name in commands then
        assert commands[name] in commands.Values;
        Some(commands[name].View())
      else None
    }

    /**
     * The command that help names directly: the one registered under the
     * first argument as its full name.
     */
    function DirectView(command: string): Option<CommandView>
      reads this`commands, commands.Values`help, commands.Values`enabled
    {
      var parts := Split(command, ' ');
      if |parts| > 1 then NamedView(parts[1]) else None
    }

    /**
     * init: the mirroring flags are read from the settings; maxLen and
     * maxLines are given as parameters standing for the integer settings
     * chatbot.maxlen and chatbot.maxlines. Joining the room sends the
     * greeting, then the user, game, core and utils commands are
     * registered, and they are all the bot has.
     */
    constructor (registry: UserRegistry, nick: string, roomJid: string, settings: map<string, string>, maxLen: nat, maxLines: int)
      requires registry.Valid()
      ensures Valid() && this.registry == registry && this.nick == nick && this.jid == roomJid + "/" + nick
      ensures mtxMirror == (GAME_TO_XMPP_KEY in settings && EqualsIgnoreCase(settings[GAME_TO_XMPP_KEY], "true"))
      ensures xtmMirror == (XMPP_TO_GAME_KEY in settings && EqualsIgnoreCase(settings[XMPP_TO_GAME_KEY], "true"))
      ensures this.settings == settings && this.maxLen == maxLen && this.maxLines == maxLines
      ensures lastException == None && outbox == [MucSend(GREETING)]
      ensures Registers(map[], commands, INITIAL_REGISTRATIONS)
    {
      this.registry := registry;
      this.nick := nick;
      this.jid := roomJid + "/" + nick;
      this.settings := settings;
      this.maxLen := maxLen;
      this.maxLines := maxLines;
      mtxMirror := GAME_TO_XMPP_KEY in settings && EqualsIgnoreCase(settings[GAME_TO_XMPP_KEY], "true");
      xtmMirror := XMPP_TO_GAME_KEY in settings && EqualsIgnoreCase(settings[XMPP_TO_GAME_KEY], "true");
      lastException := None;
      outbox := [MucSend(GREETING)];
      commands := map[];
      new;
      RegisterAll();
    }

    /** The registrations of the constructor: user, game, core and utils commands, in that order. */
    method RegisterAll()
      requires Valid()
      modifies this`commands
      ensures Valid() && Registers(old(commands), commands, INITIAL_REGISTRATIONS)
    {
      var _, _, _, _, _ := RegisterUserCommands();
      ghost var afterUser := commands;
      var _, _, _, _ := RegisterGameCommands();
      ghost var afterGame := commands;
      var _, _, _, _, _, _, _ := RegisterCoreCommands();
      ghost var afterCore := commands;
      var _, _, _, _ := RegisterUtilsCommands();
      InitialBatchesApart();
      RegistersAppend(old(commands), afterUser, afterGame, USER_REGISTRATIONS, GAME_REGISTRATIONS);
      RegistersAppend(old(commands), afterGame, afterCore, USER_REGISTRATIONS + GAME_REGISTRATIONS, CORE_REGISTRATIONS);
      RegistersAppend(old(commands), afterCore, commands, USER_REGISTRATIONS + GAME_REGISTRATIONS + CORE_REGISTRATIONS,
        UTILS_REGISTRATIONS);
    }

    /** registerCommand: a command with the same full name is replaced. */
    method RegisterCommand(cmd: BotCommand)
      requires Valid()
      modifies this`commands
      ensures Valid() && commands == old(commands)[cmd.FullName() := cmd]
    {
      commands := commands[cmd.FullName() := cmd];
    }

    /** UserCommands.init: the registry commands, their levels and how they match. */
    method RegisterUserCommands() returns (useradd: BotCommand, usermod: BotCommand, userdel: BotCommand, lookup: BotCommand, nickname: BotCommand)
      requires Valid()
      modifies this`commands
      ensures Valid()
      ensures Registers(old(commands), commands, USER_REGISTRATIONS)
      ensures commands == old(commands)[useradd.FullName() := useradd][usermod.FullName() := usermod]
        [userdel.FullName() := userdel][lookup.FullName() := lookup][nickname.FullName() := nickname]
      ensures useradd.category == usermod.category == userdel.category == lookup.category == nickname.category == UserCommands.CATEGORY
      ensures useradd.name == "useradd" && useradd.level == OP && useradd.handler == UserAdd && useradd.matcher == Prefix(ToLower("useradd"))
      ensures usermod.name == "usermod" && usermod.level == OP && usermod.handler == UserMod && usermod.matcher == Prefix(ToLower("usermod"))
      ensures userdel.name == "userdel" && userdel.level == OP && userdel.handler == UserDel && userdel.matcher == Prefix(ToLower("userdel"))
      ensures lookup.name == "lookup" && lookup.level == OP && lookup.handler == Lookup && lookup.matcher == Prefix(ToLower("lookup"))
      ensures nickname.name == "nickname" && nickname.level == UserCommands.NICKNAME_LEVEL
      ensures nickname.handler == Handler.Nickname && nickname.matcher == Pattern(NicknameRegex)
    {
      var c := UserCommands.CATEGORY;
      useradd := new BotCommand.WithPrefix("useradd", c, OP, "useradd <gamename|nickname> <name>", "useradd", UserAdd);
      RegisterCommand(useradd);
      usermod := new BotCommand.WithPrefix("usermod", c, OP, "usermod <name> <JID|level> value", "usermod", UserMod);
      RegisterCommand(usermod);
      userdel := new BotCommand.WithPrefix("userdel", c, OP, "userdel <name>", "userdel", UserDel);
      RegisterCommand(userdel);
      lookup := new BotCommand.WithPrefix("lookup", c, OP,
        "lookup <username <username>|gamename <gamename>|everyone [level] [UUID] [JID]>", "lookup", Lookup);
      RegisterCommand(lookup);
      nickname := new BotCommand.WithMatcher("nickname", c, UserCommands.NICKNAME_LEVEL,
        "<local name> is <remote name>", Pattern(NicknameRegex), Handler.Nickname);
      RegisterCommand(nickname);
      UserEntries(useradd, usermod, userdel, lookup, nickname);
      UserNamedApart();
      RegistersFive(old(commands), useradd, usermod, userdel, lookup, nickname, USER_REGISTRATIONS);
    }

    /** GameCommands.init: the console commands, their levels and how they match. */
    method RegisterGameCommands() returns (exec: BotCommand, say: BotCommand, shutdown: BotCommand, list: BotCommand)
      requires Valid()
      modifies this`commands
      ensures Valid()
      ensures Registers(old(commands), commands, GAME_REGISTRATIONS)
      ensures commands == old(commands)[exec.FullName() := exec][say.FullName() := say]
        [shutdown.FullName() := shutdown][list.FullName() := list]
      ensures exec.category == say.category == shutdown.category == list.category == GameCommands.CATEGORY
      ensures exec.name == "$" && exec.level == GameCommands.EXEC_LEVEL && exec.handler == Exec && exec.matcher == Prefix(ToLower("$"))
      ensures say.name == "say" && say.level == GameCommands.SAY_LEVEL && say.handler == Say && say.matcher == Prefix(ToLower("say"))
      ensures shutdown.name == "shutdown" && shutdown.level == GameCommands.SHUTDOWN_LEVEL && shutdown.handler == Shutdown
      ensures shutdown.matcher == AnyPrefix(GameCommands.SHUTDOWN_WORDS)
      ensures list.name == "list" && list.level == GameCommands.LIST_LEVEL && list.handler == List && list.matcher == Prefix(ToLower("list"))
    {
      var c := GameCommands.CATEGORY;
      exec := new BotCommand.WithPrefix("$", c, GameCommands.EXEC_LEVEL, "", "$", Exec);
      RegisterCommand(exec);
      say := new BotCommand.WithPrefix("say", c, GameCommands.SAY_LEVEL, "say <message>", "say", Say);
      RegisterCommand(say);
      shutdown := new BotCommand.WithMatcher("shutdown", c, GameCommands.SHUTDOWN_LEVEL, "stop|shutdown|poweroff",
        AnyPrefix(GameCommands.SHUTDOWN_WORDS), Shutdown);
      RegisterCommand(shutdown);
      list := new BotCommand.WithPrefix("list", c, GameCommands.LIST_LEVEL, "list", "list", List);
      RegisterCommand(list);
      GameEntries(exec, say, shutdown, list);
      GameNamedApart();
      RegistersFour(old(commands), exec, say, shutdown, list, GAME_REGISTRATIONS);
    }

    /** initCoreCommands, first half: the commands of the Core category. */
    method RegisterCoreCommands() returns (save: BotCommand, get: BotCommand, setCmd: BotCommand, reset: BotCommand,
                                           version: BotCommand, update: BotCommand, geterror: BotCommand)
      requires Valid()
      modifies this`commands
      ensures Valid()
      ensures Registers(old(commands), commands, CORE_REGISTRATIONS)
      ensures commands == old(commands)[save.FullName() := save][get.FullName() := get][setCmd.FullName() := setCmd]
        [reset.FullName() := reset][version.FullName() := version][update.FullName() := update][geterror.FullName() := geterror]
      ensures save.category == get.category == setCmd.category == reset.category == version.category
        == update.category == geterror.category == "Core"
      ensures save.name == "save" && save.level == OP && save.handler == Save && save.matcher == Prefix(ToLower("save "))
      ensures get.name == "get" && get.level == ADMIN && get.handler == Get
      ensures setCmd.name == "set" && setCmd.level == ADMIN && setCmd.handler == Set
      ensures reset.name == "reset" && reset.level == ADMIN && reset.handler == Reset
      ensures version.name == "version" && version.level == ANON && version.handler == Version
      ensures update.name == "update" && update.level == ADMIN && update.handler == Update
      ensures geterror.name == "geterror" && geterror.level == OP && geterror.handler == GetError
      ensures geterror.matcher == Prefix(ToLower("what was that"))
    {
      var core := "Core";
      save := new BotCommand.WithPrefix("save", core, OP, "save settings|users|language|all", "save ", Save);
      RegisterCommand(save);
      get := new BotCommand.WithPrefix("get", core, ADMIN, "get [file!]<setting name>", "get", Get);
      RegisterCommand(get);
      setCmd := new BotCommand.WithPrefix("set", core, ADMIN, "set [file!]<setting name> <value>", "set", Set);
      RegisterCommand(setCmd);
      reset := new BotCommand.WithPrefix("reset", core, ADMIN, "reset", "reset", Reset);
      RegisterCommand(reset);
      version := new BotCommand.WithPrefix("version", core, ANON, "version", "version", Version);
      RegisterCommand(version);
      update := new BotCommand.WithPrefix("update", core, ADMIN, "update [commands] [-f]", "update", Update);
      RegisterCommand(update);
      geterror := new BotCommand.WithPrefix("geterror", core, OP, "what was that ?", "what was that", GetError);
      RegisterCommand(geterror);
      CoreEntries(save, get, setCmd, reset, version, update, geterror);
      CoreNamedApart();
      RegistersSeven(old(commands), save, get, setCmd, reset, version, update, geterror, CORE_REGISTRATIONS);
    }

    /** initCoreCommands, second half: the commands of the Utils category; toggle carries a help text. */
    method RegisterUtilsCommands() returns (help: BotCommand, reload: BotCommand, ping: BotCommand, toggle: BotCommand)
      requires Valid()
      modifies this`commands
      ensures Valid()
      ensures Registers(old(commands), commands, UTILS_REGISTRATIONS)
      ensures commands == old(commands)[help.FullName() := help][reload.FullName() := reload]
        [ping.FullName() := ping][toggle.FullName() := toggle]
      ensures help.category == reload.category == ping.category == toggle.category == "Utils"
      ensures help.name == "help" && help.level == ANON && help.handler == Help && help.matcher == Prefix(ToLower("help"))
      ensures reload.name == "reload" && reload.level == ADMIN && reload.handler == Reload
      ensures ping.name == "ping" && ping.level == ANON && ping.handler == Ping && ping.matcher == Pattern(PingRegex)
      ensures toggle.name == "toggle" && toggle.level == OP && toggle.handler == Toggle && toggle.matcher == Pattern(ToggleRegex)
      ensures toggle.help == Some(TOGGLE_HELP)
    {
      var utils := "Utils";
      help := new BotCommand.WithPrefix("help", utils, ANON, "help [command]", "help", Help);
      RegisterCommand(help);
      reload := new BotCommand.WithPrefix("reload", utils, ADMIN, "reload <settings|language|users>", "reload", Reload);
      RegisterCommand(reload);
      ping := new BotCommand.WithMatcher("ping", utils, ANON, "ping|?", Pattern(PingRegex), Ping);
      RegisterCommand(ping);
      var t := new BotCommand.WithMatcher("toggle", utils, OP, "enable|disable <MtX|XtM>", Pattern(ToggleRegex), Toggle);
      toggle := t.SetHelp(Some(TOGGLE_HELP));
      RegisterCommand(toggle);
      UtilsEntries(help, reload, ping, toggle);
      UtilsNamedApart();
      RegistersFour(old(commands), help, reload, ping, toggle, UTILS_REGISTRATIONS);
    }

    /* ---- sending ---- */

    /** mucMessage */
    method MucMessage(text: string, env: Env)
      modifies this`outbox
      ensures outbox == old(outbox) + ToRoom(text, maxLen, env.online)
    {
      if env.online {
        outbox := outbox + [MucSend(Truncate(text, maxLen).value)];
      }
    }

    /** gameMessage: the console gets "say" and each non-empty line of the escaped text. */
    method GameMessage(text: string)
      modifies this`outbox
      ensures outbox == old(outbox) + Broadcast(text)
    {
      SayAll(Split(Escape(text), '\n'));
    }

    /** The loop of gameMessage over the lines of the escaped text. */
    method SayAll(pieces: seq<string>)
      modifies this`outbox
      ensures outbox == old(outbox) + Consoles(SayLines(pieces))
    {
      for i := 0 to |pieces|
        invariant outbox == old(outbox) + Consoles(SayLines(pieces[..i]))
      {
        SayLinesStep(pieces, i);
        var line := if pieces[i] != "" then [GameInput("say " + pieces[i])] else [];
        AppendAssoc(old(outbox), Consoles(SayLines(pieces[..i])), line);
        outbox := outbox + line;
      }
      assert pieces[..|pieces|] == pieces;
    }

    /** The effects a game command asks for, in order. */
    method ApplyEffects(effects: seq<GameCommands.Effect>)
      modifies this`outbox
      ensures outbox == old(outbox) + EffectActions(effects)
    {
      for i := 0 to |effects|
        invariant outbox == old(outbox) + EffectActions(effects[..i])
      {
        EffectActionsStep(effects, i);
        AppendAssoc(old(outbox), EffectActions(effects[..i]), EffectAction(effects[i]));
        ApplyEffect(effects[i]);
      }
      assert effects[..|effects|] == effects;
    }

    method ApplyEffect(e: GameCommands.Effect)
      modifies this`outbox
      ensures outbox == old(outbox) + EffectAction(e)
    {
      match e
      case Console(l) =>
        outbox := outbox + [GameInput(l)];
      case Broadcast(t) =>
        GameMessage(t);
    }

    /**
     * tell: in game, a private "tell" to the user, or a broadcast when there
     * is no user; in the chat room, the message prefixed by the user's
     * nickname, which throws when there is no user.
     */
    method Tell(user: User?, message: string, inGame: bool, env: Env) returns (failure: Option<Exception>)
      modifies this`outbox
      ensures inGame ==> failure.None?
      ensures inGame && user != null ==> outbox == old(outbox) + [GameInput("tell " + ValueOf(user.gamename) + " " + message)]
      ensures inGame && user == null ==> outbox == old(outbox) + Broadcast(message)
      ensures !inGame && user == null ==> failure == Some(NPE) && outbox == old(outbox)
      ensures !inGame && user != null ==> failure.None? && outbox == old(outbox) + ToRoom(ValueOf(user.nickname) + ": " + message, maxLen, env.online)
    {
      failure := None;
      if inGame {
        if user != null {
          outbox := outbox + [GameInput("tell " + ValueOf(user.gamename) + " " + message)];
        } else {
          GameMessage(message);
        }
      } else if user == null {
        failure := Some(NPE);
      } else {
        MucMessage(ValueOf(user.nickname) + ": " + message, env);
      }
    }

    /* ---- choosing a command ---- */

    /** The issuer's user object, looked up in the namespace of the source. */
    function IssuerOf(issuer: string, source: Source): (r: Result<User?, Exception>)
      reads this, registry, registry.users
      ensures var p := IssuerIndex(registry.Snapshot(), issuer, source);
        (r.Err? <==> p.Err?) && (r.Err? ==> r.error == p.error)
        && (r.Ok? ==> (r.value == null <==> p.value.None?))
        && (r.Ok? && r.value != null ==> r.value == registry.users[p.value.value])
    {
      var p := IssuerIndex(registry.Snapshot(), issuer, source);
      if p.Err? then Err(p.error) else if p.value.None? then Ok(null) else Ok(registry.users[p.value.value])
    }

    /**
     * The loop of parseCommand over the commands: each is asked whether it
     * matches until an enabled one does. Asking updates the last matcher of
     * a regex command, and changes nothing else.
     */
    method SelectCommand(command: string, order: seq<string>) returns (i: Option<nat>)
      requires forall k :: 0 <= k < |order| ==> order[k] in commands
      modifies commands.Values`lastMatcher
      ensures i == FirstMatch(old(Views(order)), command)
      ensures Views(order) == old(Views(order))
      ensures Quiet() && State() == old(State()) && registry.Snapshot() == old(registry.Snapshot())
      ensures DirectView(command) == old(DirectView(command))
      ensures forall j :: 0 <= j < Asked(i, |order|) ==>
        commands[order[j]].lastMatcher == ProbedMatcher(commands[order[j]].matcher, command, old(commands[order[j]].lastMatcher))
    {
      ghost var vs := Views(order);
      i := SelectLoop(command, order, vs);
      ViewsAre(order, vs);
    }

    /** The loop of SelectCommand, against the views vs of the order before it. */
    method SelectLoop(command: string, order: seq<string>, ghost vs: seq<CommandView>) returns (i: Option<nat>)
      requires forall k :: 0 <= k < |order| ==> order[k] in commands
      requires ViewsHold(order, vs)
      modifies commands.Values`lastMatcher
      ensures i == FirstMatch(vs, command) && ViewsHold(order, vs)
      ensures i.Some? ==> i.value < |order|
      ensures forall j :: 0 <= j < Asked(i, |order|) ==>
        commands[order[j]].lastMatcher == ProbedMatcher(commands[order[j]].matcher, command, old(commands[order[j]].lastMatcher))
    {
      for k := 0 to |order|
        invariant ViewsHold(order, vs)
        invariant forall j :: 0 <= j < k ==> !Selected(vs[j], command)
        invariant forall j :: 0 <= j < k ==>
          commands[order[j]].lastMatcher == ProbedMatcher(commands[order[j]].matcher, command, old(commands[order[j]].lastMatcher))
        invariant forall j :: 0 <= j < |order| && !commands[order[j]].matcher.Pattern? ==>
          commands[order[j]].lastMatcher == old(commands[order[j]].lastMatcher)
      {
        var b := ProbeAt(commands[order[k]], command, order, k, vs);
        if b {
          i := Some(k);
          FirstMatchIs(vs, command, k);
          return;
        }
      }
      i := None;
    }

    /** One candidate of the selection; only its matcher changes. */
    method ProbeAt(cmd: BotCommand, command: string, order: seq<string>, k: nat, ghost vs: seq<CommandView>) returns (b: bool)
      requires forall j :: 0 <= j < |order| ==> order[j] in commands
      requires k < |order| && cmd == commands[order[k]] && ViewsHold(order, vs)
      modifies cmd`lastMatcher
      ensures b == Selected(vs[k], command) && ViewsHold(order, vs)
      ensures cmd.lastMatcher == ProbedMatcher(cmd.matcher, command, old(cmd.lastMatcher))
    {
      assert cmd.View() == vs[k];
      b := Probe(cmd, command);
    }

    /** vs are the views of the commands of the order. */
    predicate ViewsHold(order: seq<string>, vs: seq<CommandView>)
      requires forall k :: 0 <= k < |order| ==> order[k] in commands
      reads this`commands, commands.Values`help, commands.Values`enabled
    {
      |vs| == |order| && forall j :: 0 <= j < |order| ==> commands[order[j]].View() == vs[j]
    }

    /** The views of the commands, read one by one, are the views of the order. */
    lemma ViewsAre(order: seq<string>, vs: seq<CommandView>)
      requires forall k :: 0 <= k < |order| ==> order[k] in commands
      requires ViewsHold(order, vs)
      ensures Views(order) == vs
    {
    }

    /* ---- help ---- */

    /** The listing loop of help: each accessible command's name followed by ", ". */
    method ListingLoop(order: seq<string>, level: int) returns (b: string)
      requires forall k :: 0 <= k < |order| ==> order[k] in commands
      ensures b == ListingBuffer(Views(order), level)
    {
      ghost var vs := Views(order);
      b := "";
      for i := 0 to |order|
        invariant b == ListingBuffer(vs[..i], level)
      {
        ListingBufferStep(vs, i, level);
        var cmd := commands[order[i]];
        assert cmd.View() == vs[i];
        if level >= cmd.level && cmd.enabled {
          b := b + (cmd.name + ", ");
        }
      }
      assert vs[..|order|] == vs;
    }

    /** The search loop of help: the last accessible command with that name, ignoring case. */
    method LastNamedLoop(order: seq<string>, level: int, name: string) returns (r: Option<nat>)
      requires forall k :: 0 <= k < |order| ==> order[k] in commands
      ensures r == LastNamed(Views(order), level, name)
    {
      ghost var vs := Views(order);
      assert ViewsHold(order, vs);
      r := None;
      for i := 0 to |order|
        invariant r == LastNamed(vs[..i], level, name)
      {
        LastNamedStep(vs, i, level, name);
        var hit := NamedAt(order, i, level, name, vs);
        if hit {
          r := Some(i);
        }
      }
      assert vs[..|order|] == vs;
    }

    /** Whether the i-th command carries the name and is accessible at level. */
    method NamedAt(order: seq<string>, i: nat, level: int, name: string, ghost vs: seq<CommandView>) returns (hit: bool)
      requires forall k :: 0 <= k < |order| ==> order[k] in commands
      requires i < |order| && ViewsHold(order, vs)
      ensures hit == (Accessible(vs[i], level) && EqualsIgnoreCase(vs[i].name, name))
    {
      var cmd := commands[order[i]];
      assert cmd.View() == vs[i];
      hit := EqualsIgnoreCase(cmd.name, name) && level >= cmd.level && cmd.enabled;
    }

    /** The same search for an anonymous issuer: it throws at the first command with that name. */
    method AnyNamedLoop(order: seq<string>, name: string) returns (b: bool)
      requires forall k :: 0 <= k < |order| ==> order[k] in commands
      ensures b == NamedIgnoringCase(Views(order), name)
    {
      ghost var vs := Views(order);
      b := false;
      var i := 0;
      while i < |order| && !b
        invariant 0 <= i <= |order|
        invariant b == NamedIgnoringCase(vs[..i], name)
        invariant b ==> NamedIgnoringCase(vs, name)
      {
        NamedStep(vs, i, name);
        var cmd := commands[order[i]];
        assert cmd.View() == vs[i];
        b := EqualsIgnoreCase(cmd.name, name);
        i := i + 1;
      }
      assert !b ==> vs[..i] == vs;
    }

    /** help [command] */
    method HelpCommand(user: User?, command: string, order: seq<string>) returns (o: Outcome)
      requires forall k :: 0 <= k < |order| ==> order[k] in commands
      ensures o == HelpOutcome(Views(order), DirectView(command), UserCommands.IssuerLevel(user), command)
    {
      var parts := Split(command, ' ');
      if |parts| == 1 {
        o := HelpListing(user, order);
      } else if |parts| > 1 && parts[1] != "" {
        o := HelpNamed(user, parts[1], order);
      } else {
        o := SyntaxError("Too many arguments");
      }
    }

    /** help without argument: the accessible names, minus the last ", ". */
    method HelpListing(user: User?, order: seq<string>) returns (o: Outcome)
      requires forall k :: 0 <= k < |order| ==> order[k] in commands
      ensures o == HelpListingOutcome(Views(order), UserCommands.IssuerLevel(user))
    {
      if user == null {
        o := if |order| > 0 then Failed(NPE) else Failed(Exception("java.lang.StringIndexOutOfBoundsException", None));
        return;
      }
      var b := ListingLoop(order, user.level);
      HelpListingOfBuffer(Views(order), user.level, b);
      if |b| < 2 {
        o := Failed(Exception("java.lang.StringIndexOutOfBoundsException", None));
      } else {
        o := Returned(TextResponse(b[..|b| - 2]));
      }
    }

    /** help <name>: the command of that full name, else the last accessible one of that name. */
    method HelpNamed(user: User?, name: string, order: seq<string>) returns (o: Outcome)
      requires forall k :: 0 <= k < |order| ==> order[k] in commands
      ensures o == HelpNamedOutcome(Views(order), NamedView(name), UserCommands.IssuerLevel(user), name)
    {
      if user == null {
        var any := AnyNamedLoop(order, name);
        o := if name in commands || any then Failed(NPE) else Returned(TextResponse("Command not found"));
      } else {
        var text := HelpText(user.level, name, order);
        o := Returned(TextResponse(text));
      }
    }

    /** The description help gives an issuer of level level. */
    method HelpText(level: int, name: string, order: seq<string>) returns (text: string)
      requires forall k :: 0 <= k < |order| ==> order[k] in commands
      ensures text == HelpFor(Views(order), NamedView(name), level, name)
    {
      var cmd: BotCommand? := null;
      if name in commands {
        cmd := commands[name];
      }
      if cmd == null || level < cmd.level || !cmd.enabled {
        var k := LastNamedLoop(order, level, name);
        LastNamedIsLast(Views(order), level, name);
        if k.Some? {
          cmd := commands[order[k.value]];
        }
      }
      if cmd == null || level < cmd.level || !cmd.enabled {
        text := "Command not found";
      } else {
        text := Describe(cmd.View());
      }
    }

    /* ---- command bodies ---- */

    /** The bodies of the Core and Utils commands. */
    method ExecuteCore(cmd: BotCommand, command: string, env: Env) returns (o: Outcome)
      requires !IsUserHandler(cmd.handler) && !IsGameHandler(cmd.handler) && cmd.handler != Help
      modifies this`lastException, this`settings, this`mtxMirror, this`xtmMirror
      ensures IsExternalHandler(cmd.handler) ==> o == env.external
      ensures cmd.handler == GetError ==> o == Returned(TextResponse(LastErrorText(old(lastException)))) && lastException == None
      ensures cmd.handler != GetError ==> lastException == old(lastException)
      ensures cmd.handler == Ping ==> o == Returned(TextResponse(PONG))
      ensures cmd.handler == Toggle ==> o == ToggleOutcome(command).1
      ensures var t := if cmd.handler == Toggle then ToggleOutcome(command).0 else None;
        (settings, xtmMirror, mtxMirror) == Toggled(t, old(settings), old(xtmMirror), old(mtxMirror))
      ensures (State(), o) == CoreStep(cmd.handler, old(State()), command, env)
    {
      if cmd.handler == GetError {
        o := GetErrorCommand();
      } else if cmd.handler == Ping {
        o := Returned(TextResponse(PONG));
      } else if cmd.handler == Toggle {
        o := ToggleCommand(command);
      } else {
        o := env.external;
      }
    }

    /** geterror: the report of the last failure, which is then forgotten. */
    method GetErrorCommand() returns (o: Outcome)
      modifies this`lastException
      ensures o == Returned(TextResponse(LastErrorText(old(lastException)))) && lastException == None
    {
      o := Returned(TextResponse(LastErrorText(lastException)));
      lastException := None;
    }

    /** toggle: the setting of the direction and its flag are updated together. */
    method ToggleCommand(command: string) returns (o: Outcome)
      modifies this`settings, this`mtxMirror, this`xtmMirror
      ensures o == ToggleOutcome(command).1
      ensures (settings, xtmMirror, mtxMirror) == Toggled(ToggleOutcome(command).0, old(settings), old(xtmMirror), old(mtxMirror))
    {
      var r := ToggleOutcome(command);
      o := r.1;
      if r.0.Some? {
        var (d, val) := r.0.value;
        settings := settings[SettingKey(d) := if val then "true" else "false"];
        if d == XmppToGame {
          xtmMirror := val;
        } else {
          mtxMirror := val;
        }
      }
    }

    /** A user command changes the registry and nothing else. */
    method UserCommand(cmd: BotCommand, user: User?, command: string, source: Source) returns (o: Outcome)
      requires Valid() && IsUserHandler(cmd.handler)
      modifies registry, registry.users
      ensures Valid()
      ensures (registry.Snapshot(), o)
        == UserStep(cmd.handler, old(registry.Snapshot()), old(UserCommands.IssuerLevel(user)), command, source, cmd.lastMatcher)
    {
      o := ExecuteUser(cmd, user, command, source);
    }

    /** The bodies of the user commands, on the registry. */
    method ExecuteUser(cmd: BotCommand, user: User?, command: string, source: Source) returns (o: Outcome)
      requires registry.Valid() && IsUserHandler(cmd.handler)
      modifies registry, registry.users
      ensures registry.Valid()
      ensures cmd.handler == UserAdd ==>
        (registry.Snapshot(), o) == UserCommands.AfterUserAdd(old(registry.Snapshot()), command)
      ensures cmd.handler == UserMod ==>
        (registry.Snapshot(), o) == UserCommands.AfterUserMod(old(registry.Snapshot()), old(UserCommands.IssuerLevel(user)), command)
      ensures cmd.handler == UserDel ==>
        (registry.Snapshot(), o) == UserCommands.AfterUserDel(old(registry.Snapshot()), command)
      ensures cmd.handler == Lookup ==>
        registry.Snapshot() == old(registry.Snapshot()) && o == UserCommands.AfterLookup(old(registry.Snapshot()), command, source)
      ensures cmd.handler == Handler.Nickname ==>
        (registry.Snapshot(), o) == UserCommands.AfterNickname(old(registry.Snapshot()), cmd.lastMatcher)
    {
      match cmd.handler
      case UserAdd =>
        o := UserCommands.UserAdd(registry, command);
      case UserMod =>
        o := UserCommands.UserMod(registry, user, command);
      case UserDel =>
        o := UserCommands.UserDel(registry, command);
      case Lookup =>
        o := UserCommands.Lookup(registry, command, source);
      case Nickname =>
        o := UserCommands.NicknameCommand(registry, cmd.GetMatcher());
    }

    /** The bodies of the game commands: their effects reach the outbox in order. */
    method ExecuteGame(cmd: BotCommand, command: string, source: Source, env: Env) returns (o: Outcome)
      requires IsGameHandler(cmd.handler)
      modifies this`outbox
      ensures (State(), o) == GameStep(cmd.handler, old(State()), command, source, env.captured, maxLines)
    {
      var body := GameBody(cmd.handler, command, source, env.captured, maxLines);
      ghost var s := State();
      ApplyEffects(body.0);
      o := body.1;
      assert State() == s.(outbox := s.outbox + EffectActions(body.0));
    }

    /* ---- parseCommand ---- */

    /**
     * parseCommand: resolve the issuer, answer "who am i", refuse a
     * chat-room issuer whose roster presence is unavailable, then run the
     * first enabled command that matches, if the level suffices. The issuer
     * lookup and the rank-name lookup of "who am i" may throw; a failing
     * body is answered with the generic failure text and recorded.
     */
    method ParseCommand(command: string, issuer: string, source: Source, order: seq<string>, env: Env)
      returns (r: Result<Response, Exception>, ghost resolved: bool, ghost level: int, ghost guard: bool,
               ghost verdict: Verdict, ghost outcome: Outcome)
      requires Valid() && Enumerates(order)
      modifies this`lastException, this`settings, this`mtxMirror, this`xtmMirror, this`outbox
      modifies registry, registry.users, commands.Values`lastMatcher
      ensures Valid() && commands == old(commands)
      ensures var p := IssuerIndex(old(registry.Snapshot()), issuer, source);
        (resolved <==> p.Ok?) && (p.Err? ==> r == Err(p.error))
      ensures var us := old(registry.Snapshot()); var p := IssuerIndex(us, issuer, source);
        p.Ok? ==> level == LevelOf(us, p.value) && guard == Guard(us, p.value, source, env.roster, env.available)
      ensures resolved ==>
        verdict == Decide(command, level, guard, old(Views(order)))
        && r == Answer(verdict, issuer, level, old(Views(order)), outcome)
      ensures !resolved || !verdict.Run? ==> Quiet()
      ensures resolved && verdict.Run? && outcome.Failed? ==> lastException == Some(outcome.exception)
      ensures resolved && verdict.Run? ==> verdict.index < |order|
      ensures resolved && verdict.Run? ==>
        var us := old(registry.Snapshot()); var p := IssuerIndex(us, issuer, source).value;
        var cmd := commands[order[verdict.index]];
        (State(), registry.Snapshot(), outcome) == RunStep(cmd.handler, old(State()), us, IssuerLevelAt(us, p), command, source, env,
                                      ProbedMatcher(cmd.matcher, command, old(cmd.lastMatcher)), old(Views(order)), old(DirectView(command)), maxLines)
    {
      ghost var us := registry.Snapshot();
      ghost var vs := Views(order);
      resolved, level, guard, verdict, outcome := false, ANON, false, Unknown, Returned(EmptyResponse());
      var found := IssuerOf(issuer, source);
      if found.Err? {
        return Err(found.error), resolved, level, guard, verdict, outcome;
      }
      resolved := true;
      var user := found.value;
      ghost var p := IssuerIndex(us, issuer, source).value;
      var lvl := if user == null then ANON else user.level;
      assert lvl == LevelOf(us, p);
      var g := source == Muc && user != null && user.jid.Some?
        && user.jid.value in env.roster && user.jid.value !in env.available;
      assert g == Guard(us, p, source, env.roster, env.available);
      level, guard := lvl, g;
      r, verdict, outcome := Respond(command, issuer, user, lvl, g, source, order, env);
    }

    /**
     * parseCommand as the message handlers see it: the exception of an
     * issuer lookup that throws, otherwise the answer to the verdict, with
     * the outcome of the body when one runs. The verdict, the answer and
     * what the body does to the state are stated on ParseCommand; the
     * handlers only route the answer.
     */
    method Command(command: string, issuer: string, source: Source, order: seq<string>, env: Env)
      returns (r: Result<Response, Exception>)
      requires Valid() && Enumerates(order)
      modifies this`lastException, this`settings, this`mtxMirror, this`xtmMirror, this`outbox
      modifies registry, registry.users, commands.Values`lastMatcher
      ensures Valid() && commands == old(commands)
      ensures var p := IssuerIndex(old(registry.Snapshot()), issuer, source);
        p.Err? ==> r == Err(p.error) && Quiet()
    {
      var res, _, _, _, _, _ := ParseCommand(command, issuer, source, order, env);
      r := res;
    }

    /** parseCommand once the issuer is known: "who am i", the roster guard, then the command loop. */
    method Respond(command: string, issuer: string, user: User?, level: int, guard: bool, source: Source, order: seq<string>, env: Env)
      returns (r: Result<Response, Exception>, ghost verdict: Verdict, ghost outcome: Outcome)
      requires Valid() && Enumerates(order)
      modifies this`lastException, this`settings, this`mtxMirror, this`xtmMirror, this`outbox
      modifies registry, registry.users, commands.Values`lastMatcher
      ensures Valid() && commands == old(commands)
      ensures verdict == Decide(command, level, guard, old(Views(order)))
      ensures r == Answer(verdict, issuer, level, old(Views(order)), outcome)
      ensures !verdict.Run? ==> Quiet()
      ensures verdict.Run? && outcome.Failed? ==> lastException == Some(outcome.exception)
      ensures verdict.Run? ==> verdict.index < |order|
      ensures verdict.Run? ==>
        var cmd := commands[order[verdict.index]];
        (State(), registry.Snapshot(), outcome) == RunStep(cmd.handler, old(State()), old(registry.Snapshot()), old(UserCommands.IssuerLevel(user)), command, source, env,
                                      ProbedMatcher(cmd.matcher, command, old(cmd.lastMatcher)), old(Views(order)), old(DirectView(command)), maxLines)
    {
      outcome := Returned(EmptyResponse());
      if WHO_AM_I <= ToLower(command) {
        verdict := WhoAmI;
        var t := WhoAmIText(issuer, level);
        r := if t.Ok? then Ok(TextResponse(t.value)) else Err(t.error);
      } else if guard {
        verdict := Impersonation;
        r := Ok(TextResponse(IMPERSONATION));
      } else {
        var resp;
        resp, verdict, outcome := Dispatch(command, user, level, source, order, env);
        r := Ok(resp);
      }
    }

    /**
     * The loop of parseCommand, once the issuer is known and neither "who
     * am i" nor the roster guard applies: the first enabled command that
     * matches runs when the level suffices.
     */
    method Dispatch(command: string, user: User?, level: int, source: Source, order: seq<string>, env: Env)
      returns (r: Response, ghost verdict: Verdict, ghost outcome: Outcome)
      requires Valid() && Enumerates(order)
      requires !(WHO_AM_I <= ToLower(command))
      modifies this`lastException, this`settings, this`mtxMirror, this`xtmMirror, this`outbox
      modifies registry, registry.users, commands.Values`lastMatcher
      ensures Valid() && commands == old(commands)
      ensures verdict == Decide(command, level, false, old(Views(order)))
      ensures verdict == Unknown ==> r == TextResponse(UNKNOWN)
      ensures verdict.Denied? ==> r == TextResponse(DeniedText(level, old(Views(order))[verdict.index].level))
      ensures !verdict.Run? ==> Quiet()
      ensures verdict.Run? ==>
        r == Classify(outcome, old(Views(order))[verdict.index].syntax)
        && (outcome.Failed? ==> lastException == Some(outcome.exception))
      ensures verdict.Run? ==> verdict.index < |order|
      ensures verdict.Run? ==>
        var cmd := commands[order[verdict.index]];
        (State(), registry.Snapshot(), outcome) == RunStep(cmd.handler, old(State()), old(registry.Snapshot()), old(UserCommands.IssuerLevel(user)), command, source, env,
                                      ProbedMatcher(cmd.matcher, command, old(cmd.lastMatcher)), old(Views(order)), old(DirectView(command)), maxLines)
    {
      ghost var vs := Views(order);
      ghost var s0 := State();
      ghost var u0 := registry.Snapshot();
      ghost var d := DirectView(command);
      ghost var lvl := UserCommands.IssuerLevel(user);
      outcome := Returned(EmptyResponse());
      var sel := SelectCommand(command, order);
      if sel.None? {
        verdict := Unknown;
        r := TextResponse(UNKNOWN);
      } else {
        var cmd := commands[order[sel.value]];
        assert cmd.View() == vs[sel.value];
        if level < cmd.level {
          verdict := Denied(sel.value);
          r := TextResponse(DeniedText(level, cmd.level));
        } else {
          verdict := Run(sel.value);
          r, outcome := RunCommand(cmd, user, command, source, order, env,
                                   s0, u0, lvl, ProbedMatcher(cmd.matcher, command, old(cmd.lastMatcher)), vs, d);
        }
      }
    }

    /**
     * The body of the chosen command; a failure is answered generically and
     * recorded as the last error. What the body reads is named as it is on
     * entry: the bot's state, the users, the issuer's level, the command's
     * matcher and what help reads of the commands.
     */
    method RunCommand(cmd: BotCommand, user: User?, command: string, source: Source, order: seq<string>, env: Env,
                      ghost s: BotState, ghost us: seq<UserData>, ghost issuer: Option<int>, ghost matcher: Option<MatchState>,
                      ghost views: seq<CommandView>, ghost direct: Option<CommandView>)
      returns (r: Response, ghost outcome: Outcome)
      requires Valid() && Enumerates(order)
      requires s == State() && us == registry.Snapshot() && issuer == UserCommands.IssuerLevel(user) && matcher == cmd.lastMatcher
      requires views == Views(order) && direct == DirectView(command)
      modifies this`lastException, this`settings, this`mtxMirror, this`xtmMirror, this`outbox, registry, registry.users
      ensures Valid() && commands == old(commands)
      ensures r == Classify(outcome, cmd.syntax)
      ensures outcome.Failed? ==> lastException == Some(outcome.exception)
      ensures (State(), registry.Snapshot(), outcome) == RunStep(cmd.handler, s, us, issuer, command, source, env, matcher, views, direct, maxLines)
    {
      ghost var b := BodyStep(cmd.handler, s, us, issuer, command, source, env, matcher, views, direct, maxLines);
      var o := Execute(cmd, user, command, source, order, env);
      outcome := o;
      assert (State(), registry.Snapshot(), o) == b;
      RecordFailure(o);
      r := Classify(o, cmd.syntax);
    }

    /** A failed body's exception becomes the last exception; nothing else changes. */
    method RecordFailure(o: Outcome)
      modifies this`lastException
      ensures State() == Recorded(old(State()), o)
      ensures registry.Snapshot() == old(registry.Snapshot())
    {
      if o.Failed? {
        lastException := Some(o.exception);
      }
    }

    /** cmd.execute: the body of the chosen command, by its group. */
    method Execute(cmd: BotCommand, user: User?, command: string, source: Source, order: seq<string>, env: Env) returns (o: Outcome)
      requires Valid() && Enumerates(order)
      modifies this`lastException, this`settings, this`mtxMirror, this`xtmMirror, this`outbox, registry, registry.users
      ensures Valid() && commands == old(commands)
      ensures IsUserHandler(cmd.handler) ==> outbox == old(outbox) && lastException == old(lastException)
      ensures !IsUserHandler(cmd.handler) ==> registry.Snapshot() == old(registry.Snapshot())
      ensures (State(), registry.Snapshot(), o)
        == BodyStep(cmd.handler, old(State()), old(registry.Snapshot()), old(UserCommands.IssuerLevel(user)), command, source, env,
                    cmd.lastMatcher, old(Views(order)), old(DirectView(command)), maxLines)
    {
      ghost var s := State();
      ghost var us := registry.Snapshot();
      if IsUserHandler(cmd.handler) {
        o := UserCommand(cmd, user, command, source);
        assert State() == s;
      } else {
        o := BotCommandBody(cmd, user, command, source, order, env);
        assert registry.Snapshot() == us;
      }
    }

    /** The other commands change the bot's own state and leave the registry alone. */
    method BotCommandBody(cmd: BotCommand, user: User?, command: string, source: Source, order: seq<string>, env: Env) returns (o: Outcome)
      requires forall k :: 0 <= k < |order| ==> order[k] in commands
      requires !IsUserHandler(cmd.handler)
      modifies this`lastException, this`settings, this`mtxMirror, this`xtmMirror, this`outbox
      ensures (State(), o) == BotStep(cmd.handler, old(State()), old(UserCommands.IssuerLevel(user)), command, source, env,
                                      old(Views(order)), old(DirectView(command)), maxLines)
    {
      ghost var s := State();
      if IsGameHandler(cmd.handler) {
        o := ExecuteGame(cmd, command, source, env);
      } else if cmd.handler == Help {
        o := HelpCommand(user, command, order);
        assert State() == s;
      } else {
        o := ExecuteCore(cmd, command, env);
      }
    }

    /* ---- routing ---- */

    /** The routing of onMessage, after the command ran. */
    method RouteGame(mirror: string, resp: Response, env: Env)
      modifies this`outbox
      ensures outbox == old(outbox) +
        GameRoute(if resp.resume && mtxMirror then Some(mirror) else None, resp.text, TargetOf(resp.user), resp.both, maxLen, env.online)
    {
      var mirrored := if resp.resume && mtxMirror then Some(mirror) else None;
      ghost var start := outbox;
      MirrorInRoom(mirrored, env);
      AnswerInGame(resp.text, resp.user, resp.both, env);
      assert mtxMirror == old(mtxMirror);
      AppendAssoc(start, GameMirror(mirrored, maxLen, env.online), GameAnswer(resp.text, TargetOf(resp.user), resp.both, maxLen, env.online));
    }

    method MirrorInRoom(mirror: Option<string>, env: Env)
      modifies this`outbox
      ensures outbox == old(outbox) + GameMirror(mirror, maxLen, env.online)
    {
      if mirror.Some? {
        MucMessage(mirror.value, env);
      }
    }

    method MirrorInGame(mirror: Option<string>)
      modifies this`outbox
      ensures outbox == old(outbox) + RoomMirror(mirror)
    {
      if mirror.Some? {
        GameMessage(mirror.value);
      }
    }

    /** The answer part of onMessage's routing. */
    method AnswerInGame(text: Option<string>, user: User?, both: bool, env: Env)
      modifies this`outbox
      ensures outbox == old(outbox) + GameAnswer(text, TargetOf(user), both, maxLen, env.online)
    {
      if text.Some? {
        if user != null {
          var _ := Tell(user, text.value, true, env);
        } else {
          ghost var c := if both then ToRoom(text.value, maxLen, env.online) else [];
          if both {
            MucMessage(text.value, env);
          }
          assert outbox == old(outbox) + c;
          GameMessage(text.value);
          AppendAssoc(old(outbox), c, Broadcast(text.value));
        }
      }
    }

    /** The routing of processPacket, after the command ran. */
    method RouteRoom(mirror: string, resp: Response, env: Env)
      modifies this`outbox
      ensures outbox == old(outbox) +
        RoomRoute(if resp.resume && xtmMirror then Some(mirror) else None, resp.text, TargetOf(resp.user), resp.both, maxLen, env.online)
    {
      var mirrored := if resp.resume && xtmMirror then Some(mirror) else None;
      ghost var start := outbox;
      MirrorInGame(mirrored);
      AnswerInRoom(resp.text, resp.user, resp.both, env);
      assert xtmMirror == old(xtmMirror);
      AppendAssoc(start, RoomMirror(mirrored), RoomAnswer(resp.text, TargetOf(resp.user), resp.both, maxLen, env.online));
    }

    /** The answer part of processPacket's routing. */
    method AnswerInRoom(text: Option<string>, user: User?, both: bool, env: Env)
      modifies this`outbox
      ensures outbox == old(outbox) + RoomAnswer(text, TargetOf(user), both, maxLen, env.online)
    {
      if text.Some? {
        if user != null {
          var _ := Tell(user, text.value, false, env);
        } else {
          ghost var b := if both then Broadcast(text.value) else [];
          if both {
            GameMessage(text.value);
          }
          assert outbox == old(outbox) + b;
          MucMessage(text.value, env);
          AppendAssoc(old(outbox), b, ToRoom(text.value, maxLen, env.online));
        }
      }
    }

    /**
     * onMessage: a game chat line. A line addressed to the bot runs as a
     * command of the game source and is routed; any other line is mirrored
     * to the room when game-to-chat mirroring is on.
     */
    method OnMessage(username: string, message: string, order: seq<string>, env: Env)
      returns (failure: Option<Exception>, ghost parsed: Option<Result<Response, Exception>>, ghost mid: seq<Action>)
      requires Valid() && Enumerates(order)
      modifies this`lastException, this`settings, this`mtxMirror, this`xtmMirror, this`outbox
      modifies registry, registry.users, commands.Values`lastMatcher
      ensures Valid() && commands == old(commands)
      ensures var them := GameToXmppOf(old(registry.Snapshot()), username);
        var mirror := MirrorText(if them.None? then username else them.value, message);
        && (CommandGroup(nick, message).None? ==>
             parsed.None? && failure.None? && mtxMirror == old(mtxMirror)
             && outbox == old(outbox) + (if mtxMirror then ToRoom(mirror, maxLen, env.online) else []))
        && (CommandGroup(nick, message).Some? ==> parsed.Some?)
        && (parsed.Some? && parsed.value.Err? ==> failure == Some(parsed.value.error) && outbox == mid)
        && (parsed.Some? && parsed.value.Ok? ==>
             var resp := parsed.value.value;
             failure.None? && outbox == mid + GameRoute(if resp.resume && mtxMirror then Some(mirror) else None,
                                       resp.text, TargetOf(resp.user), resp.both, maxLen, env.online))
    {
      var them := registry.GameToXmpp(username);
      var mirror := MirrorText(if them.None? then username else them.value, message);
      failure, parsed, mid := None, None, outbox;
      var g := CommandGroup(nick, message);
      if g.None? {
        MirrorInRoom(if mtxMirror then Some(mirror) else None, env);
        assert mtxMirror == old(mtxMirror);
      } else {
        var f, r, m := GameCommand(g.value, username, mirror, order, env);
        failure, parsed, mid := f, Some(r), m;
      }
    }

    /** onMessage for a line addressed to the bot: the command runs, then its answer is routed. */
    method GameCommand(command: string, issuer: string, mirror: string, order: seq<string>, env: Env)
      returns (failure: Option<Exception>, ghost parsed: Result<Response, Exception>, ghost mid: seq<Action>)
      requires Valid() && Enumerates(order)
      modifies this`lastException, this`settings, this`mtxMirror, this`xtmMirror, this`outbox
      modifies registry, registry.users, commands.Values`lastMatcher
      ensures Valid() && commands == old(commands)
      ensures parsed.Err? ==> failure == Some(parsed.error) && outbox == mid
      ensures parsed.Ok? ==>
        var resp := parsed.value;
        failure.None? && outbox == mid + GameRoute(if resp.resume && mtxMirror then Some(mirror) else None,
                                  resp.text, TargetOf(resp.user), resp.both, maxLen, env.online)
    {
      var r := Command(command, issuer, Game, order, env);
      parsed, mid := r, outbox;
      if r.Err? {
        failure := Some(r.error);
      } else {
        failure := None;
        RouteGame(mirror, r.value, env);
      }
    }

    /**
     * processPacket: a chat-room packet. The bot's own messages, delayed
     * (backlog) packets and packets that are not messages are ignored. The
     * sender's nickname is the resource of its address; a missing resource
     * or body throws.
     */
    method ProcessPacket(p: Packet, order: seq<string>, env: Env)
      returns (failure: Option<Exception>, ghost parsed: Option<Result<Response, Exception>>, ghost mid: seq<Action>)
      requires Valid() && Enumerates(order)
      modifies this`lastException, this`settings, this`mtxMirror, this`xtmMirror, this`outbox
      modifies registry, registry.users, commands.Values`lastMatcher
      ensures Valid() && commands == old(commands)
      ensures p.from == jid || p.delayed || !p.isMessage ==> failure.None? && parsed.None? && outbox == old(outbox)
      ensures !(p.from == jid || p.delayed || !p.isMessage) && |Split(p.from, '/')| < 2 ==>
        failure == Some(IndexOutOfBounds(1)) && parsed.None? && outbox == old(outbox)
      ensures !(p.from == jid || p.delayed || !p.isMessage) && |Split(p.from, '/')| >= 2 && p.body.None? ==>
        failure == Some(NPE) && parsed.None? && outbox == old(outbox)
      ensures !(p.from == jid || p.delayed || !p.isMessage) && |Split(p.from, '/')| >= 2 && p.body.Some? ==>
        var name := Split(p.from, '/')[1];
        var them := XmppToGameOf(old(registry.Snapshot()), name);
        var mirror := MirrorText(if them.None? then name else them.value, p.body.value);
        && (CommandGroup(nick, p.body.value).None? ==>
             parsed.None? && failure.None? && xtmMirror == old(xtmMirror)
             && outbox == old(outbox) + (if xtmMirror then Broadcast(mirror) else []))
        && (CommandGroup(nick, p.body.value).Some? ==> parsed.Some?)
        && (parsed.Some? && parsed.value.Err? ==> failure == Some(parsed.value.error) && outbox == mid)
        && (parsed.Some? && parsed.value.Ok? ==>
             var resp := parsed.value.value;
             failure.None? && outbox == mid + RoomRoute(if resp.resume && xtmMirror then Some(mirror) else None,
                                       resp.text, TargetOf(resp.user), resp.both, maxLen, env.online))
    {
      failure, parsed, mid := None, None, outbox;
      if p.from == jid || p.delayed || !p.isMessage {
        return;
      }
      var parts := Split(p.from, '/');
      if |parts| < 2 {
        failure := Some(IndexOutOfBounds(1));
        return;
      }
      var name := parts[1];
      if p.body.None? {
        failure := Some(NPE);
        return;
      }
      failure, parsed, mid := RoomLine(name, p.body.value, order, env);
    }

    /** processPacket once the sender's nickname and the body are known: a command or a mirrored line. */
    method RoomLine(name: string, body: string, order: seq<string>, env: Env)
      returns (failure: Option<Exception>, ghost parsed: Option<Result<Response, Exception>>, ghost mid: seq<Action>)
      requires Valid() && Enumerates(order)
      modifies this`lastException, this`settings, this`mtxMirror, this`xtmMirror, this`outbox
      modifies registry, registry.users, commands.Values`lastMatcher
      ensures Valid() && commands == old(commands)
      ensures var them := XmppToGameOf(old(registry.Snapshot()), name);
        var mirror := MirrorText(if them.None? then name else them.value, body);
        && (CommandGroup(nick, body).None? ==>
             parsed.None? && failure.None? && xtmMirror == old(xtmMirror)
             && outbox == old(outbox) + (if xtmMirror then Broadcast(mirror) else []))
        && (CommandGroup(nick, body).Some? ==> parsed.Some?)
        && (parsed.Some? && parsed.value.Err? ==> failure == Some(parsed.value.error) && outbox == mid)
        && (parsed.Some? && parsed.value.Ok? ==>
             var resp := parsed.value.value;
             failure.None? && outbox == mid + RoomRoute(if resp.resume && xtmMirror then Some(mirror) else None,
                                       resp.text, TargetOf(resp.user), resp.both, maxLen, env.online))
    {
      failure, parsed, mid := None, None, outbox;
      var them := registry.XmppToGame(name);
      var mirror := MirrorText(if them.None? then name else them.value, body);
      var g := CommandGroup(nick, body);
      if g.None? {
        MirrorInGame(if xtmMirror then Some(mirror) else None);
        assert xtmMirror == old(xtmMirror);
      } else {
        var f, r, m := RoomCommand(g.value, name, mirror, order, env);
        failure, parsed, mid := f, Some(r), m;
      }
    }

    /** processPacket for a line addressed to the bot: the command runs, then its answer is routed. */
    method RoomCommand(command: string, issuer: string, mirror: string, order: seq<string>, env: Env)
      returns (failure: Option<Exception>, ghost parsed: Result<Response, Exception>, ghost mid: seq<Action>)
      requires Valid() && Enumerates(order)
      modifies this`lastException, this`settings, this`mtxMirror, this`xtmMirror, this`outbox
      modifies registry, registry.users, commands.Values`lastMatcher
      ensures Valid() && commands == old(commands)
      ensures parsed.Err? ==> failure == Some(parsed.error) && outbox == mid
      ensures parsed.Ok? ==>
        var resp := parsed.value;
        failure.None? && outbox == mid + RoomRoute(if resp.resume && xtmMirror then Some(mirror) else None,
                                  resp.text, TargetOf(resp.user), resp.both, maxLen, env.online)
    {
      var r := Command(command, issuer, Muc, order, env);
      parsed, mid := r, outbox;
      if r.Err? {
        failure := Some(r.error);
      } else {
        failure := None;
        RouteRoom(mirror, r.value, env);
      }
    }

    /**
     * processMessage: a private chat message. The whole body is the command
     * unless it is addressed to the bot; the answer goes back to the chat.
     */
    method ProcessMessage(from: string, body: Option<string>, order: seq<string>, env: Env)
      returns (failure: Option<Exception>, ghost parsed: Option<Result<Response, Exception>>, ghost mid: seq<Action>)
      requires Valid() && Enumerates(order)
      modifies this`lastException, this`settings, this`mtxMirror, this`xtmMirror, this`outbox
      modifies registry, registry.users, commands.Values`lastMatcher
      ensures Valid() && commands == old(commands)
      ensures body.None? ==> failure.None? && parsed.None? && outbox == old(outbox)
      ensures body.Some? ==> parsed.Some?
      ensures parsed.Some? && parsed.value.Err? ==> failure == Some(parsed.value.error) && outbox == mid
      ensures parsed.Some? && parsed.value.Ok? ==>
        failure.None? && outbox == mid + (if parsed.value.value.text.Some? then [ChatSend(parsed.value.value.text.value)] else [])
    {
      failure, parsed, mid := None, None, outbox;
      if body.None? {
        return;
      }
      var g := CommandGroup(nick, body.value);
      var command := if g.Some? then g.value else body.value;
      var r := Command(command, from, Pm, order, env);
      parsed, mid := Some(r), outbox;
      if r.Err? {
        failure := Some(r.error);
        return;
      }
      if r.value.text.Some? {
        outbox := outbox + [ChatSend(r.value.text.value)];
      }
    }

    /* ---- game events ---- */

    /** onJoinLeft: mirrored only when game-to-chat mirroring is on. */
    method OnJoinLeft(username: string, joined: bool, env: Env)
      modifies this`outbox
      ensures outbox == old(outbox) +
        (if mtxMirror then ToRoom(JoinLeftText(username, GameToXmppOf(registry.Snapshot(), username), joined), maxLen, env.online) else [])
    {
      var nickname := registry.GameToXmpp(username);
      if mtxMirror {
        MucMessage(JoinLeftText(username, nickname, joined), env);
      }
    }

    /** onAchievement: the player is named by chat nickname when linked. */
    method OnAchievement(username: string, achievement: string, env: Env)
      modifies this`outbox
      ensures var them := GameToXmppOf(registry.Snapshot(), username);
        outbox == old(outbox) +
        (if mtxMirror then ToRoom(AchievementText(if them.None? then username else them.value, achievement), maxLen, env.online) else [])
    {
      var them := registry.GameToXmpp(username);
      if mtxMirror {
        MucMessage(AchievementText(if them.None? then username else them.value, achievement), env);
      }
    }

    /** onDeath */
    method OnDeath(username: string, death: string, env: Env)
      modifies this`outbox
      ensures outbox == old(outbox) + (if mtxMirror then ToRoom(DeathText(username, death), maxLen, env.online) else [])
    {
      if mtxMirror {
        MucMessage(DeathText(username, death), env);
      }
    }

    /**
     * onLog: a server log line that no other pattern recognised. A player
     * UUID line registers the player with that UUID; a line starting
     * with "Done" announces that the server is up.
     */
    method OnLog(line: string, env: Env)
      requires Valid()
      modifies this`outbox, registry, registry.users
      ensures Valid()
      ensures UuidMatch(line).Some? ==>
        outbox == old(outbox) && registry.Snapshot() == AfterRegisterFromGame(old(registry.Snapshot()), UuidMatch(line).value.0, Some(UuidMatch(line).value.1)).0
      ensures UuidMatch(line).None? ==>
        registry.Snapshot() == old(registry.Snapshot()) && outbox == old(outbox) + (if "Done" <= line then ToRoom(STARTED, maxLen, env.online) else [])
    {
      var m := UuidMatch(line);
      if m.Some? {
        var _ := registry.RegisterFromGame(m.value.0, Some(m.value.1));
      } else if "Done" <= line {
        MucMessage(STARTED, env);
      }
    }

    /** onExit: the farewell; saving the settings and closing the connection are not modelled. */
    method OnExit(env: Env)
      modifies this`outbox
      ensures outbox == old(outbox) + ToRoom(LEAVING, maxLen, env.online)
    {
      MucMessage(LEAVING, env);
    }
  }
}
