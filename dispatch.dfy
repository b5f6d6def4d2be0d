/**
 * The decisions of ChatBot.parseCommand, as values: whose level applies,
 * the "who am i" bypass, the impersonation guard, which registered command
 * runs, and how a command's outcome becomes the answer. Also the bodies of
 * the core commands help, toggle and geterror, which read or write the
 * bot's own fields.
 */
module Dispatch {
  import opened Wrappers
  import opened Text
  import opened Registry
  import opened Commands

  const WHO_AM_I := "who am i"
  const IMPERSONATION := "You really do think I'm stupider than you, don't you ?"
  const UNKNOWN := "Do I have to underclock my processor to human level to understand this command ? I got nothing in my registry"
  const ANON_DENIED := "... Who even are you ? Actually, I don't care."
  const SYNTAX_PREFIX := "You messed up the syntax. You incapable. "
  const GENERIC_FAILURE := "It seems something went wrong. Oh well, too bad."
  const PONG := "Yes ?"

  /** What parseCommand decides before any command body runs. */
  datatype Verdict =
    | WhoAmI
    | Impersonation
    | Run(index: nat)      // the command at this position runs
    | Denied(index: nat)   // the command at this position matched, the level is too low
    | Unknown

  /** The issuer's position in the registry, looked up in the namespace of the source. */
  function IssuerIndex(us: seq<UserData>, issuer: string, source: Source): Result<Option<nat>, Exception>
  {
    match source
    case Game => Ok(ByGamename(us, issuer))
    case Muc => Ok(ByNickname(us, issuer))
    case Pm => ByJid(us, issuer)
  }

  /** The level of the resolved issuer; an unknown issuer is anonymous. */
  function LevelOf(us: seq<UserData>, p: Option<nat>): int
    requires p.Some? ==> p.value < |us|
  {
    if p.None? then ANON else us[p.value].level
  }

  /** The level a command body sees: none for an unknown issuer. */
  function IssuerLevelAt(us: seq<UserData>, p: Option<nat>): Option<int>
    requires p.Some? ==> p.value < |us|
  {
    if p.None? then None else Some(us[p.value].level)
  }

  /**
   * The impersonation guard: a chat-room issuer whose JID is in the bot's
   * roster but whose presence is not available.
   */
  predicate Guard(us: seq<UserData>, p: Option<nat>, source: Source, roster: set<string>, available: set<string>) {
    source == Muc && p.Some? && p.value < |us| && us[p.value].jid.Some?
    && us[p.value].jid.value in roster && us[p.value].jid.value !in available
  }

  /** A command is a candidate when it accepts the input and is enabled. */
  predicate Selected(v: CommandView, s: string) {
    Accepts(v.matcher, s) && v.enabled
  }

  /** The first candidate in iteration order. */
  function FirstMatch(views: seq<CommandView>, s: string): (r: Option<nat>)
    ensures r.Some? ==> r.value < |views| && Selected(views[r.value], s)
    ensures r.Some? ==> forall j :: 0 <= j < r.value ==> !Selected(views[j], s)
    ensures r.None? ==> forall j :: 0 <= j < |views| ==> !Selected(views[j], s)
  {
    if views == [] then None
    else if Selected(views[0], s) then Some(0)
    else
      match FirstMatch(views[1..], s)
      case None => None
      case Some(i) => Some(i + 1)
  }

  /** The decision of parseCommand for an input, the issuer's level and the guard. */
  function Decide(command: string, level: int, guard: bool, views: seq<CommandView>): (v: Verdict)
    ensures v == WhoAmI <==> WHO_AM_I <= ToLower(command)
    ensures v == Impersonation <==> !(WHO_AM_I <= ToLower(command)) && guard
    ensures v.Run? ==> v.index < |views| && Selected(views[v.index], command) && level >= views[v.index].level
    ensures v.Denied? ==> v.index < |views| && Selected(views[v.index], command) && level < views[v.index].level
    ensures (v.Run? || v.Denied?) ==> forall j :: 0 <= j < v.index ==> !Selected(views[j], command)
    ensures v.Run? || v.Denied? || v.Unknown? ==> !(WHO_AM_I <= ToLower(command)) && !guard
    ensures v.Unknown? <==> !(WHO_AM_I <= ToLower(command)) && !guard && forall j :: 0 <= j < |views| ==> !Selected(views[j], command)
  {
    if WHO_AM_I <= ToLower(command) then WhoAmI
    else if guard then Impersonation
    else
      match FirstMatch(views, command)
      case None => Unknown
      case Some(i) => if level >= views[i].level then Run(i) else Denied(i)
  }

  /** For an enabled command that matches first, its body runs exactly when the level suffices. */
  lemma RunIffLevel(command: string, level: int, views: seq<CommandView>, i: nat)
    requires !(WHO_AM_I <= ToLower(command))
    requires i < |views| && Selected(views[i], command)
    requires forall j :: 0 <= j < i ==> !Selected(views[j], command)
    ensures Decide(command, level, false, views) == Run(i) <==> level >= views[i].level
    ensures Decide(command, level, false, views) == Denied(i) <==> level < views[i].level
  {
    FirstMatchIs(views, command, i);
  }

  lemma FirstMatchIs(views: seq<CommandView>, s: string, i: nat)
    requires i < |views| && Selected(views[i], s)
    requires forall j :: 0 <= j < i ==> !Selected(views[j], s)
    ensures FirstMatch(views, s) == Some(i)
  {
  }

  /**
   * The map's iteration order does not matter when at most one enabled
   * command accepts the input: any order of the same commands picks the
   * same command, or none.
   */
  lemma FirstMatchOrderIndependent(views: seq<CommandView>, others: seq<CommandView>, s: string)
    requires multiset(views) == multiset(others)
    requires forall i, j :: 0 <= i < |views| && 0 <= j < |views| && Selected(views[i], s) && Selected(views[j], s) ==> views[i] == views[j]
    ensures FirstMatch(views, s).None? <==> FirstMatch(others, s).None?
    ensures FirstMatch(views, s).Some? ==> views[FirstMatch(views, s).value] == others[FirstMatch(others, s).value]
  {
    var a, b := FirstMatch(views, s), FirstMatch(others, s);
    if a.Some? {
      var v := views[a.value];
      assert v in multiset(others);
      var k :| 0 <= k < |others| && others[k] == v;
      assert b.Some?;
    }
    if b.Some? {
      var w := others[b.value];
      assert w in multiset(views);
      var k :| 0 <= k < |views| && views[k] == w;
      assert Selected(views[k], s);
      assert a.Some?;
      assert views[a.value] == w;
    }
  }

  /** The "who am i" answer; a level past the last rank name makes the lookup throw. */
  function WhoAmIText(issuer: string, level: int): (r: Result<string, Exception>)
    ensures r.Err? <==> level >= |RANK_NAMES|
    ensures r.Ok? && level >= 0 ==> r.value == "You are " + issuer + ", " + RANK_NAMES[level] + " (" + IntToString(level) + "). How do you manage to forget that ?"
    ensures r.Ok? && level < 0 ==> r.value == "You are " + issuer + ", Anon (" + IntToString(level) + "). How do you manage to forget that ?"
  {
    if level >= |RANK_NAMES| then Err(IndexOutOfBounds(level))
    else Ok("You are " + issuer + ", " + (if level >= 0 then RANK_NAMES[level] else "Anon") + " (" + IntToString(level) + "). How do you manage to forget that ?")
  }

  /** The refusal for a matched command the issuer may not run. */
  function DeniedText(level: int, required: int): string
  {
    if level >= 0 then
      "Oh would you look at you, trying to play " + (if required > OP then "admin" else "operator") + ". Hilarious."
    else ANON_DENIED
  }

  /** The answer parseCommand gives for a body's outcome. */
  function Classify(o: Outcome, syntax: string): Response
  {
    match o
    case Returned(resp) => resp
    case SyntaxError(m) => TextResponse(SYNTAX_PREFIX + m + "\n" + syntax)
    case Failed(_) => TextResponse(GENERIC_FAILURE)
  }

  /** The answer of parseCommand for each verdict; a body's outcome only matters when it ran. */
  function Answer(v: Verdict, issuer: string, level: int, views: seq<CommandView>, o: Outcome): Result<Response, Exception>
    requires (v.Run? || v.Denied?) ==> v.index < |views|
  {
    match v
    case WhoAmI =>
      var t := WhoAmIText(issuer, level);
      if t.Ok? then Ok(TextResponse(t.value)) else Err(t.error)
    case Impersonation => Ok(TextResponse(IMPERSONATION))
    case Unknown => Ok(TextResponse(UNKNOWN))
    case Denied(i) => Ok(TextResponse(DeniedText(level, views[i].level)))
    case Run(i) => Ok(Classify(o, views[i].syntax))
  }

  /** A syntax error names the command's syntax at the end of its answer. */
  lemma SyntaxErrorEndsWithSyntax(m: string, syntax: string)
    ensures var t := Classify(SyntaxError(m), syntax).text.value;
      |t| >= |syntax| + 1 && t[|t| - |syntax|..] == syntax && t[|t| - |syntax| - 1] == '\n'
  {
    var t := Classify(SyntaxError(m), syntax).text.value;
    assert t == (SYNTAX_PREFIX + m) + "\n" + syntax;
  }

  /* ---- help ---- */

  predicate Accessible(v: CommandView, level: int) {
    level >= v.level && v.enabled
  }

  /** The names of the commands the issuer may run, in iteration order. */
  function AccessibleNames(views: seq<CommandView>, level: int): (r: seq<string>)
    ensures |r| <= |views|
  {
    if views == [] then []
    else (if Accessible(views[0], level) then [views[0].name] else []) + AccessibleNames(views[1..], level)
  }

  /** The listing names exactly the commands the issuer may run. */
  lemma {:induction false} AccessibleNamesExact(views: seq<CommandView>, level: int)
    ensures var r := AccessibleNames(views, level);
      forall j :: 0 <= j < |views| && Accessible(views[j], level) ==> views[j].name in r
    ensures var r := AccessibleNames(views, level);
      forall x :: x in r ==> exists j :: 0 <= j < |views| && Accessible(views[j], level) && views[j].name == x
  {
    if views != [] {
      var rest := AccessibleNames(views[1..], level);
      AccessibleNamesExact(views[1..], level);
      var r := AccessibleNames(views, level);
      assert forall j :: 1 <= j < |views| ==> views[j] == views[1..][j - 1];
      forall x | x in r
        ensures exists j :: 0 <= j < |views| && Accessible(views[j], level) && views[j].name == x
      {
        if x in rest {
          var j :| 0 <= j < |views[1..]| && Accessible(views[1..][j], level) && views[1..][j].name == x;
          assert views[j + 1] == views[1..][j];
        } else {
          assert Accessible(views[0], level) && views[0].name == x;
        }
      }
    }
  }

  /** What the StringBuilder holds after the listing loop: each accessible name followed by ", ". */
  function ListingBuffer(views: seq<CommandView>, level: int): string {
    if views == [] then ""
    else
      var last := views[|views| - 1];
      ListingBuffer(views[..|views| - 1], level) + (if Accessible(last, level) then last.name + ", " else "")
  }

  /** One more command of the listing loop appends its name when the issuer may run it. */
  lemma ListingBufferStep(views: seq<CommandView>, i: nat, level: int)
    requires i < |views|
    ensures ListingBuffer(views[..i + 1], level) ==
      ListingBuffer(views[..i], level) + (if Accessible(views[i], level) then views[i].name + ", " else "")
  {
    assert views[..i + 1][..i] == views[..i];
  }

  /** The listing, once its last two characters are deleted; deleting from an empty buffer throws. */
  function Listing(views: seq<CommandView>, level: int): Result<string, Exception> {
    var b := ListingBuffer(views, level);
    if |b| < 2 then Err(Exception("java.lang.StringIndexOutOfBoundsException", None))
    else Ok(b[..|b| - 2])
  }

  lemma {:induction false} ListingBufferIsJoin(views: seq<CommandView>, level: int)
    ensures |AccessibleNames(views, level)| == 0 ==> ListingBuffer(views, level) == ""
    ensures |AccessibleNames(views, level)| > 0 ==>
      ListingBuffer(views, level) == Join(AccessibleNames(views, level), ", ") + ", "
    decreases |views|
  {
    if views != [] {
      var init := views[..|views| - 1];
      var last := views[|views| - 1];
      ListingBufferIsJoin(init, level);
      AccessibleNamesSnoc(init, last, level);
      assert views == init + [last];
      var names := AccessibleNames(init, level);
      assert ListingBuffer(init, level) == if |names| == 0 then "" else Join(names, ", ") + ", ";
      if Accessible(last, level) {
        assert ListingBuffer(views, level) == ListingBuffer(init, level) + (last.name + ", ");
        assert AccessibleNames(views, level) == names + [last.name];
        TerminatedJoinSnoc(names, last.name, ", ");
      } else {
        assert ListingBuffer(views, level) == ListingBuffer(init, level);
        assert AccessibleNames(views, level) == names;
      }
    }
  }

  lemma {:induction false} AccessibleNamesSnoc(init: seq<CommandView>, last: CommandView, level: int)
    ensures AccessibleNames(init + [last], level) ==
      AccessibleNames(init, level) + (if Accessible(last, level) then [last.name] else [])
    decreases |init|
  {
    if init != [] {
      assert (init + [last])[1..] == init[1..] + [last];
      AccessibleNamesSnoc(init[1..], last, level);
    } else {
      assert ([] + [last])[1..] == [];
    }
  }

  /** help with no argument lists the names the issuer may run, separated by ", ". */
  lemma ListingIsJoin(views: seq<CommandView>, level: int)
    ensures Listing(views, level).Ok? <==> |AccessibleNames(views, level)| > 0
    ensures Listing(views, level).Ok? ==> Listing(views, level).value == Join(AccessibleNames(views, level), ", ")
  {
    ListingBufferIsJoin(views, level);
    var names := AccessibleNames(views, level);
    if |names| > 0 {
      var j := Join(names, ", ");
      assert ListingBuffer(views, level) == j + ", ";
      assert (j + ", ")[..|j|] == j;
    }
  }

  /** The last command, in iteration order, that the issuer may run and whose name equals the argument ignoring case. */
  function LastNamed(views: seq<CommandView>, level: int, name: string): (r: Option<nat>)
    ensures r.Some? ==> r.value < |views|
  {
    if views == [] then None
    else
      var k := |views| - 1;
      if Accessible(views[k], level) && EqualsIgnoreCase(views[k].name, name) then Some(k)
      else LastNamed(views[..k], level, name)
  }

  /** The search finds the last accessible command of that name, and finds none only when there is none. */
  lemma {:induction false} LastNamedIsLast(views: seq<CommandView>, level: int, name: string)
    ensures var r := LastNamed(views, level, name);
      r.Some? ==> Accessible(views[r.value], level) && EqualsIgnoreCase(views[r.value].name, name)
    ensures var r := LastNamed(views, level, name);
      r.Some? ==> forall j :: r.value < j < |views| ==> !(Accessible(views[j], level) && EqualsIgnoreCase(views[j].name, name))
    ensures LastNamed(views, level, name).None? ==>
      forall j :: 0 <= j < |views| ==> !(Accessible(views[j], level) && EqualsIgnoreCase(views[j].name, name))
  {
    if views != [] {
      var k := |views| - 1;
      if !(Accessible(views[k], level) && EqualsIgnoreCase(views[k].name, name)) {
        var init := views[..k];
        LastNamedIsLast(init, level, name);
        assert forall j :: 0 <= j < k ==> init[j] == views[j];
      }
    }
  }

  /** One more command of the search loop replaces the result when it qualifies. */
  lemma LastNamedStep(views: seq<CommandView>, i: nat, level: int, name: string)
    requires i < |views|
    ensures LastNamed(views[..i + 1], level, name) ==
      if Accessible(views[i], level) && EqualsIgnoreCase(views[i].name, name) then Some(i) else LastNamed(views[..i], level, name)
  {
    assert views[..i + 1][..i] == views[..i];
  }

  /** The syntax of a command, with its help text when it has one. */
  function Describe(v: CommandView): string {
    if v.help.Some? then v.syntax + " : " + v.help.value else v.syntax
  }

  /**
   * help <name> for a known issuer: the command registered under that full
   * name if the issuer may run it, else the last one so named ignoring case.
   */
  function HelpFor(views: seq<CommandView>, direct: Option<CommandView>, level: int, name: string): string
  {
    if direct.Some? && Accessible(direct.value, level) then Describe(direct.value)
    else match LastNamed(views, level, name)
      case Some(i) => Describe(views[i])
      case None => "Command not found"
  }

  predicate NamedIgnoringCase(views: seq<CommandView>, name: string) {
    exists j :: 0 <= j < |views| && EqualsIgnoreCase(views[j].name, name)
  }

  /** The search grows one command at a time; a name found in a prefix is found in the whole. */
  lemma NamedStep(views: seq<CommandView>, i: nat, name: string)
    requires i < |views|
    ensures NamedIgnoringCase(views[..i + 1], name) <==> NamedIgnoringCase(views[..i], name) || EqualsIgnoreCase(views[i].name, name)
    ensures NamedIgnoringCase(views[..i + 1], name) ==> NamedIgnoringCase(views, name)
  {
    var p := views[..i + 1];
    if NamedIgnoringCase(p, name) {
      var j :| 0 <= j < |p| && EqualsIgnoreCase(p[j].name, name);
      assert views[j] == p[j];
      if j < i {
        assert views[..i][j] == p[j];
      }
    }
    if NamedIgnoringCase(views[..i], name) {
      var j :| 0 <= j < i && EqualsIgnoreCase(views[..i][j].name, name);
      assert p[j] == views[..i][j];
    }
    if EqualsIgnoreCase(views[i].name, name) {
      assert p[i] == views[i];
    }
  }

  /**
   * help without argument. An anonymous issuer (no user object) makes the
   * first read of its level throw a NullPointerException; with no command
   * at all, the deletion from the empty buffer throws instead.
   */
  function HelpListingOutcome(views: seq<CommandView>, level: Option<int>): (o: Outcome)
    ensures level.None? ==> o.Failed?
    ensures level.Some? && |AccessibleNames(views, level.value)| > 0 ==>
      o == Returned(TextResponse(Join(AccessibleNames(views, level.value), ", ")))
    ensures level.Some? && |AccessibleNames(views, level.value)| == 0 ==> o.Failed?
  {
    if level.None? then
      if |views| > 0 then Failed(NPE) else Failed(Exception("java.lang.StringIndexOutOfBoundsException", None))
    else
      ListingIsJoin(views, level.value);
      match Listing(views, level.value)
      case Err(e) => Failed(e)
      case Ok(t) => Returned(TextResponse(t))
  }

  /** The listing outcome of a known issuer, read off the buffer the listing loop built. */
  lemma HelpListingOfBuffer(views: seq<CommandView>, level: int, b: string)
    requires b == ListingBuffer(views, level)
    ensures HelpListingOutcome(views, Some(level))
      == if |b| < 2 then Failed(Exception("java.lang.StringIndexOutOfBoundsException", None)) else Returned(TextResponse(b[..|b| - 2]))
  {
  }

  /**
   * help <name>. For an anonymous issuer the level is read, and throws, as
   * soon as a command of that name is found; when none is, the answer is
   * that the command is not found.
   */
  function HelpNamedOutcome(views: seq<CommandView>, direct: Option<CommandView>, level: Option<int>, name: string): Outcome
  {
    if level.None? then
      if direct.Some? || NamedIgnoringCase(views, name) then Failed(NPE)
      else Returned(TextResponse("Command not found"))
    else Returned(TextResponse(HelpFor(views, direct, level.value, name)))
  }

  /** The outcome of help: the listing, the description of one command, or a syntax error. */
  function HelpOutcome(views: seq<CommandView>, direct: Option<CommandView>, level: Option<int>, command: string): (o: Outcome)
    ensures o.Returned? ==> o.response.text.Some? && o.response.user == null && o.response.resume && o.response.both
    ensures |Split(command, ' ')| == 1 ==> o == HelpListingOutcome(views, level)
    ensures |Split(command, ' ')| > 1 && Split(command, ' ')[1] != "" ==>
      o == HelpNamedOutcome(views, direct, level, Split(command, ' ')[1])
    ensures !(|Split(command, ' ')| == 1) && !(|Split(command, ' ')| > 1 && Split(command, ' ')[1] != "") ==>
      o == SyntaxError("Too many arguments")
  {
    var parts := Split(command, ' ');
    if |parts| == 1 then HelpListingOutcome(views, level)
    else if |parts| > 1 && parts[1] != "" then HelpNamedOutcome(views, direct, level, parts[1])
    else SyntaxError("Too many arguments")
  }

  /* ---- toggle ---- */

  /** The two mirroring directions. */
  datatype Direction = XmppToGame | GameToXmpp

  const XMPP_TO_GAME_KEY := "chatbot.mirror.xmpptogame"
  const GAME_TO_XMPP_KEY := "chatbot.mirror.gametoxmpp"

  function SettingKey(d: Direction): string {
    match d
    case XmppToGame => XMPP_TO_GAME_KEY
    case GameToXmpp => GAME_TO_XMPP_KEY
  }

  /** toggle: the direction it sets and the value, and its outcome. */
  function ToggleOutcome(command: string): (r: (Option<(Direction, bool)>, Outcome))
    ensures r.0.Some? <==> r.1.Returned?
    ensures r.0.Some? ==> r.0.value.1 == ("enable" <= command)
    ensures r.1.Returned? ==> r.1.response.resume && r.1.response.both && r.1.response.user == null
  {
    var parts := Split(command, ' ');
    if |parts| < 2 then (None, Failed(IndexOutOfBounds(1)))
    else ToggleWord(parts[1], "enable" <= command)
  }

  /** toggle once its second word is known: the direction it names, set to val. */
  function ToggleWord(word: string, val: bool): (Option<(Direction, bool)>, Outcome) {
    var state := if val then "enabled" else "disabled";
    if EqualsIgnoreCase(word, "xtg") || EqualsIgnoreCase(word, "xtm") then
      (Some((XmppToGame, val)), Returned(TextResponse("XMPP to Minecraft mirrorring " + state)))
    else if EqualsIgnoreCase(word, "gtx") || EqualsIgnoreCase(word, "mtx") then
      (Some((GameToXmpp, val)), Returned(TextResponse("Minecraft to XMPP mirrorring " + state)))
    else (None, SyntaxError(""))
  }

  lemma SplitTwoWords(a: string, b: string)
    requires a != "" && b != "" && ' ' !in a && ' ' !in b
    ensures Split(a + " " + b, ' ') == [a, b]
  {
    var s := a + " " + b;
    SplitAllPrefix(a, b, ' ');
    assert s[|a|] == ' ';
  }

  /** "enable xtm" / "disable MtX" and the like: the verb decides the value, the word the direction. */
  lemma ToggleWords(verb: string, word: string)
    requires verb == "enable" || verb == "disable"
    requires word != "" && ' ' !in word
    ensures EqualsIgnoreCase(word, "xtm") || EqualsIgnoreCase(word, "xtg") ==>
      ToggleOutcome(verb + " " + word).0 == Some((XmppToGame, verb == "enable"))
    ensures !(EqualsIgnoreCase(word, "xtm") || EqualsIgnoreCase(word, "xtg")) && (EqualsIgnoreCase(word, "mtx") || EqualsIgnoreCase(word, "gtx")) ==>
      ToggleOutcome(verb + " " + word).0 == Some((GameToXmpp, verb == "enable"))
    ensures !(EqualsIgnoreCase(word, "xtm") || EqualsIgnoreCase(word, "xtg") || EqualsIgnoreCase(word, "mtx") || EqualsIgnoreCase(word, "gtx")) ==>
      ToggleOutcome(verb + " " + word).1 == SyntaxError("")
  {
    var c := verb + " " + word;
    SplitTwoWords(verb, word);
    var parts := Split(c, ' ');
    assert |parts| == 2 && parts[1] == word;
    var val := "enable" <= c;
    assert val == (verb == "enable") by {
      if verb != "enable" {
        assert c[1] == 'i';
      }
    }
    assert ToggleOutcome(c) == ToggleWord(word, val);
  }

  /** The settings and the two mirroring flags (chat to game, game to chat) after a toggle. */
  function Toggled(t: Option<(Direction, bool)>, settings: map<string, string>, xtm: bool, mtx: bool): (map<string, string>, bool, bool) {
    if t.None? then (settings, xtm, mtx)
    else
      var (d, on) := t.value;
      (settings[SettingKey(d) := if on then "true" else "false"],
       if d == XmppToGame then on else xtm,
       if d == GameToXmpp then on else mtx)
  }

  /**
   * A toggle keeps each flag what its setting says, as the settings are read
   * at start-up, leaves the other direction and every other setting alone.
   */
  lemma ToggledAgrees(t: Option<(Direction, bool)>, settings: map<string, string>, xtm: bool, mtx: bool)
    requires t.Some?
    ensures var (s, x, m) := Toggled(t, settings, xtm, mtx); var d := t.value.0;
      && SettingKey(d) in s
      && EqualsIgnoreCase(s[SettingKey(d)], "true") == (if d == XmppToGame then x else m)
      && (d == XmppToGame ==> m == mtx)
      && (d == GameToXmpp ==> x == xtm)
      && (forall k :: k in settings && k != SettingKey(d) ==> k in s && s[k] == settings[k])
  {
    var (d, on) := t.value;
    if !on {
      assert ToLower("false")[0] == 'f';
    } else {
      assert ToLower("true") == "true";
    }
  }

  /* ---- geterror ---- */

  /** geterror's report of the last recorded failure. */
  function LastErrorText(e: Option<Exception>): string
  {
    match e
    case None => "What was what ? There's nothing in my logs."
    case Some(x) => "Last error was " + x.className + " : " + (if x.message.Some? then x.message.value else "no message attached")
  }
}
