/**
 * The registry commands: useradd, usermod, userdel, lookup and the
 * "A is B" nickname command. Each handler is a method on the registry,
 * proved equal to a specification function of the registry's contents.
 */
module UserCommands {
  import opened Wrappers
  import opened Text
  import opened Registry
  import opened Commands

  const CATEGORY := "User"
  const NICKNAME_LEVEL := USER + 1
  const USERADD_SUCCESS := "User added to my database. I am watching you."

  function NotFound(name: string): Outcome {
    Returned(TextResponse("Can't find user '" + name + "'"))
  }

  // ---------------------------------------------------------------- useradd

  /** useradd <nickname|gamename|username> <name>: the registry afterwards and the outcome. */
  function AfterUserAdd(us: seq<UserData>, command: string): (seq<UserData>, Outcome) {
    var parts := Split(command, ' ');
    if |parts| < 2 then (us, Failed(IndexOutOfBounds(1)))
    else if EqualsIgnoreCase(parts[1], "nickname") then
      if |parts| < 3 then (us, Failed(IndexOutOfBounds(2)))
      else (AfterRegisterFromXmpp(us, parts[2]).0, Returned(TextResponse(USERADD_SUCCESS)))
    else if EqualsIgnoreCase(parts[1], "gamename") || EqualsIgnoreCase(parts[1], "username") then
      if |parts| < 3 then (us, Failed(IndexOutOfBounds(2)))
      else (AfterRegisterFromGame(us, parts[2], None).0, Returned(TextResponse(USERADD_SUCCESS)))
    else (us, Returned(TextResponse(USERADD_SUCCESS)))
  }

  /** An unknown kind changes nothing yet still reports success. */
  lemma UserAddUnknownKind(us: seq<UserData>, command: string)
    requires |Split(command, ' ')| >= 2
    requires var k := Split(command, ' ')[1];
      !EqualsIgnoreCase(k, "nickname") && !EqualsIgnoreCase(k, "gamename") && !EqualsIgnoreCase(k, "username")
    ensures AfterUserAdd(us, command) == (us, Returned(TextResponse(USERADD_SUCCESS)))
  {
  }

  /** Adding the same nickname twice registers it once. */
  lemma UserAddNicknameTwice(us: seq<UserData>, name: string)
    requires name != "" && ' ' !in name && !(NICK_SIGIL <= name)
    ensures var us1 := AfterUserAdd(us, "useradd nickname " + name).0;
      |AfterUserAdd(us1, "useradd nickname " + name).0| == |us1|
  {
    assert "useradd nickname " + name == "useradd" + " " + "nickname" + " " + name;
    SplitThreeWords("useradd", "nickname", name);
    RegisterFromXmppTwice(us, name);
  }

  lemma SplitAllThreeWords(a: string, b: string, c: string)
    requires ' ' !in a && ' ' !in b && ' ' !in c
    ensures SplitAll(a + " " + (b + " " + c), ' ') == [a, b, c]
  {
    SplitAllPrefix(b, c, ' ');
    SplitAllPrefix(a, b + " " + c, ' ');
    assert SplitAll(c, ' ') == [c];
  }

  /** "a b c".split(" ") for three non-empty words without spaces. */
  lemma SplitThreeWords(a: string, b: string, c: string)
    requires a != "" && b != "" && c != "" && ' ' !in a && ' ' !in b && ' ' !in c
    ensures Split(a + " " + b + " " + c, ' ') == [a, b, c]
  {
    var s := a + " " + (b + " " + c);
    assert a + " " + b + " " + c == s;
    SplitAllThreeWords(a, b, c);
    assert s[|a|] == ' ';
    assert DropTrailingEmpty([a, b, c]) == [a, b, c];
  }

  method UserAdd(reg: UserRegistry, command: string) returns (o: Outcome)
    requires reg.Valid()
    modifies reg, reg.users
    ensures reg.Valid()
    ensures (reg.Snapshot(), o) == AfterUserAdd(old(reg.Snapshot()), command)
  {
    var parts := Split(command, ' ');
    if |parts| < 2 {
      return Failed(IndexOutOfBounds(1));
    }
    if EqualsIgnoreCase(parts[1], "nickname") {
      if |parts| < 3 {
        return Failed(IndexOutOfBounds(2));
      }
      var _ := reg.RegisterFromXmpp(parts[2]);
    } else if EqualsIgnoreCase(parts[1], "gamename") || EqualsIgnoreCase(parts[1], "username") {
      if |parts| < 3 {
        return Failed(IndexOutOfBounds(2));
      }
      var _ := reg.RegisterFromGame(parts[2], None);
    }
    o := Returned(TextResponse(USERADD_SUCCESS));
  }

  // ---------------------------------------------------------------- usermod

  /** The index of the last element equal to arg ignoring case, or -1. */
  function LastMatchIn(names: seq<string>, arg: string): (r: int)
    ensures -1 <= r < |names|
    ensures r >= 0 ==> EqualsIgnoreCase(names[r], arg) && forall j :: r < j < |names| ==> !EqualsIgnoreCase(names[j], arg)
    ensures r == -1 ==> forall j :: 0 <= j < |names| ==> !EqualsIgnoreCase(names[j], arg)
  {
    if names == [] then -1
    else if EqualsIgnoreCase(names[|names| - 1], arg) then |names| - 1
    else LastMatchIn(names[..|names| - 1], arg)
  }

  /**
   * The level argument of usermod: one character is parsed as a number,
   * anything longer is looked up among the rank names (the last match wins).
   * Err holds the syntax error's message.
   */
  function ResolveLevel(arg: string): (r: Result<int, string>)
    ensures |arg| == 1 && r.Ok? ==> IsDigit(arg[0]) && r.value == arg[0] as int - '0' as int
    ensures |arg| != 1 && r.Ok? ==> 0 <= r.value < |RANK_NAMES| && EqualsIgnoreCase(RANK_NAMES[r.value], arg)
    ensures |arg| != 1 && r.Err? <==> |arg| != 1 && forall j :: 0 <= j < |RANK_NAMES| ==> !EqualsIgnoreCase(RANK_NAMES[j], arg)
  {
    if |arg| == 1 then
      if IsDigit(arg[0]) then Ok(arg[0] as int - '0' as int) else Err("Couldn't parse number " + arg)
    else
      var l := LastMatchIn(RANK_NAMES, arg);
      if l == -1 then Err("Couldn't resolve rank name " + arg) else Ok(l)
  }

  /** Two texts of different lengths, or with different first letters, differ ignoring case. */
  lemma DifferIgnoringCase(a: string, b: string)
    requires |a| != |b| || (a != [] && b != [] && LowerChar(a[0]) != LowerChar(b[0]))
    ensures !EqualsIgnoreCase(a, b)
  {
    if |a| == |b| {
      assert ToLower(a)[0] != ToLower(b)[0];
    }
  }

  /** No two rank names are equal ignoring case. */
  lemma RankNamesDistinct(i: nat, j: nat)
    requires i < |RANK_NAMES| && j < |RANK_NAMES| && i != j
    ensures !EqualsIgnoreCase(RANK_NAMES[j], RANK_NAMES[i])
  {
    DifferIgnoringCase(RANK_NAMES[j], RANK_NAMES[i]);
  }

  /** Every rank name, in any case, resolves to its own level. */
  lemma RankNamesResolve(i: nat)
    requires i < |RANK_NAMES|
    ensures ResolveLevel(RANK_NAMES[i]) == Ok(i)
  {
    forall j: nat | j < |RANK_NAMES| && j != i
      ensures !EqualsIgnoreCase(RANK_NAMES[j], RANK_NAMES[i])
    {
      RankNamesDistinct(i, j);
    }
    assert |RANK_NAMES[i]| != 1;
  }

  /** The scan over the rank names: each match overrides the previous one. */
  method LastMatchLoop(names: seq<string>, arg: string) returns (level: int)
    ensures level == LastMatchIn(names, arg)
  {
    level := -1;
    for l := 0 to |names|
      invariant level == LastMatchIn(names[..l], arg)
    {
      assert names[..l + 1][..l] == names[..l];
      if EqualsIgnoreCase(names[l], arg) {
        level := l;
      }
    }
    assert names[..|names|] == names;
  }

  method ResolveLevelLoop(arg: string) returns (r: Result<int, string>)
    ensures r == ResolveLevel(arg)
  {
    var level := -1;
    if |arg| == 1 {
      if !IsDigit(arg[0]) {
        return Err("Couldn't parse number " + arg);
      }
      level := arg[0] as int - '0' as int;
    } else {
      level := LastMatchLoop(RANK_NAMES, arg);
    }
    if level == -1 {
      return Err("Couldn't resolve rank name " + arg);
    }
    r := Ok(level);
  }

  /** usermod once the named user (at index p) is found: param is "level" or "JID", ignoring case. */
  function ModifyFound(us: seq<UserData>, p: nat, issuerLevel: Option<int>, param: string, value: string): (seq<UserData>, Outcome)
    requires p < |us|
  {
    if EqualsIgnoreCase(param, "level") then
      match ResolveLevel(value)
      case Err(m) => (us, SyntaxError(m))
      case Ok(level) =>
        match issuerLevel
        case None => (us, Failed(NPE))
        case Some(il) =>
          if level <= il then (us[p := us[p].(level := level)], Returned(TextResponse("Successfully changed user level")))
          else (us, Returned(TextResponse("Can't set level higher than yours")))
    else if EqualsIgnoreCase(param, "JID") then
      (us[p := us[p].(jid := Some(value))], Returned(TextResponse("Successfully changed user's JID")))
    else (us, SyntaxError("Unknown usermod parameter : " + param))
  }

  function AfterUserMod(us: seq<UserData>, issuerLevel: Option<int>, command: string): (seq<UserData>, Outcome) {
    var parts := Split(command, ' ');
    if |parts| != 4 then (us, SyntaxError(""))
    else match ByName(us, parts[1])
    case None => (us, NotFound(parts[1]))
    case Some(p) => ModifyFound(us, p, issuerLevel, parts[2], parts[3])
  }

  /** usermod touches at most the named user, and never raises a level above the issuer's. */
  lemma UserModBounded(us: seq<UserData>, il: int, command: string)
    ensures var r := AfterUserMod(us, Some(il), command).0;
      |r| == |us| &&
      (r == us || (|Split(command, ' ')| == 4 && ByName(us, Split(command, ' ')[1]).Some? &&
        forall i :: 0 <= i < |us| && Some(i) != ByName(us, Split(command, ' ')[1]) ==> r[i] == us[i]))
    ensures var r := AfterUserMod(us, Some(il), command).0;
      forall i :: 0 <= i < |us| && r[i].level != us[i].level ==> r[i].level <= il
  {
    var parts := Split(command, ' ');
    if |parts| == 4 {
      match ByName(us, parts[1])
      case None =>
      case Some(p) =>
        ModifyFoundBounded(us, p, il, parts[2], parts[3]);
    }
  }

  lemma ModifyFoundBounded(us: seq<UserData>, p: nat, il: int, param: string, value: string)
    requires p < |us|
    ensures var r := ModifyFound(us, p, Some(il), param, value).0;
      |r| == |us| && (forall i :: 0 <= i < |us| && i != p ==> r[i] == us[i]) && (r[p].level == us[p].level || r[p].level <= il)
  {
    var r := ModifyFound(us, p, Some(il), param, value).0;
    if EqualsIgnoreCase(param, "level") {
      var lv := ResolveLevel(value);
      if lv.Ok? && lv.value <= il {
        assert r == us[p := us[p].(level := lv.value)];
      } else {
        assert r == us;
      }
    } else if EqualsIgnoreCase(param, "JID") {
      assert r == us[p := us[p].(jid := Some(value))];
    } else {
      assert r == us;
    }
  }

  function IssuerLevel(issuer: User?): Option<int>
    reads issuer
  {
    if issuer == null then None else Some(issuer.level)
  }

  method UserMod(reg: UserRegistry, issuer: User?, command: string) returns (o: Outcome)
    requires reg.Valid()
    modifies reg.users
    ensures reg.Valid() && reg.users == old(reg.users)
    ensures (reg.Snapshot(), o) == AfterUserMod(old(reg.Snapshot()), old(IssuerLevel(issuer)), command)
  {
    var parts := Split(command, ' ');
    if |parts| != 4 {
      return SyntaxError("");
    }
    var u := reg.GetUser(parts[1]);
    if u == null {
      return NotFound(parts[1]);
    }
    o := ModifyUser(reg, u, issuer, parts[2], parts[3], ByName(reg.Snapshot(), parts[1]).value);
  }

  method ModifyUser(reg: UserRegistry, u: User, issuer: User?, param: string, value: string, ghost p: nat) returns (o: Outcome)
    requires reg.Valid() && p < |reg.users| && reg.users[p] == u
    modifies reg.users
    ensures reg.Valid() && reg.users == old(reg.users)
    ensures (reg.Snapshot(), o) == ModifyFound(old(reg.Snapshot()), p, old(IssuerLevel(issuer)), param, value)
  {
    if EqualsIgnoreCase(param, "level") {
      var level := ResolveLevelLoop(value);
      if level.Err? {
        return SyntaxError(level.error);
      }
      if issuer == null {
        return Failed(NPE);
      }
      if level.value <= issuer.level {
        reg.SetLevel(u, level.value);
        return Returned(TextResponse("Successfully changed user level"));
      }
      return Returned(TextResponse("Can't set level higher than yours"));
    } else if EqualsIgnoreCase(param, "JID") {
      reg.SetJid(u, Some(value));
      return Returned(TextResponse("Successfully changed user's JID"));
    }
    return SyntaxError("Unknown usermod parameter : " + param);
  }

  // ---------------------------------------------------------------- userdel

  function AfterUserDel(us: seq<UserData>, command: string): (seq<UserData>, Outcome) {
    var parts := Split(command, ' ');
    if |parts| < 2 then (us, Failed(IndexOutOfBounds(1)))
    else match ByName(us, parts[1])
    case None => (us, NotFound(parts[1]))
    case Some(p) => (RemoveAt(us, p), Returned(TextResponse("Successfully deleted")))
  }

  /** userdel removes exactly the named user, or nothing. */
  lemma UserDelRemovesOne(us: seq<UserData>, command: string)
    ensures |AfterUserDel(us, command).0| == |us| - 1 <==>
      |Split(command, ' ')| >= 2 && ByName(us, Split(command, ' ')[1]).Some?
    ensures AfterUserDel(us, command).0 == us || |AfterUserDel(us, command).0| == |us| - 1
  {
  }

  method UserDel(reg: UserRegistry, command: string) returns (o: Outcome)
    requires reg.Valid()
    modifies reg
    ensures reg.Valid()
    ensures (reg.Snapshot(), o) == AfterUserDel(old(reg.Snapshot()), command)
  {
    var parts := Split(command, ' ');
    if |parts| < 2 {
      return Failed(IndexOutOfBounds(1));
    }
    var name := parts[1];
    var u := reg.GetUser(name);
    if u == null {
      return NotFound(name);
    }
    reg.DeleteUser(u);
    o := Returned(TextResponse("Successfully deleted"));
  }

  // ---------------------------------------------------------------- lookup

  /** String.valueOf(user): its toString, or "null". */
  function UserText(us: seq<UserData>, i: Option<nat>): string {
    match i
    case Some(k) => if k < |us| then UserString(us[k]) else "null"
    case None => "null"
  }

  /** One "name > user" line per non-empty name, looking each name up by gamename or nickname. */
  function NameLines(us: seq<UserData>, names: seq<string>, byGamename: bool): string {
    if names == [] then ""
    else
      NameLines(us, names[..|names| - 1], byGamename) + NameLine(us, names[|names| - 1], byGamename)
  }

  datatype Columns = Columns(level: bool, jid: bool, uuid: bool)

  function UserLine(d: UserData, c: Columns): string {
    UserString(d)
    + (if c.level then " (" + IntToString(d.level) + ")" else "")
    + (if c.jid then " (" + ValueOf(d.jid) + ")" else "")
    + (if c.uuid then " (" + ValueOf(d.uuid) + ")" else "")
  }

  /** Each user's line followed by a newline, in registry order. */
  function UserLines(us: seq<UserData>, c: Columns): string {
    if us == [] then "" else UserLines(us[..|us| - 1], c) + UserLine(us[|us| - 1], c) + "\n"
  }

  function EveryoneHeader(us: seq<UserData>): string {
    NatToString(|us|) + " user in registry :"
  }

  /** The forms of lookup: by gamename, by nickname ("user" means the source's own namespace), or everyone. */
  datatype LookupMode = NamesByGamename | NamesByNickname | Everyone(cols: Columns) | BadLookup

  /** The form of lookup that the text after "lookup " asks for. */
  function ModeOf(c: string, source: Source): LookupMode {
    if "player " <= c || "username " <= c || "gamename " <= c || ("user " <= c && source == Game) then NamesByGamename
    else if "nickname " <= c || ("user " <= c && source != Game) then NamesByNickname
    else if "everyone" <= c then Everyone(Columns(Contains(c, "level"), Contains(ToLower(c), "jid"), Contains(ToLower(c), "uuid")))
    else BadLookup
  }

  /** The names of a by-name lookup: the words after the first space. */
  function LookupNamesOf(c: string): seq<string> {
    Split(c[IndexOf(c, ' ') + 1..], ' ')
  }

  /** The lookup text before the trailing newline is removed; Err holds a syntax error. */
  function LookupText(us: seq<UserData>, command: string, source: Source): Result<string, Outcome> {
    if |command| < 7 then Err(Failed(Exception("java.lang.StringIndexOutOfBoundsException", None)))
    else
      var c := command[7..];
      match ModeOf(c, source)
      case NamesByGamename => Ok(NameLines(us, LookupNamesOf(c), true))
      case NamesByNickname => Ok(NameLines(us, LookupNamesOf(c), false))
      case Everyone(cols) => Ok(EveryoneHeader(us) + "\n" + UserLines(us, cols))
      case BadLookup => Err(SyntaxError(""))
  }

  function AfterLookup(us: seq<UserData>, command: string, source: Source): Outcome {
    Trimmed(LookupText(us, command, source))
  }

  /** The reply of lookup: its text without the trailing newline. */
  function Trimmed(r: Result<string, Outcome>): Outcome {
    match r
    case Err(o) => o
    case Ok(t) =>
      if |t| > 1 then
        if t[|t| - 1] == '\n' then Returned(TextResponse(t[..|t| - 1]))
        else Failed(Exception(COMMAND_EXCEPTION, Some("An error occured")))
      else Returned(TextResponse(t))
  }

  /** Lines each followed by a newline are their newline-join plus one final newline. */
  lemma {:induction false} TerminatedLinesAreJoin(us: seq<UserData>, c: Columns)
    requires |us| >= 1
    ensures UserLines(us, c) == Join(LinesOf(us, c), "\n") + "\n"
    decreases |us|
  {
    var init := us[..|us| - 1];
    var line := UserLine(us[|us| - 1], c);
    var lines := LinesOf(init, c);
    assert LinesOf(us, c) == lines + [line];
    assert UserLines(us, c) == UserLines(init, c) + (line + "\n");
    if |init| > 0 {
      TerminatedLinesAreJoin(init, c);
    }
    TerminatedJoinSnoc(lines, line, "\n");
  }

  function LinesOf(us: seq<UserData>, c: Columns): (r: seq<string>)
    ensures |r| == |us|
  {
    if us == [] then [] else LinesOf(us[..|us| - 1], c) + [UserLine(us[|us| - 1], c)]
  }

  /** "lookup everyone": a count line, then one line per user in order, joined by newlines. */
  lemma LookupEveryoneLines(us: seq<UserData>, command: string, source: Source)
    requires |command| >= 7 && "everyone" <= command[7..]
    requires var c := command[7..];
      !("player " <= c || "username " <= c || "gamename " <= c || "user " <= c || "nickname " <= c)
    ensures var c := command[7..];
      var cols := Columns(Contains(c, "level"), Contains(ToLower(c), "jid"), Contains(ToLower(c), "uuid"));
      AfterLookup(us, command, source) == Returned(TextResponse(Join([EveryoneHeader(us)] + LinesOf(us, cols), "\n")))
  {
    var c := command[7..];
    var cols := Columns(Contains(c, "level"), Contains(ToLower(c), "jid"), Contains(ToLower(c), "uuid"));
    assert ModeOf(c, source) == Everyone(cols);
    var t := EveryoneHeader(us) + "\n" + UserLines(us, cols);
    assert LookupText(us, command, source) == Ok(t);
    EveryoneHeaderText(us, cols);
  }

  lemma EveryoneHeaderText(us: seq<UserData>, cols: Columns)
    ensures var t := EveryoneHeader(us) + "\n" + UserLines(us, cols);
      |t| > 1 && t[|t| - 1] == '\n' && t[..|t| - 1] == Join([EveryoneHeader(us)] + LinesOf(us, cols), "\n")
  {
    var h := EveryoneHeader(us);
    assert |h| > 0 by {
      assert h == NatToString(|us|) + " user in registry :";
    }
    EveryoneText(h, us, cols);
  }

  /** The header, a newline and the terminated user lines: the newline-join of header and lines, plus a newline. */
  lemma EveryoneText(h: string, us: seq<UserData>, cols: Columns)
    requires |h| > 0
    ensures var t := h + "\n" + UserLines(us, cols);
      |t| > 1 && t[|t| - 1] == '\n' && t[..|t| - 1] == Join([h] + LinesOf(us, cols), "\n")
  {
    var t := h + "\n" + UserLines(us, cols);
    if |us| == 0 {
      assert [h] + LinesOf(us, cols) == [h];
      assert t[..|t| - 1] == h;
    } else {
      TerminatedLinesAreJoin(us, cols);
      JoinCons(h, LinesOf(us, cols), "\n");
      var j := Join(LinesOf(us, cols), "\n");
      assert t == (h + "\n" + j) + "\n";
    }
  }

  function NameLine(us: seq<UserData>, n: string, byGamename: bool): string {
    if n == "" then "" else n + " > " + UserText(us, LookupIn(us, n, byGamename)) + "\n"
  }

  function LookupIn(us: seq<UserData>, n: string, byGamename: bool): Option<nat> {
    if byGamename then ByGamename(us, n) else ByNickname(us, n)
  }

  lemma NameLinesSnoc(us: seq<UserData>, names: seq<string>, i: nat, byGamename: bool)
    requires i < |names|
    ensures NameLines(us, names[..i + 1], byGamename) == NameLines(us, names[..i], byGamename) + NameLine(us, names[i], byGamename)
  {
    assert names[..i + 1][..i] == names[..i];
  }

  method LookupNames(reg: UserRegistry, names: seq<string>, byGamename: bool) returns (out: string)
    ensures out == NameLines(reg.Snapshot(), names, byGamename)
  {
    ghost var us := reg.Snapshot();
    out := "";
    for i := 0 to |names|
      invariant out == NameLines(us, names[..i], byGamename)
    {
      NameLinesSnoc(us, names, i, byGamename);
      var line := LookupLine(reg, names[i], byGamename);
      out := out + line;
    }
    assert names[..|names|] == names;
  }

  /** One line of a by-name lookup: nothing for an empty name. */
  method LookupLine(reg: UserRegistry, n: string, byGamename: bool) returns (line: string)
    ensures line == NameLine(reg.Snapshot(), n, byGamename)
  {
    if |n| == 0 {
      return "";
    }
    var u: User?;
    if byGamename {
      u := reg.GetByGamename(n);
    } else {
      u := reg.GetByNickname(n);
    }
    var text := if u == null then "null" else UserString(u.Data());
    assert text == UserText(reg.Snapshot(), LookupIn(reg.Snapshot(), n, byGamename));
    line := n + " > " + text + "\n";
  }

  lemma UserLinesSnoc(us: seq<UserData>, i: nat, cols: Columns)
    requires i < |us|
    ensures UserLines(us[..i + 1], cols) == UserLines(us[..i], cols) + (UserLine(us[i], cols) + "\n")
  {
    assert us[..i + 1][..i] == us[..i];
  }

  method LookupEveryone(reg: UserRegistry, cols: Columns) returns (out: string)
    ensures out == EveryoneHeader(reg.Snapshot()) + "\n" + UserLines(reg.Snapshot(), cols)
  {
    ghost var us := reg.Snapshot();
    ghost var head := EveryoneHeader(us) + "\n";
    out := NatToString(|reg.users|) + " user in registry :\n";
    for i := 0 to |reg.users|
      invariant out == head + UserLines(us[..i], cols)
    {
      var u := reg.users[i];
      var line := UserLine(u.Data(), cols) + "\n";
      UserLinesSnoc(us, i, cols);
      AppendAssoc(head, UserLines(us[..i], cols), line);
      out := out + line;
    }
    assert us[..|us|] == us;
  }

  method Lookup(reg: UserRegistry, command: string, source: Source) returns (o: Outcome)
    ensures o == AfterLookup(reg.Snapshot(), command, source)
  {
    var t := LookupBody(reg, command, source);
    assert AfterLookup(reg.Snapshot(), command, source) == Trimmed(t);
    if t.Err? {
      return t.error;
    }
    var out := t.value;
    if |out| > 1 {
      if out[|out| - 1] == '\n' {
        out := out[..|out| - 1];
      } else {
        return Failed(Exception(COMMAND_EXCEPTION, Some("An error occured")));
      }
    }
    o := Returned(TextResponse(out));
  }

  /** The output builder of lookup, up to the removal of its trailing newline. */
  method LookupBody(reg: UserRegistry, command: string, source: Source) returns (t: Result<string, Outcome>)
    ensures t == LookupText(reg.Snapshot(), command, source)
  {
    if |command| < 7 {
      return Err(Failed(Exception("java.lang.StringIndexOutOfBoundsException", None)));
    }
    var c := command[7..];
    var out: string;
    match ModeOf(c, source) {
      case NamesByGamename =>
        out := LookupNames(reg, LookupNamesOf(c), true);
      case NamesByNickname =>
        out := LookupNames(reg, LookupNamesOf(c), false);
      case Everyone(cols) =>
        out := LookupEveryone(reg, cols);
      case BadLookup =>
        return Err(SyntaxError(""));
    }
    t := Ok(out);
  }

  // ---------------------------------------------------------------- nickname ("A is B")

  /**
   * The names "A is B" links: (A, B), or (B, A) when B is a known gamename
   * or A a known nickname; Err when the names are also known the other way.
   */
  function NicknamePlan(us: seq<UserData>, a: string, b: string): Result<(string, string), Exception> {
    if ByGamename(us, b).Some? || ByNickname(us, a).Some? then
      if ByNickname(us, b).Some? || ByGamename(us, a).Some? then
        Err(Exception(COMMAND_EXCEPTION, Some("Ambiguous references")))
      else Ok((b, a))
    else Ok((a, b))
  }

  /** The link never takes a registered nickname as the gamename, nor a registered gamename as the nickname. */
  lemma NicknamePlanRoles(us: seq<UserData>, a: string, b: string)
    ensures NicknamePlan(us, a, b).Err? <==>
      (ByGamename(us, b).Some? || ByNickname(us, a).Some?) && (ByNickname(us, b).Some? || ByGamename(us, a).Some?)
    ensures NicknamePlan(us, a, b).Ok? ==>
      var (g, n) := NicknamePlan(us, a, b).value;
      ByNickname(us, g).None? && ByGamename(us, n).None? && ((g, n) == (a, b) || (g, n) == (b, a))
  {
  }

  function AfterNicknameNames(us: seq<UserData>, a: string, b: string): (seq<UserData>, Outcome) {
    match NicknamePlan(us, a, b)
    case Err(e) => (us, Failed(e))
    case Ok((g, n)) =>
      (AfterLink(us, g, n), Returned(Response(Some("Successfully linked player " + g + " to " + n), null, true, true)))
  }

  function AfterNickname(us: seq<UserData>, m: Option<MatchState>): (seq<UserData>, Outcome) {
    match Group(m, 1)
    case Err(e) => (us, Failed(e))
    case Ok(a) =>
      match Group(m, 2)
      case Err(e) => (us, Failed(e))
      case Ok(b) => AfterNicknameNames(us, a, b)
  }

  method NicknameCommand(reg: UserRegistry, m: Option<MatchState>) returns (o: Outcome)
    requires reg.Valid()
    modifies reg, reg.users
    ensures reg.Valid()
    ensures (reg.Snapshot(), o) == AfterNickname(old(reg.Snapshot()), m)
  {
    var ga := Group(m, 1);
    if ga.Err? {
      return Failed(ga.error);
    }
    var gb := Group(m, 2);
    if gb.Err? {
      return Failed(gb.error);
    }
    o := LinkNames(reg, ga.value, gb.value);
  }

  method LinkNames(reg: UserRegistry, a: string, b: string) returns (o: Outcome)
    requires reg.Valid()
    modifies reg, reg.users
    ensures reg.Valid()
    ensures (reg.Snapshot(), o) == AfterNicknameNames(old(reg.Snapshot()), a, b)
  {
    var plan := PlanNames(reg, a, b);
    if plan.Err? {
      return Failed(plan.error);
    }
    var (gamename, nickname) := plan.value;
    reg.Link(gamename, nickname);
    o := Returned(Response(Some("Successfully linked player " + gamename + " to " + nickname), null, true, true));
  }

  /** The lookups of "A is B" that decide whether to swap the names. */
  method PlanNames(reg: UserRegistry, a: string, b: string) returns (r: Result<(string, string), Exception>)
    ensures r == NicknamePlan(reg.Snapshot(), a, b)
  {
    var swap := Registered(reg, b, a);
    if swap {
      var ambiguous := Registered(reg, a, b);
      if ambiguous {
        return Err(Exception(COMMAND_EXCEPTION, Some("Ambiguous references")));
      }
      return Ok((b, a));
    }
    return Ok((a, b));
  }

  /** Whether g is a registered gamename or n a registered nickname. */
  method Registered(reg: UserRegistry, g: string, n: string) returns (found: bool)
    ensures found == (ByGamename(reg.Snapshot(), g).Some? || ByNickname(reg.Snapshot(), n).Some?)
  {
    var x := reg.GetByGamename(g);
    var y := reg.GetByNickname(n);
    found := x != null || y != null;
  }
}
