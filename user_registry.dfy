/**
 * The user registry: an ordered list of users, each known by a chat nickname,
 * an in-game name, a JID and a UUID, with a privilege level. Lookups are
 * case-insensitive and return the first match in list order.
 */
module Registry {
  import opened Wrappers
  import opened Text

  const ANON := -1
  const USER := 0
  const OP := 3
  const ADMIN := 5
  const RANK_NAMES: seq<string> := ["User", "User+", "User++", "Operator", "Operator+", "Admin"]

  /** The prefix getByNickname strips: a two-character mis-encoded section sign. */
  const NICK_SIGIL := "\U{0E22}\U{0E07}"

  /** The value of one user's fields; None stands for Java's null. */
  datatype UserData = UserData(
    nickname: Option<string>,
    gamename: Option<string>,
    jid: Option<string>,
    uuid: Option<string>,
    level: int)

  datatype Field = Nickname | Gamename | Jid

  function FieldOf(d: UserData, f: Field): Option<string> {
    match f
    case Nickname => d.nickname
    case Gamename => d.gamename
    case Jid => d.jid
  }

  /** key.equalsIgnoreCase(field), which is false when the field is null. */
  predicate Matches(d: UserData, f: Field, key: string) {
    FieldOf(d, f).Some? && EqualsIgnoreCase(key, FieldOf(d, f).value)
  }

  /** The first index at or after from whose field matches key. */
  function FindFrom(us: seq<UserData>, f: Field, key: string, from: nat): (r: Option<nat>)
    requires from <= |us|
    ensures r.Some? ==> from <= r.value < |us| && Matches(us[r.value], f, key)
    ensures r.Some? ==> forall j :: from <= j < r.value ==> !Matches(us[j], f, key)
    ensures r.None? ==> forall j :: from <= j < |us| ==> !Matches(us[j], f, key)
    decreases |us| - from
  {
    if from == |us| then None
    else if Matches(us[from], f, key) then Some(from)
    else FindFrom(us, f, key, from + 1)
  }

  /** The first user in list order whose field matches key, or None. */
  function Find(us: seq<UserData>, f: Field, key: string): (r: Option<nat>)
    ensures r.Some? ==> r.value < |us| && Matches(us[r.value], f, key)
    ensures r.Some? ==> forall j :: 0 <= j < r.value ==> !Matches(us[j], f, key)
    ensures r.None? ==> forall j :: 0 <= j < |us| ==> !Matches(us[j], f, key)
  {
    FindFrom(us, f, key, 0)
  }

  function StripGamename(g: string): string {
    if "#" <= g then g[1..] else g
  }

  /** substring(1) after the two-character sigil: only its first character goes. */
  function StripNickname(n: string): string {
    if NICK_SIGIL <= n then n[1..] else n
  }

  /** getByGamename: a user whose game name is g without its '#', ignoring case, and none when there is no such user. */
  function ByGamename(us: seq<UserData>, g: string): (r: Option<nat>)
    ensures r.Some? ==> r.value < |us| && Matches(us[r.value], Gamename, StripGamename(g))
    ensures r.None? ==> forall j :: 0 <= j < |us| ==> !Matches(us[j], Gamename, StripGamename(g))
  {
    Find(us, Gamename, StripGamename(g))
  }

  /** getByNickname: a user whose nickname is n without the sigil's first character, ignoring case, and none when there is no such user. */
  function ByNickname(us: seq<UserData>, n: string): (r: Option<nat>)
    ensures r.Some? ==> r.value < |us| && Matches(us[r.value], Nickname, StripNickname(n))
    ensures r.None? ==> forall j :: 0 <= j < |us| ==> !Matches(us[j], Nickname, StripNickname(n))
  {
    Find(us, Nickname, StripNickname(n))
  }

  /** jid.split("/")[0] when jid contains a slash; None when that indexing fails. */
  function BareJid(jid: string): Option<string> {
    if '/' in jid then
      var parts := Split(jid, '/');
      if |parts| == 0 then None else Some(parts[0])
    else Some(jid)
  }

  predicate AllEmpty(pieces: seq<string>) {
    forall i :: 0 <= i < |pieces| ==> pieces[i] == ""
  }

  predicate AllChar(s: string, d: char) {
    forall i :: 0 <= i < |s| ==> s[i] == d
  }

  lemma {:induction false} SplitAllEmptyPieces(s: string, d: char)
    ensures AllEmpty(SplitAll(s, d)) <==> AllChar(s, d)
    decreases |s|
  {
    var k := IndexOf(s, d);
    var pieces := SplitAll(s, d);
    if k >= 0 {
      var t := s[k + 1..];
      var rest := SplitAll(t, d);
      assert pieces == [s[..k]] + rest;
      SplitAllEmptyPieces(t, d);
      if AllChar(s, d) {
        assert AllChar(t, d) by {
          assert forall i :: 0 <= i < |t| ==> t[i] == s[i + 1];
        }
        forall i | 0 <= i < |pieces| ensures pieces[i] == "" {
          if i > 0 {
            assert pieces[i] == rest[i - 1];
          }
        }
      }
      if AllEmpty(pieces) {
        assert pieces[0] == s[..k];
        assert k == 0;
        assert AllEmpty(rest) by {
          assert forall i :: 0 <= i < |rest| ==> rest[i] == pieces[i + 1];
        }
        assert s == [d] + t;
      }
    } else {
      assert pieces == [s];
      if |s| > 0 {
        assert s[0] in s;
        assert pieces[0] != "";
      }
    }
  }

  /**
   * The bare JID is the part before the first '/', and the lookup key is
   * missing exactly when the address is made only of slashes.
   */
  lemma BareJidIsPrefixBeforeSlash(jid: string)
    ensures BareJid(jid).None? <==> |jid| > 0 && AllChar(jid, '/')
    ensures BareJid(jid).Some? ==>
      BareJid(jid).value == jid[..if '/' in jid then IndexOf(jid, '/') else |jid|]
  {
    if '/' in jid {
      var all := SplitAll(jid, '/');
      SplitAllEmptyPieces(jid, '/');
      var r := DropTrailingEmpty(all);
      assert |r| == 0 <==> AllEmpty(all);
      if |r| > 0 {
        assert r[0] == all[0];
      }
    } else if |jid| > 0 {
      assert jid[0] in jid;
    }
  }

  /** getByJID: Err when the split leaves nothing to index. */
  function ByJid(us: seq<UserData>, jid: string): (r: Result<Option<nat>, Exception>)
    ensures r.Err? <==> BareJid(jid).None?
    ensures r.Ok? && r.value.Some? ==> r.value.value < |us| && Matches(us[r.value.value], Jid, BareJid(jid).value)
    ensures r.Ok? && r.value.None? ==> forall j :: 0 <= j < |us| ==> !Matches(us[j], Jid, BareJid(jid).value)
  {
    match BareJid(jid)
    case None => Err(Exception("java.lang.ArrayIndexOutOfBoundsException", Some("0")))
    case Some(b) => Ok(Find(us, Jid, b))
  }

  /** getUser: the nickname lookup unless the name starts with '#', then the gamename lookup unless it starts with the sigil. */
  function ByName(us: seq<UserData>, name: string): Option<nat> {
    var u := if !("#" <= name) then ByNickname(us, name) else None;
    if u.None? && !(NICK_SIGIL <= name) then ByGamename(us, name) else u
  }

  lemma ByNameFindsByEitherName(us: seq<UserData>, name: string)
    ensures ByName(us, name).Some? ==> ByName(us, name).value < |us|
    ensures ByName(us, name).Some? ==>
      Matches(us[ByName(us, name).value], Nickname, StripNickname(name)) ||
      Matches(us[ByName(us, name).value], Gamename, StripGamename(name))
    ensures ByName(us, name).None? ==>
      ("#" <= name || ByNickname(us, name).None?) && (NICK_SIGIL <= name || ByGamename(us, name).None?)
    ensures !("#" <= name) && ByNickname(us, name).Some? ==> ByName(us, name) == ByNickname(us, name)
  {
  }

  function GameToXmppOf(us: seq<UserData>, g: string): Option<string> {
    match ByGamename(us, g)
    case None => None
    case Some(i) => us[i].nickname
  }

  function XmppToGameOf(us: seq<UserData>, n: string): Option<string> {
    match ByNickname(us, n)
    case None => None
    case Some(i) => us[i].gamename
  }

  function RemoveAt(us: seq<UserData>, i: nat): seq<UserData>
    requires i < |us|
  {
    us[..i] + us[i + 1..]
  }

  /** registerFromGame: the registry after the call and the index of the returned user. */
  function AfterRegisterFromGame(us: seq<UserData>, username: string, uuid: Option<string>): (seq<UserData>, nat) {
    match ByGamename(us, username)
    case Some(i) => (us[i := us[i].(uuid := uuid)], i)
    case None => (us + [UserData(None, Some(username), None, uuid, USER)], |us|)
  }

  /** registerFromXMPP: the registry after the call and the index of the returned user. */
  function AfterRegisterFromXmpp(us: seq<UserData>, nickname: string): (seq<UserData>, nat) {
    match ByNickname(us, nickname)
    case Some(i) => (us, i)
    case None => (us + [UserData(Some(nickname), None, None, None, USER)], |us|)
  }

  /** The record the game user is left with when link merges two users. */
  function Merged(game: UserData, xmpp: UserData, n: string): UserData {
    game.(nickname := Some(n), jid := xmpp.jid)
  }

  /** link(g, n) on the registry's list. */
  function AfterLink(us: seq<UserData>, g: string, n: string): seq<UserData> {
    match (ByNickname(us, n), ByGamename(us, g))
    case (None, None) => us + [UserData(Some(n), Some(g), None, None, USER)]
    case (Some(i), None) => us[i := us[i].(gamename := Some(g))]
    case (None, Some(j)) => us[j := us[j].(nickname := Some(n))]
    case (Some(i), Some(j)) => Merge(us, i, j, n)
  }

  /** link's last branch: the chat user i leaves the list and the game user j takes its nickname and JID. */
  function Merge(us: seq<UserData>, i: nat, j: nat, n: string): seq<UserData>
    requires i < |us| && j < |us|
  {
    if i == j then RemoveAt(us, i)
    else
      var j' := if j < i then j else j - 1;
      RemoveAt(us, i)[j' := Merged(us[j], us[i], n)]
  }

  /** The fields link leaves on the chat user it removes from the list. */
  function Unlinked(us: seq<UserData>, i: nat, j: nat, g: string, n: string): UserData
    requires i < |us| && j < |us|
  {
    if i == j then us[i].(gamename := Some(g), nickname := Some(n))
    else us[i].(gamename := Some(g), uuid := us[j].uuid)
  }

  /** Registering a game name a second time reuses the user: the list does not grow. */
  lemma RegisterFromGameTwice(us: seq<UserData>, username: string, uuid1: Option<string>, uuid2: Option<string>)
    requires !("#" <= username)
    ensures var (us1, i) := AfterRegisterFromGame(us, username, uuid1);
            var (us2, k) := AfterRegisterFromGame(us1, username, uuid2);
            |us1| <= |us| + 1 && |us2| == |us1| && k == i && i < |us1| &&
            us2[k].uuid == uuid2 && us2[k].gamename == us1[i].gamename
  {
    var (us1, i) := AfterRegisterFromGame(us, username, uuid1);
    assert Matches(us1[i], Gamename, username);
  }

  /** A name that starts with '#' is stored unstripped but looked up stripped, so it is added again every time. */
  lemma RegisterFromGameHashNameGrows()
    ensures var (us1, _) := AfterRegisterFromGame([], "#a", None);
            |AfterRegisterFromGame(us1, "#a", None).0| == 2
  {
    var (us1, _) := AfterRegisterFromGame([], "#a", None);
    assert us1 == [UserData(None, Some("#a"), None, None, USER)];
    assert ToLower("a") == "a" && ToLower("#a") == "#a";
    assert !Matches(us1[0], Gamename, "a");
  }

  /** Registering a nickname a second time returns the same user and leaves the list alone. */
  lemma RegisterFromXmppTwice(us: seq<UserData>, nickname: string)
    requires !(NICK_SIGIL <= nickname)
    ensures var (us1, i) := AfterRegisterFromXmpp(us, nickname);
            AfterRegisterFromXmpp(us1, nickname) == (us1, i) && |us1| <= |us| + 1 && i < |us1| &&
            Matches(us1[i], Nickname, nickname)
  {
    var (us1, i) := AfterRegisterFromXmpp(us, nickname);
    assert Matches(us1[i], Nickname, nickname);
  }

  /** link adds a user when neither name is known, removes one when both are, and keeps the count otherwise. */
  lemma LinkCount(us: seq<UserData>, g: string, n: string)
    ensures |AfterLink(us, g, n)| ==
      if ByNickname(us, n).None? && ByGamename(us, g).None? then |us| + 1
      else if ByNickname(us, n).Some? && ByGamename(us, g).Some? then |us| - 1
      else |us|
  {
  }

  /** At most one user's nickname matches key. */
  predicate NicknameUnique(us: seq<UserData>, key: string) {
    forall a, b :: 0 <= a < |us| && 0 <= b < |us| && Matches(us[a], Nickname, key) && Matches(us[b], Nickname, key) ==> a == b
  }

  lemma {:induction false} FindIsFirst(us: seq<UserData>, f: Field, key: string, k: nat)
    requires k < |us| && Matches(us[k], f, key)
    requires forall j :: 0 <= j < k ==> !Matches(us[j], f, key)
    ensures Find(us, f, key) == Some(k)
  {
  }

  /**
   * After linking two names that belonged to different users (or to none),
   * both lookups find the same user, which carries both names.
   */
  lemma LinkResolvesBothNames(us: seq<UserData>, g: string, n: string)
    requires !("#" <= g) && !(NICK_SIGIL <= n)
    requires ByNickname(us, n).None? || ByNickname(us, n) != ByGamename(us, g)
    requires NicknameUnique(us, n)
    ensures ByGamename(AfterLink(us, g, n), g).Some?
    ensures ByGamename(AfterLink(us, g, n), g) == ByNickname(AfterLink(us, g, n), n)
    ensures GameToXmppOf(AfterLink(us, g, n), g).Some? && EqualsIgnoreCase(n, GameToXmppOf(AfterLink(us, g, n), g).value)
    ensures XmppToGameOf(AfterLink(us, g, n), n).Some? && EqualsIgnoreCase(g, XmppToGameOf(AfterLink(us, g, n), n).value)
  {
    var r := AfterLink(us, g, n);
    assert EqualsIgnoreCase(g, g) && EqualsIgnoreCase(n, n);
    match (ByNickname(us, n), ByGamename(us, g))
    case (None, None) =>
      assert r == us + [UserData(Some(n), Some(g), None, None, USER)];
      FoundAtBoth(r, g, n, |us|);
    case (Some(i), None) =>
      LinkChatUser(us, g, n, i);
    case (None, Some(j)) =>
      LinkGameUser(us, g, n, j);
    case (Some(i), Some(j)) =>
      LinkMerge(us, g, n, i, j);
  }

  lemma LinkChatUser(us: seq<UserData>, g: string, n: string, i: nat)
    requires !("#" <= g) && !(NICK_SIGIL <= n)
    requires ByNickname(us, n) == Some(i) && ByGamename(us, g).None?
    ensures var r := AfterLink(us, g, n);
      ByGamename(r, g) == Some(i) && ByNickname(r, n) == Some(i)
      && GameToXmppOf(r, g).Some? && EqualsIgnoreCase(n, GameToXmppOf(r, g).value)
      && XmppToGameOf(r, n).Some? && EqualsIgnoreCase(g, XmppToGameOf(r, n).value)
  {
    var r := us[i := us[i].(gamename := Some(g))];
    assert r == AfterLink(us, g, n);
    assert EqualsIgnoreCase(g, g);
    FoundAtBoth(r, g, n, i);
  }

  lemma LinkGameUser(us: seq<UserData>, g: string, n: string, j: nat)
    requires !("#" <= g) && !(NICK_SIGIL <= n)
    requires ByNickname(us, n).None? && ByGamename(us, g) == Some(j)
    ensures var r := AfterLink(us, g, n);
      ByGamename(r, g) == Some(j) && ByNickname(r, n) == Some(j)
      && GameToXmppOf(r, g).Some? && EqualsIgnoreCase(n, GameToXmppOf(r, g).value)
      && XmppToGameOf(r, n).Some? && EqualsIgnoreCase(g, XmppToGameOf(r, n).value)
  {
    var r := us[j := us[j].(nickname := Some(n))];
    assert r == AfterLink(us, g, n);
    assert EqualsIgnoreCase(n, n);
    FoundAtBoth(r, g, n, j);
  }

  lemma LinkMerge(us: seq<UserData>, g: string, n: string, i: nat, j: nat)
    requires !("#" <= g) && !(NICK_SIGIL <= n)
    requires ByNickname(us, n) == Some(i) && ByGamename(us, g) == Some(j) && i != j
    requires NicknameUnique(us, n)
    ensures var r := AfterLink(us, g, n);
      ByGamename(r, g).Some? && ByGamename(r, g) == ByNickname(r, n)
      && GameToXmppOf(r, g).Some? && EqualsIgnoreCase(n, GameToXmppOf(r, g).value)
      && XmppToGameOf(r, n).Some? && EqualsIgnoreCase(g, XmppToGameOf(r, n).value)
  {
    var r := Merge(us, i, j, n);
    assert r == AfterLink(us, g, n);
    var j' := if j < i then j else j - 1;
    MergeClearBefore(us, g, n, i, j);
    assert r[j'] == Merged(us[j], us[i], n);
    assert EqualsIgnoreCase(n, n);
    FoundAtBoth(r, g, n, j');
  }

  /** Before the merged user, no user of the merged list carries either name. */
  lemma MergeClearBefore(us: seq<UserData>, g: string, n: string, i: nat, j: nat)
    requires !("#" <= g) && !(NICK_SIGIL <= n)
    requires ByNickname(us, n) == Some(i) && ByGamename(us, g) == Some(j) && i != j
    requires NicknameUnique(us, n)
    ensures var r := Merge(us, i, j, n);
      var j' := if j < i then j else j - 1;
      j' < |r| && forall t :: 0 <= t < j' ==> !Matches(r[t], Gamename, g) && !Matches(r[t], Nickname, n)
  {
    var r := Merge(us, i, j, n);
    var j' := if j < i then j else j - 1;
    forall t | 0 <= t < j'
      ensures !Matches(r[t], Gamename, g) && !Matches(r[t], Nickname, n)
    {
      if t < i {
        assert r[t] == us[..i][t] == us[t];
      } else {
        assert r[t] == us[i + 1..][t - i] == us[t + 1];
        assert Matches(us[i], Nickname, StripNickname(n));
      }
    }
  }

  /** A user that is the first to carry both names is what both lookups find. */
  lemma FoundAtBoth(r: seq<UserData>, g: string, n: string, k: nat)
    requires !("#" <= g) && !(NICK_SIGIL <= n)
    requires k < |r| && Matches(r[k], Gamename, g) && Matches(r[k], Nickname, n)
    requires forall j :: 0 <= j < k ==> !Matches(r[j], Gamename, g)
    requires forall j :: 0 <= j < k ==> !Matches(r[j], Nickname, n)
    ensures ByGamename(r, g) == Some(k) && ByNickname(r, n) == Some(k)
    ensures GameToXmppOf(r, g).Some? && EqualsIgnoreCase(n, GameToXmppOf(r, g).value)
    ensures XmppToGameOf(r, n).Some? && EqualsIgnoreCase(g, XmppToGameOf(r, n).value)
  {
    FindIsFirst(r, Gamename, g, k);
    FindIsFirst(r, Nickname, n, k);
  }

  /** link on two names of one user removes that user from the list. */
  lemma LinkSameUserRemovesIt(us: seq<UserData>, g: string, n: string, i: nat)
    requires ByNickname(us, n) == Some(i) && ByGamename(us, g) == Some(i)
    ensures |AfterLink(us, g, n)| == |us| - 1
    ensures AfterLink(us, g, n) == us[..i] + us[i + 1..]
  {
  }

  /** When two users merge, the game user keeps its level and UUID and takes the chat user's JID. */
  lemma LinkMergeKeepsGameUser(us: seq<UserData>, g: string, n: string, i: nat, j: nat)
    requires ByNickname(us, n) == Some(i) && ByGamename(us, g) == Some(j) && i != j
    ensures var r := AfterLink(us, g, n);
            var j' := if j < i then j else j - 1;
            j' < |r| && r[j'].level == us[j].level && r[j'].uuid == us[j].uuid &&
            r[j'].jid == us[i].jid && r[j'].gamename == us[j].gamename && r[j'].nickname == Some(n)
  {
  }

  /** The text of User.toString. */
  function UserString(d: UserData): string {
    "<game:" + ValueOf(d.gamename) + ",xmpp:" + ValueOf(d.nickname) + ">"
  }

  /** A registered user; fields are null (None) until set. */
  class User {
    var nickname: Option<string>
    var gamename: Option<string>
    var jid: Option<string>
    var uuid: Option<string>
    var level: int

    function Data(): UserData
      reads this
    {
      UserData(nickname, gamename, jid, uuid, level)
    }

    /** new User(nickname): the constructor appends the user to the registry's list. */
    constructor FromNickname(reg: UserRegistry, nickname: string)
      requires reg.Valid()
      modifies reg
      ensures reg.Valid() && reg.users == old(reg.users) + [this]
      ensures Data() == UserData(Some(nickname), None, None, None, USER)
    {
      this.nickname := Some(nickname);
      gamename, jid, uuid, level := None, None, None, USER;
      new;
      reg.users := reg.users + [this];
    }

    /** new User(gamename, uuid): the constructor appends the user to the registry's list. */
    constructor FromGame(reg: UserRegistry, gamename: string, uuid: Option<string>)
      requires reg.Valid()
      modifies reg
      ensures reg.Valid() && reg.users == old(reg.users) + [this]
      ensures Data() == UserData(None, Some(gamename), None, uuid, USER)
    {
      nickname, jid, level := None, None, USER;
      this.uuid := uuid;
      this.gamename := Some(gamename);
      new;
      reg.users := reg.users + [this];
    }
  }

  function DataOf(us: seq<User>): (s: seq<UserData>)
    reads us
    ensures |s| == |us| && forall i :: 0 <= i < |us| ==> s[i] == us[i].Data()
  {
    if us == [] then [] else DataOf(us[..|us| - 1]) + [us[|us| - 1].Data()]
  }

  /** No user object occurs twice. */
  predicate Distinct(us: seq<User>) {
    forall i, j :: 0 <= i < j < |us| ==> us[i] != us[j]
  }

  lemma DistinctRemoveAt(us: seq<User>, p: nat)
    requires Distinct(us) && p < |us|
    ensures Distinct(us[..p] + us[p + 1..])
    ensures us[p] !in us[..p] + us[p + 1..]
  {
    var r := us[..p] + us[p + 1..];
    assert forall i :: 0 <= i < |r| ==> r[i] == us[if i < p then i else i + 1];
  }

  lemma DataOfRemoveAt(us: seq<User>, p: nat)
    requires p < |us|
    ensures DataOf(us[..p] + us[p + 1..]) == RemoveAt(DataOf(us), p)
  {
    var r := us[..p] + us[p + 1..];
    var s := DataOf(us);
    var a, b := DataOf(r), RemoveAt(s, p);
    assert |a| == |b|;
    forall i | 0 <= i < |a|
      ensures a[i] == b[i]
    {
      if i < p {
        assert r[i] == us[..p][i] == us[i];
        assert b[i] == s[..p][i] == s[i];
      } else {
        assert r[i] == us[p + 1..][i - p] == us[i + 1];
        assert b[i] == s[p + 1..][i - p] == s[i + 1];
      }
    }
  }

  class UserRegistry {
    var users: seq<User>

    /** Each user object is in the list at most once. */
    predicate Valid()
      reads this
    {
      Distinct(users)
    }

    function Snapshot(): (s: seq<UserData>)
      reads this, users
      ensures |s| == |users| && forall i :: 0 <= i < |users| ==> s[i] == users[i].Data()
    {
      DataOf(users)
    }

    constructor ()
      ensures Valid() && users == []
    {
      users := [];
    }

    method GetByGamename(gamename: string) returns (u: User?)
      ensures u == null <==> ByGamename(Snapshot(), gamename).None?
      ensures u != null ==> u == users[ByGamename(Snapshot(), gamename).value]
    {
      var key := if "#" <= gamename then gamename[1..] else gamename;
      for i := 0 to |users|
        invariant forall j :: 0 <= j < i ==> !Matches(users[j].Data(), Gamename, key)
      {
        if users[i].gamename.Some? && EqualsIgnoreCase(key, users[i].gamename.value) {
          FindIsFirst(Snapshot(), Gamename, key, i);
          return users[i];
        }
      }
      return null;
    }

    method GetByNickname(nickname: string) returns (u: User?)
      ensures u == null <==> ByNickname(Snapshot(), nickname).None?
      ensures u != null ==> u == users[ByNickname(Snapshot(), nickname).value]
    {
      var key := if NICK_SIGIL <= nickname then nickname[1..] else nickname;
      for i := 0 to |users|
        invariant forall j :: 0 <= j < i ==> !Matches(users[j].Data(), Nickname, key)
      {
        if users[i].nickname.Some? && EqualsIgnoreCase(key, users[i].nickname.value) {
          FindIsFirst(Snapshot(), Nickname, key, i);
          return users[i];
        }
      }
      return null;
    }

    method GetByJid(jid: string) returns (r: Result<User?, Exception>)
      ensures ByJid(Snapshot(), jid).Err? <==> r.Err?
      ensures r.Err? ==> r == Err(ByJid(Snapshot(), jid).error)
      ensures r.Ok? ==> (r.value == null <==> ByJid(Snapshot(), jid).value.None?)
      ensures r.Ok? && r.value != null ==> r.value == users[ByJid(Snapshot(), jid).value.value]
    {
      var key := jid;
      if '/' in jid {
        var parts := Split(jid, '/');
        if |parts| == 0 {
          return Err(Exception("java.lang.ArrayIndexOutOfBoundsException", Some("0")));
        }
        key := parts[0];
      }
      for i := 0 to |users|
        invariant forall j :: 0 <= j < i ==> !Matches(users[j].Data(), Jid, key)
      {
        if users[i].jid.Some? && EqualsIgnoreCase(key, users[i].jid.value) {
          FindIsFirst(Snapshot(), Jid, key, i);
          return Ok(users[i]);
        }
      }
      return Ok(null);
    }

    method GetUser(name: string) returns (u: User?)
      ensures u == null <==> ByName(Snapshot(), name).None?
      ensures u != null ==> u == users[ByName(Snapshot(), name).value]
    {
      u := null;
      if !("#" <= name) {
        u := GetByNickname(name);
      }
      if u == null && !(NICK_SIGIL <= name) {
        u := GetByGamename(name);
      }
    }

    method GameToXmpp(gamename: string) returns (r: Option<string>)
      ensures r == GameToXmppOf(Snapshot(), gamename)
    {
      var u := GetByGamename(gamename);
      r := if u == null then None else u.nickname;
    }

    method XmppToGame(nickname: string) returns (r: Option<string>)
      ensures r == XmppToGameOf(Snapshot(), nickname)
    {
      var u := GetByNickname(nickname);
      r := if u == null then None else u.gamename;
    }

    method RegisterFromGame(username: string, uuid: Option<string>) returns (u: User)
      requires Valid()
      modifies this, users
      ensures Valid()
      ensures Snapshot() == AfterRegisterFromGame(old(Snapshot()), username, uuid).0
      ensures u == users[AfterRegisterFromGame(old(Snapshot()), username, uuid).1]
      ensures users[..|old(users)|] == old(users)
    {
      var found := GetByGamename(username);
      if found != null {
        SetUuid(found, ByGamename(Snapshot(), username).value, uuid);
        u := found;
      } else {
        u := AddGameUser(username, uuid);
      }
    }

    /** A found user takes the new UUID; the list and every other user stay as they are. */
    method SetUuid(found: User, ghost i: nat, uuid: Option<string>)
      requires Valid() && i < |users| && users[i] == found
      modifies found
      ensures Valid() && users == old(users)
      ensures Snapshot() == old(Snapshot())[i := old(Snapshot())[i].(uuid := uuid)]
    {
      ghost var before := Snapshot();
      found.uuid := uuid;
      assert forall k :: 0 <= k < |users| && k != i ==> users[k] != found;
      assert Snapshot() == before[i := before[i].(uuid := uuid)];
    }

    /** A new game user is appended to the list. */
    method AddGameUser(username: string, uuid: Option<string>) returns (u: User)
      requires Valid()
      modifies this
      ensures Valid() && users == old(users) + [u]
      ensures Snapshot() == old(Snapshot()) + [UserData(None, Some(username), None, uuid, USER)]
    {
      ghost var before := Snapshot();
      u := new User.FromGame(this, username, uuid);
      u.gamename := Some(username);
      assert Snapshot() == before + [u.Data()];
    }

    method RegisterFromXmpp(nickname: string) returns (u: User)
      requires Valid()
      modifies this
      ensures Valid()
      ensures Snapshot() == AfterRegisterFromXmpp(old(Snapshot()), nickname).0
      ensures u == users[AfterRegisterFromXmpp(old(Snapshot()), nickname).1]
      ensures users[..|old(users)|] == old(users)
    {
      var found := GetByNickname(nickname);
      if found != null {
        u := found;
      } else {
        u := new User.FromNickname(this, nickname);
      }
    }

    /** User.unregister: users.remove(this), which removes the first occurrence of the object, if any. */
    method Unregister(user: User)
      requires Valid()
      modifies this
      ensures Valid() && user !in users
      ensures user !in old(users) ==> users == old(users)
      ensures forall p :: 0 <= p < |old(users)| && old(users)[p] == user ==>
                users == old(users)[..p] + old(users)[p + 1..] && Snapshot() == RemoveAt(old(Snapshot()), p)
    {
      for p := 0 to |users|
        invariant users == old(users)
        invariant forall k :: 0 <= k < p ==> users[k] != user
      {
        if users[p] == user {
          DistinctRemoveAt(users, p);
          DataOfRemoveAt(users, p);
          users := users[..p] + users[p + 1..];
          return;
        }
      }
    }

    method DeleteUser(user: User)
      requires Valid()
      modifies this
      ensures Valid() && user !in users
      ensures user !in old(users) ==> Snapshot() == old(Snapshot())
      ensures forall p :: 0 <= p < |old(users)| && old(users)[p] == user ==> Snapshot() == RemoveAt(old(Snapshot()), p)
    {
      Unregister(user);
    }

    /** User.setNickname. */
    method SetNickname(user: User, nickname: string)
      requires Valid()
      modifies user
      ensures user.Data() == old(user.Data()).(nickname := Some(nickname))
      ensures user !in users ==> Snapshot() == old(Snapshot())
      ensures forall p :: 0 <= p < |users| && users[p] == user ==>
                Snapshot() == old(Snapshot())[p := old(Snapshot())[p].(nickname := Some(nickname))]
    {
      user.nickname := Some(nickname);
    }

    /** User.setGamename. */
    method SetGamename(user: User, gamename: string)
      requires Valid()
      modifies user
      ensures user.Data() == old(user.Data()).(gamename := Some(gamename))
      ensures user !in users ==> Snapshot() == old(Snapshot())
      ensures forall p :: 0 <= p < |users| && users[p] == user ==>
                Snapshot() == old(Snapshot())[p := old(Snapshot())[p].(gamename := Some(gamename))]
    {
      user.gamename := Some(gamename);
    }

    method SetJid(user: User, jid: Option<string>)
      requires Valid()
      modifies user
      ensures user.Data() == old(user.Data()).(jid := jid)
      ensures user !in users ==> Snapshot() == old(Snapshot())
      ensures forall p :: 0 <= p < |users| && users[p] == user ==> Snapshot() == old(Snapshot())[p := old(Snapshot())[p].(jid := jid)]
    {
      user.jid := jid;
    }

    method SetLevel(user: User, level: int)
      requires Valid()
      modifies user
      ensures user.Data() == old(user.Data()).(level := level)
      ensures user !in users ==> Snapshot() == old(Snapshot())
      ensures forall p :: 0 <= p < |users| && users[p] == user ==> Snapshot() == old(Snapshot())[p := old(Snapshot())[p].(level := level)]
    {
      user.level := level;
    }

    method Link(gamename: string, nickname: string)
      requires Valid()
      modifies this, users
      ensures Valid()
      ensures Snapshot() == AfterLink(old(Snapshot()), gamename, nickname)
      ensures var x := ByNickname(old(Snapshot()), nickname);
              var g := ByGamename(old(Snapshot()), gamename);
              x.Some? && g.Some? ==>
                old(users)[x.value] !in users &&
                old(users)[x.value].Data() == Unlinked(old(Snapshot()), x.value, g.value, gamename, nickname)
    {
      var xmpp := GetByNickname(nickname);
      var game := GetByGamename(gamename);
      ghost var before := Snapshot();
      ghost var after := AfterLink(before, gamename, nickname);
      if xmpp == null && game == null {
        game := AddLinkedUser(gamename, nickname);
      } else if game == null {
        ghost var i := ByNickname(before, nickname).value;
        assert after == before[i := before[i].(gamename := Some(gamename))];
        SetGamename(xmpp, gamename);
        assert Snapshot() == after;
      } else if xmpp == null {
        ghost var j := ByGamename(before, gamename).value;
        assert after == before[j := before[j].(nickname := Some(nickname))];
        SetNickname(game, nickname);
        assert Snapshot() == after;
      } else {
        ghost var i := ByNickname(before, nickname).value;
        ghost var j := ByGamename(before, gamename).value;
        assert after == Merge(before, i, j, nickname);
        MergeUsers(xmpp, game, gamename, nickname, i, j);
        assert Snapshot() == after;
      }
    }

    /** The first branch of link: a new user made from the game name, then given the nickname. */
    method AddLinkedUser(gamename: string, nickname: string) returns (u: User)
      requires Valid()
      modifies this
      ensures Valid() && fresh(u) && users == old(users) + [u]
      ensures Snapshot() == old(Snapshot()) + [UserData(Some(nickname), Some(gamename), None, None, USER)]
    {
      u := new User.FromGame(this, gamename, None);
      SetNickname(u, nickname);
    }

    /** The branch of link where both names are known: the chat user is dropped into the game user. */
    method MergeUsers(xmpp: User, game: User, gamename: string, nickname: string, ghost i: nat, ghost j: nat)
      requires Valid() && i < |users| && j < |users| && users[i] == xmpp && users[j] == game
      modifies this, users
      ensures Valid()
      ensures Snapshot() == Merge(old(Snapshot()), i, j, nickname)
      ensures xmpp !in users && xmpp.Data() == Unlinked(old(Snapshot()), i, j, gamename, nickname)
    {
      ghost var before := Snapshot();
      assert before[i] == xmpp.Data() && before[j] == game.Data();
      assert xmpp == game <==> i == j;
      Unregister(xmpp);
      assert Snapshot() == RemoveAt(before, i);
      ghost var j' := if j <= i then j else j - 1;
      assert i != j ==> users[j'] == game;
      MergeFields(xmpp, game, gamename, nickname, j');
    }

    /** The field assignments of link's last branch, made once the chat user has left the list. */
    method MergeFields(xmpp: User, game: User, gamename: string, nickname: string, ghost p: nat)
      requires Valid() && xmpp !in users
      requires game == xmpp || (p < |users| && users[p] == game)
      modifies xmpp, game
      ensures xmpp.Data() ==
        if game == xmpp then old(xmpp.Data()).(gamename := Some(gamename), nickname := Some(nickname))
        else old(xmpp.Data()).(gamename := Some(gamename), uuid := old(game.uuid))
      ensures game == xmpp ==> Snapshot() == old(Snapshot())
      ensures game != xmpp ==> Snapshot() == old(Snapshot())[p := Merged(old(game.Data()), old(xmpp.Data()), nickname)]
    {
      ghost var before := Snapshot();
      assert forall k :: 0 <= k < |users| ==> users[k] != xmpp;
      xmpp.gamename := Some(gamename);
      xmpp.uuid := game.uuid;
      assert Snapshot() == before;
      SetNickname(game, nickname);
      game.jid := xmpp.jid;
      if game != xmpp {
        assert forall k :: 0 <= k < |users| && k != p ==> users[k] != game;
      }
    }
  }
}
