/**
 * Bot commands: the fields every command carries, how prefix, regular
 * expression and custom commands recognise their input, and the values a
 * command's execution produces (its response, or the exception it throws).
 */
module Commands {
  import opened Wrappers
  import opened Text
  import Registry

  /** Where a command came from. */
  datatype Source = Game | Muc | Pm

  /** The regular expressions the bot's regex commands are built from. */
  datatype Regex =
    | PingRegex       // (ping|\?|\s*)
    | ToggleRegex     // (enable|disable) .*
    | NicknameRegex   // ([^ ]+) is ([^ ]+)

  /**
   * How a command recognises its input: a lower-cased prefix, a regular
   * expression that must match the whole input, or a case-sensitive test
   * against a list of prefixes (the shutdown command's own matches).
   */
  datatype Matcher =
    | Prefix(prefix: string)
    | Pattern(regex: Regex)
    | AnyPrefix(prefixes: seq<string>)

  /** Which execute body a command runs. */
  datatype Handler =
    | Save | Get | Set | Reset | Version | Update | GetError
    | Help | Reload | Ping | Toggle
    | UserAdd | UserMod | UserDel | Lookup | Nickname
    | Exec | Say | Shutdown | List

  /** A java.util.regex.Matcher after matches(): its input and, on success, its groups (group 0 first). */
  datatype MatchState = MatchState(input: string, groups: Option<seq<string>>)

  predicate AllWhitespace(s: string) {
    forall i :: 0 <= i < |s| ==> IsWhitespace(s[i])
  }

  /** Whole-input matching of one regular expression, with its capture groups. */
  function RegexMatch(r: Regex, s: string): Option<seq<string>> {
    match r
    case PingRegex =>
      if s == "ping" || s == "?" || AllWhitespace(s) then Some([s, s]) else None
    case ToggleRegex =>
      if "enable " <= s && NoLineTerminator(s[7..]) then Some([s, "enable"])
      else if "disable " <= s && NoLineTerminator(s[8..]) then Some([s, "disable"])
      else None
    case NicknameRegex =>
      var k := IndexOf(s, ' ');
      if k >= 1 && k + 4 < |s| && s[k..k + 4] == " is " && ' ' !in s[k + 4..] then
        Some([s, s[..k], s[k + 4..]])
      else None
  }

  /** toggle matches exactly the inputs that begin with its verb and a space, on one line. */
  lemma ToggleMatchesVerbs(s: string)
    ensures RegexMatch(ToggleRegex, s).Some? <==>
      (("enable " <= s && NoLineTerminator(s[7..])) || ("disable " <= s && NoLineTerminator(s[8..])))
    ensures RegexMatch(ToggleRegex, s).Some? ==>
      var g := RegexMatch(ToggleRegex, s).value;
      |g| == 2 && (g[1] == "enable" || g[1] == "disable") && g[1] + " " <= s
  {
  }

  /** "A is B" is recognised exactly when A and B are non-empty and hold no space. */
  lemma NicknameMatchSound(s: string)
    ensures RegexMatch(NicknameRegex, s).Some? ==>
      var g := RegexMatch(NicknameRegex, s).value;
      |g| == 3 && s == g[1] + " is " + g[2] && g[1] != "" && g[2] != "" && ' ' !in g[1] && ' ' !in g[2]
  {
    var k := IndexOf(s, ' ');
    if k >= 1 && k + 4 < |s| && s[k..k + 4] == " is " && ' ' !in s[k + 4..] {
      assert s == s[..k] + s[k..k + 4] + s[k + 4..];
    }
  }

  lemma NicknameMatchComplete(a: string, b: string)
    requires a != "" && b != "" && ' ' !in a && ' ' !in b
    ensures RegexMatch(NicknameRegex, a + " is " + b) == Some([a + " is " + b, a, b])
  {
    var s := a + " is " + b;
    var k := IndexOf(s, ' ');
    assert s[|a|] == ' ';
    assert s[..|a|] == a;
    assert k == |a|;
    assert s[k..k + 4] == " is ";
    assert s[k + 4..] == b;
  }

  /** Whether a matcher accepts the input. */
  predicate Accepts(m: Matcher, s: string) {
    match m
    case Prefix(p) => p <= ToLower(s)
    case Pattern(r) => RegexMatch(r, s).Some?
    case AnyPrefix(ps) => exists i :: 0 <= i < |ps| && ps[i] <= s
  }

  /** A prefix command matches iff the input begins with the prefix, ignoring case. */
  lemma PrefixAcceptsIff(p: string, s: string)
    ensures Accepts(Prefix(ToLower(p)), s) <==> |p| <= |s| && EqualsIgnoreCase(s[..|p|], p)
  {
    assert Accepts(Prefix(ToLower(p)), s) == (ToLower(p) <= ToLower(s));
    if |p| <= |s| {
      ToLowerTake(s, |p|);
    }
  }

  lemma ToLowerTake(s: string, n: nat)
    requires n <= |s|
    ensures ToLower(s)[..n] == ToLower(s[..n])
  {
    var a, b := ToLower(s)[..n], ToLower(s[..n]);
    assert |a| == |b| == n;
    forall i | 0 <= i < n
      ensures a[i] == b[i]
    {
    }
  }

  /** Matcher.group(i) on the last matcher of a regex command. */
  function Group(m: Option<MatchState>, i: nat): Result<string, Exception> {
    match m
    case None => Err(Exception("java.lang.NullPointerException", None))
    case Some(MatchState(_, None)) => Err(Exception("java.lang.IllegalStateException", Some("No match found")))
    case Some(MatchState(_, Some(g))) =>
      if i < |g| then Ok(g[i]) else Err(Exception("java.lang.IndexOutOfBoundsException", Some("No group " + NatToString(i))))
  }

  /** category + "." + name */
  function FullNameOf(category: string, name: string): string {
    category + "." + name
  }

  /** A full name splits back into its category and name at its first dot. */
  lemma FullNameSplits(category: string, name: string)
    requires '.' !in category
    ensures var f := FullNameOf(category, name);
      IndexOf(f, '.') == |category| && f[..|category|] == category && f[|category| + 1..] == name
  {
    var f := FullNameOf(category, name);
    assert f[|category|] == '.';
    assert f[..|category|] == category;
  }

  /** Two commands whose categories hold no dot have the same full name only if both parts agree. */
  lemma FullNameInjective(c1: string, n1: string, c2: string, n2: string)
    requires '.' !in c1 && '.' !in c2
    requires FullNameOf(c1, n1) == FullNameOf(c2, n2)
    ensures c1 == c2 && n1 == n2
  {
    FullNameSplits(c1, n1);
    FullNameSplits(c2, n2);
  }

  /**
   * The last matcher of a command after it was asked about s: a regex
   * command keeps the match of s, the others keep what they had.
   */
  function ProbedMatcher(m: Matcher, s: string, previous: Option<MatchState>): Option<MatchState> {
    if m.Pattern? then Some(MatchState(s, RegexMatch(m.regex, s))) else previous
  }

  /** The values ChatBot reads from a command when it chooses and describes one. */
  datatype CommandView = CommandView(
    fullName: string, name: string, level: int, syntax: string,
    help: Option<string>, matcher: Matcher, enabled: bool)

  class BotCommand {
    const name: string
    const category: string
    const level: int
    const syntax: string
    const matcher: Matcher
    const handler: Handler
    var help: Option<string>
    var enabled: bool
    var lastMatcher: Option<MatchState>

    /** A prefix command: the prefix is stored lower-cased. */
    constructor WithPrefix(name: string, category: string, level: int, syntax: string, prefix: string, handler: Handler)
      ensures this.name == name && this.category == category && this.level == level && this.syntax == syntax
      ensures this.matcher == Prefix(ToLower(prefix)) && this.handler == handler
      ensures help == None && enabled && lastMatcher == None
    {
      this.name := name;
      this.category := category;
      this.level := level;
      this.syntax := syntax;
      this.matcher := Prefix(ToLower(prefix));
      this.handler := handler;
      help := None;
      enabled := true;
      lastMatcher := None;
    }

    /** A regex command, or a command with its own matches (given as its matcher). */
    constructor WithMatcher(name: string, category: string, level: int, syntax: string, matcher: Matcher, handler: Handler)
      ensures this.name == name && this.category == category && this.level == level && this.syntax == syntax
      ensures this.matcher == matcher && this.handler == handler
      ensures help == None && enabled && lastMatcher == None
    {
      this.name := name;
      this.category := category;
      this.level := level;
      this.syntax := syntax;
      this.matcher := matcher;
      this.handler := handler;
      help := None;
      enabled := true;
      lastMatcher := None;
    }

    function FullName(): string {
      FullNameOf(category, name)
    }

    function View(): (v: CommandView)
      reads this`help, this`enabled
      ensures v.fullName == FullName() && v.name == name && v.level == level && v.syntax == syntax
      ensures v.help == help && v.matcher == matcher && v.enabled == enabled
    {
      CommandView(FullName(), name, level, syntax, help, matcher, enabled)
    }

    /** setHelp: returns the same command, for chaining. */
    method SetHelp(h: Option<string>) returns (r: BotCommand)
      modifies this`help
      ensures r == this && help == h
    {
      help := h;
      r := this;
    }

    method SetEnabled(b: bool)
      modifies this`enabled
      ensures enabled == b
    {
      enabled := b;
    }

    /**
     * matches(command). A regex command replaces its last matcher on every
     * call, whether or not the input matches; the others change nothing.
     */
    method Matches(s: string) returns (b: bool)
      modifies this`lastMatcher
      ensures b == Accepts(matcher, s)
      ensures matcher.Pattern? ==> lastMatcher == Some(MatchState(s, RegexMatch(matcher.regex, s)))
      ensures !matcher.Pattern? ==> lastMatcher == old(lastMatcher)
      ensures lastMatcher == ProbedMatcher(matcher, s, old(lastMatcher))
    {
      match matcher
      case Prefix(p) =>
        b := p <= ToLower(s);
      case Pattern(r) =>
        lastMatcher := Some(MatchState(s, RegexMatch(r, s)));
        b := lastMatcher.value.groups.Some?;
      case AnyPrefix(ps) =>
        b := false;
        var i := 0;
        while i < |ps| && !b
          invariant 0 <= i <= |ps|
          invariant b <==> exists j :: 0 <= j < i && ps[j] <= s
        {
          b := ps[i] <= s;
          i := i + 1;
        }
    }

    /** getMatcher: the matcher left by the last call of matches. */
    function GetMatcher(): (m: Option<MatchState>)
      reads this`lastMatcher
      ensures m == lastMatcher
    {
      lastMatcher
    }
  }

  /** ChatBot.CommandResponse: the text to send back and how to route it. */
  datatype Response = Response(text: Option<string>, user: Registry.User?, resume: bool, both: bool)

  /** new CommandResponse(): nothing is sent and the original message is not mirrored. */
  function EmptyResponse(): Response
  {
    Response(None, null, false, false)
  }

  /** new CommandResponse(text): shown on both sides, original message mirrored. */
  function TextResponse(t: string): Response
  {
    Response(Some(t), null, true, true)
  }

  /** new CommandResponse(text, user): a private answer, original message not mirrored. */
  function PrivateResponse(t: string, u: Registry.User?): Response
  {
    Response(Some(t), u, false, true)
  }

  /** How an execute call ends: a response, a CommandSyntaxException, or any other exception. */
  datatype Outcome =
    | Returned(response: Response)
    | SyntaxError(message: string)
    | Failed(exception: Exception)

  const COMMAND_EXCEPTION := "eu.neurovertex.xmppcraft.ChatBot$CommandException"
  const NPE := Exception("java.lang.NullPointerException", None)

  function IndexOutOfBounds(i: int): Exception {
    Exception("java.lang.ArrayIndexOutOfBoundsException", Some(IntToString(i)))
  }

  /** parts[i] of a String.split result; an absent index throws. */
  function Part(parts: seq<string>, i: nat): (r: Result<string, Exception>)
    ensures r.Ok? <==> i < |parts|
    ensures r.Ok? ==> r.value == parts[i]
  {
    if i < |parts| then Ok(parts[i]) else Err(IndexOutOfBounds(i))
  }
}
