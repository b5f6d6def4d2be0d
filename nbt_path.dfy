/**
 * Paths into a decoded NBT tree: a sequence of steps from the root, each a
 * compound key (".name") or a list index ("[3]"). A path prints as "root"
 * followed by its steps, parses back from that text, and is evaluated
 * against a root tag step by step.
 */
module NbtPath {
  import opened Wrappers
  import opened Text
  import opened Nbt

  /** One step of a path. */
  datatype Node = Key(key: string) | Index(index: int)

  /** The steps from the root, outermost first. */
  datatype Path = Path(nodes: seq<Node>)

  const MAX_INT := 2147483647

  function Root(): (p: Path)
    ensures p.nodes == []
  {
    Path([])
  }

  /** NBTPath.get(int): the path extended by a list index. */
  function GetIndex(p: Path, index: int): (r: Path)
    ensures r.nodes == p.nodes + [Index(index)]
  {
    Path(p.nodes + [Index(index)])
  }

  /** NBTPath.get(String): the path extended by a compound key. */
  function GetKey(p: Path, key: string): (r: Path)
    ensures r.nodes == p.nodes + [Key(key)]
  {
    Path(p.nodes + [Key(key)])
  }

  /* ---- printing ---- */

  function NodeText(n: Node): string {
    if n.Key? then "." + n.key else "[" + IntToString(n.index) + "]"
  }

  /** The nodes' texts in order. */
  function NodesText(ns: seq<Node>): string {
    if ns == [] then "" else NodesText(ns[..|ns| - 1]) + NodeText(ns[|ns| - 1])
  }

  /** NBTPath.toString: "root", then each step. */
  function ToString(p: Path): (s: string)
    ensures |s| >= 4 && s[..4] == "root"
  {
    "root" + NodesText(p.nodes)
  }

  /* ---- the two shapes of the last step ---- */

  /** The character class of a step's argument: \w for keys, \d for indices. */
  predicate InClass(c: char, word: bool) {
    if word then IsWordChar(c) else IsDigit(c)
  }

  predicate AllIn(s: string, word: bool) {
    forall i :: 0 <= i < |s| ==> InClass(s[i], word)
  }

  /** Where the longest suffix of characters of the class starts. */
  function RunStart(s: string, word: bool): (r: nat)
    ensures r <= |s| && AllIn(s[r..], word)
    ensures r > 0 ==> !InClass(s[r - 1], word)
  {
    if s == [] || !InClass(s[|s| - 1], word) then |s|
    else
      var r := RunStart(s[..|s| - 1], word);
      assert s[r..] == s[..|s| - 1][r..] + [s[|s| - 1]];
      r
  }

  /** Any split into a non-class character and a run of the class is the longest run. */
  lemma {:induction false} RunStartUnique(x: string, c: char, w: string, word: bool)
    requires !InClass(c, word) && AllIn(w, word)
    ensures RunStart(x + [c] + w, word) == |x| + 1
    decreases |w|
  {
    var s := x + [c] + w;
    if w == [] {
      assert s[|s| - 1] == c;
    } else {
      var w' := w[..|w| - 1];
      assert s[|s| - 1] == w[|w| - 1];
      assert s[..|s| - 1] == x + [c] + w';
      RunStartUnique(x, c, w', word);
    }
  }

  /** The list shape "(.*)\[(\d+)\]": the whole text, with the prefix and the digits. */
  predicate ListShape(s: string, prefix: string, digits: string) {
    s == prefix + "[" + digits + "]" && |digits| >= 1 && AllIn(digits, false) && NoLineTerminator(prefix)
  }

  /** The key shape "(.*)\.(\w+)": the whole text, with the prefix and the key. */
  predicate KeyShape(s: string, prefix: string, key: string) {
    s == prefix + "." + key && |key| >= 1 && AllIn(key, true) && NoLineTerminator(prefix)
  }

  /** A match of the list shape: the groups. */
  function ListSplit(s: string): (r: Option<(string, string)>)
    ensures r.Some? ==> ListShape(s, r.value.0, r.value.1) && |r.value.0| < |s|
  {
    if |s| == 0 || s[|s| - 1] != ']' then None
    else
      var body := s[..|s| - 1];
      var j := RunStart(body, false);
      if j == |body| || j == 0 || body[j - 1] != '[' || !NoLineTerminator(body[..j - 1]) then None
      else
        assert s == body[..j - 1] + "[" + body[j..] + "]";
        Some((body[..j - 1], body[j..]))
  }

  /** A match of the key shape: the groups. */
  function KeySplit(s: string): (r: Option<(string, string)>)
    ensures r.Some? ==> KeyShape(s, r.value.0, r.value.1) && |r.value.0| < |s|
  {
    var j := RunStart(s, true);
    if j == |s| || j == 0 || s[j - 1] != '.' || !NoLineTerminator(s[..j - 1]) then None
    else
      assert s == s[..j - 1] + "." + s[j..];
      Some((s[..j - 1], s[j..]))
  }

  /** The list matcher accepts exactly the texts of the list shape, and the groups are the only split there is. */
  lemma ListSplitComplete(s: string, prefix: string, digits: string)
    requires ListShape(s, prefix, digits)
    ensures ListSplit(s) == Some((prefix, digits))
  {
    var body := s[..|s| - 1];
    assert body == prefix + "[" + digits;
    RunStartUnique(prefix, '[', digits, false);
    assert body[..|prefix|] == prefix && body[|prefix| + 1..] == digits;
  }

  /** The key matcher accepts exactly the texts of the key shape, and the groups are the only split there is. */
  lemma KeySplitComplete(s: string, prefix: string, key: string)
    requires KeyShape(s, prefix, key)
    ensures KeySplit(s) == Some((prefix, key))
  {
    assert s == prefix + ['.'] + key;
    RunStartUnique(prefix, '.', key, true);
    assert s[..|prefix|] == prefix && s[|prefix| + 1..] == key;
  }

  lemma ListSplitExact(s: string)
    ensures ListSplit(s).Some? <==> exists prefix, digits :: ListShape(s, prefix, digits)
  {
    if exists prefix, digits :: ListShape(s, prefix, digits) {
      var prefix, digits :| ListShape(s, prefix, digits);
      ListSplitComplete(s, prefix, digits);
    }
  }

  lemma KeySplitExact(s: string)
    ensures KeySplit(s).Some? <==> exists prefix, key :: KeyShape(s, prefix, key)
  {
    if exists prefix, key :: KeyShape(s, prefix, key) {
      var prefix, key :| KeyShape(s, prefix, key);
      KeySplitComplete(s, prefix, key);
    }
  }

  /* ---- parsing ---- */

  /** Integer.parseInt of a run of digits: an overflow is a NumberFormatException. */
  function ParseInt(digits: string): (r: Result<int, Exception>)
    requires AllIn(digits, false)
    ensures r.Ok? <==> DigitsValue(digits) <= MAX_INT
    ensures r.Ok? ==> r.value == DigitsValue(digits)
  {
    assert AllDigits(digits);
    var v := DigitsValue(digits);
    if v > MAX_INT then Err(Exception("NumberFormatException", Some("For input string: \"" + digits + "\"")))
    else Ok(v)
  }

  /** The prefix that stands for the root: empty or "root" in any case. */
  predicate IsRootText(s: string) {
    |s| == 0 || EqualsIgnoreCase(s, "root")
  }

  function ParseError(s: string): Exception {
    Exception("IllegalArgumentException", Some("Parse error : " + s + " is not a valid NBT Path"))
  }

  /**
   * NBTPath.parsePath: the last step is peeled off, the list shape tried
   * before the key shape; the index is converted before the prefix is
   * parsed, and the prefix is the root or parsed in turn.
   */
  function ParsePath(s: string): (r: Result<Path, Exception>)
    decreases |s|, 0
  {
    var l := ListSplit(s);
    if l.Some? then
      var index := ParseInt(l.value.1);
      if index.Err? then Err(index.error) else Extend(ParseParent(l.value.0), Index(index.value))
    else
      var k := KeySplit(s);
      if k.Some? then Extend(ParseParent(k.value.0), Key(k.value.1)) else Err(ParseError(s))
  }

  /** The parent of the last step: the root, or the prefix parsed. */
  function ParseParent(prefix: string): Result<Path, Exception>
    decreases |prefix|, 1
  {
    if IsRootText(prefix) then Ok(Root()) else ParsePath(prefix)
  }

  /** new NBTPath(parent, node) after a parent that parsed. */
  function Extend(parent: Result<Path, Exception>, n: Node): (r: Result<Path, Exception>)
    ensures r.Ok? <==> parent.Ok?
    ensures r.Ok? ==> r.value.nodes == parent.value.nodes + [n]
  {
    if parent.Err? then parent else Ok(Path(parent.value.nodes + [n]))
  }

  lemma ParseListStep(s: string, prefix: string, digits: string)
    requires ListShape(s, prefix, digits) && DigitsValue(digits) <= MAX_INT
    ensures ParsePath(s) == Extend(ParseParent(prefix), Index(DigitsValue(digits)))
  {
    ListSplitComplete(s, prefix, digits);
  }

  lemma ParseKeyStep(s: string, prefix: string, key: string)
    requires KeyShape(s, prefix, key)
    ensures ParsePath(s) == Extend(ParseParent(prefix), Key(key))
  {
    KeySplitComplete(s, prefix, key);
    assert s[|s| - 1] == key[|key| - 1];
  }

  /** The steps NBTPath.parse produces: keys of word characters, indices within int range. */
  predicate WellFormedNode(n: Node) {
    if n.Key? then |n.key| >= 1 && AllIn(n.key, true) else 0 <= n.index <= MAX_INT
  }

  predicate WellFormed(p: Path) {
    forall i :: 0 <= i < |p.nodes| ==> WellFormedNode(p.nodes[i])
  }

  lemma {:induction false} NodesTextNoLineTerminator(ns: seq<Node>)
    requires forall i :: 0 <= i < |ns| ==> WellFormedNode(ns[i])
    ensures NoLineTerminator(NodesText(ns))
  {
    if ns != [] {
      NodesTextNoLineTerminator(ns[..|ns| - 1]);
      var n := ns[|ns| - 1];
      assert WellFormedNode(n);
      if n.Key? {
        assert AllIn(n.key, true);
      } else {
        assert IntToString(n.index) == NatToString(n.index);
      }
    }
  }

  /** "root" followed by the text of well-formed steps has no line terminator. */
  lemma RootedNoLineTerminator(ns: seq<Node>)
    requires forall i :: 0 <= i < |ns| ==> WellFormedNode(ns[i])
    ensures NoLineTerminator("root" + NodesText(ns))
  {
    NodesTextNoLineTerminator(ns);
    RootConcatNoLineTerminator(NodesText(ns));
  }

  lemma RootConcatNoLineTerminator(b: string)
    requires NoLineTerminator(b)
    ensures NoLineTerminator("root" + b)
  {
    var a := "root";
    var s := a + b;
    forall i | 0 <= i < |s| ensures !IsLineTerminator(s[i]) {
      if i < |a| {
        assert s[i] == a[i];
      } else {
        assert s[i] == b[i - |a|];
      }
    }
  }

  /** The printed text of a well-formed path of at least one step ends in that step's shape. */
  lemma LastStepShape(ns: seq<Node>)
    requires |ns| >= 1 && forall i :: 0 <= i < |ns| ==> WellFormedNode(ns[i])
    ensures var init := ns[..|ns| - 1];
      var n := ns[|ns| - 1];
      var s := "root" + NodesText(ns);
      var prefix := "root" + NodesText(init);
      if n.Key? then KeyShape(s, prefix, n.key) else n.index >= 0 && ListShape(s, prefix, NatToString(n.index))
  {
    var init := ns[..|ns| - 1];
    InitWellFormed(ns, init);
    RootedNoLineTerminator(init);
    RootedLast(ns);
    StepShape("root" + NodesText(init), ns[|ns| - 1]);
  }

  lemma InitWellFormed(ns: seq<Node>, init: seq<Node>)
    requires |ns| >= 1 && forall i :: 0 <= i < |ns| ==> WellFormedNode(ns[i])
    requires init == ns[..|ns| - 1]
    ensures forall i :: 0 <= i < |init| ==> WellFormedNode(init[i])
    ensures WellFormedNode(ns[|ns| - 1])
  {
    assert forall i :: 0 <= i < |init| ==> init[i] == ns[i];
  }

  lemma RootedLast(ns: seq<Node>)
    requires |ns| >= 1
    ensures "root" + NodesText(ns) == "root" + NodesText(ns[..|ns| - 1]) + NodeText(ns[|ns| - 1])
  {
  }

  /** A well-formed step printed after a prefix without line terminators has the shape of that step. */
  lemma StepShape(prefix: string, n: Node)
    requires NoLineTerminator(prefix) && WellFormedNode(n)
    ensures n.Key? ==> KeyShape(prefix + NodeText(n), prefix, n.key)
    ensures n.Index? ==> n.index >= 0 && ListShape(prefix + NodeText(n), prefix, NatToString(n.index))
  {
    if n.Index? {
      assert NodeText(n) == "[" + NatToString(n.index) + "]";
      assert AllIn(NatToString(n.index), false);
      assert prefix + NodeText(n) == prefix + "[" + NatToString(n.index) + "]";
    } else {
      assert prefix + NodeText(n) == prefix + "." + n.key;
    }
  }

  /** The root prefix of a printed path of at least one step is not the root text. */
  lemma LongerThanRoot(ns: seq<Node>)
    requires |ns| >= 1
    ensures !IsRootText("root" + NodesText(ns))
  {
    var n := ns[|ns| - 1];
    assert |NodeText(n)| >= 1;
    assert |NodesText(ns)| >= |NodeText(n)|;
  }

  /** Printing a well-formed path of at least one step and parsing the text gives the path back. */
  lemma {:induction false} ParsePrinted(p: Path)
    requires |p.nodes| >= 1 && WellFormed(p)
    ensures ParsePath(ToString(p)) == Ok(p)
    decreases |p.nodes|
  {
    var ns := p.nodes;
    var init := ns[..|ns| - 1];
    var n := ns[|ns| - 1];
    assert p == Path(init + [n]);
    var prefix := "root" + NodesText(init);
    if init == [] {
      assert prefix == "root";
      assert ParseParent(prefix) == Ok(Path(init));
    } else {
      LongerThanRoot(init);
      ParsePrinted(Path(init));
      assert ParseParent(prefix) == Ok(Path(init));
    }
    ParseLastStep(p, prefix);
  }

  /** The last step of a printed path parses onto whatever its prefix parses to. */
  lemma ParseLastStep(p: Path, prefix: string)
    requires |p.nodes| >= 1 && WellFormed(p)
    requires prefix == "root" + NodesText(p.nodes[..|p.nodes| - 1])
    ensures ParsePath(ToString(p)) == Extend(ParseParent(prefix), p.nodes[|p.nodes| - 1])
  {
    var ns := p.nodes;
    var n := ns[|ns| - 1];
    LastStepShape(ns);
    assert WellFormedNode(n);
    if n.Key? {
      ParseKeyStep(ToString(p), prefix, n.key);
    } else {
      DigitsValueOfNatToString(n.index);
      ParseListStep(ToString(p), prefix, NatToString(n.index));
    }
  }

  /** Whatever parses is a well-formed path of at least one step. */
  lemma {:induction false} ParsedWellFormed(s: string)
    requires ParsePath(s).Ok?
    ensures |ParsePath(s).value.nodes| >= 1 && WellFormed(ParsePath(s).value)
    decreases |s|
  {
    var prefix, n := LastParsed(s);
    if !IsRootText(prefix) {
      ParsedWellFormed(prefix);
    }
    var parent := ParseParent(prefix).value;
    assert WellFormed(parent);
    var r := ParsePath(s).value;
    assert r.nodes == parent.nodes + [n];
    assert forall i :: 0 <= i < |parent.nodes| ==> r.nodes[i] == parent.nodes[i];
  }

  /** A text that parses ends in one well-formed step after a shorter prefix. */
  lemma LastParsed(s: string) returns (prefix: string, n: Node)
    requires ParsePath(s).Ok?
    ensures |prefix| < |s| && WellFormedNode(n)
    ensures ParsePath(s) == Extend(ParseParent(prefix), n)
  {
    var l := ListSplit(s);
    if l.Some? {
      prefix := l.value.0;
      n := Index(DigitsValue(l.value.1));
    } else {
      prefix := KeySplit(s).value.0;
      n := Key(KeySplit(s).value.1);
    }
  }

  /** The printed form of a parsed path is canonical: it parses to the same path. */
  lemma ReparseParsed(s: string)
    requires ParsePath(s).Ok?
    ensures ParsePath(ToString(ParsePath(s).value)) == ParsePath(s)
  {
    ParsedWellFormed(s);
    ParsePrinted(ParsePath(s).value);
  }

  /** "root" alone is not a path. */
  lemma RootAloneRejected()
    ensures ParsePath("root") == Err(ParseError("root"))
  {
    var s := "root";
    assert s[..3] == "roo" && s[..3][..2] == "ro" && s[..3][..2][..1] == "r" && s[..3][..2][..1][..0] == "";
    assert RunStart(s, true) == 0;
  }

  /** A first step without the root prefix is rejected: the text left in front of it is not a path. */
  lemma UnrootedRejected()
    ensures ParsePath("a.b") == Err(ParseError("a"))
  {
    var a := "a";
    assert a[..0] == "";
    assert RunStart(a, true) == 0;
    assert ParsePath(a) == Err(ParseError(a));
    assert !IsRootText(a);
    assert KeyShape("a.b", a, "b");
    ParseKeyStep("a.b", a, "b");
  }

  /** The index is converted before the prefix is looked at: a too-large index wins over a bad prefix. */
  lemma OverflowBeforePrefix(prefix: string, digits: string)
    requires ListShape(prefix + "[" + digits + "]", prefix, digits) && DigitsValue(digits) > MAX_INT
    ensures ParsePath(prefix + "[" + digits + "]").Err?
    ensures ParsePath(prefix + "[" + digits + "]").error.className == "NumberFormatException"
  {
    ListSplitComplete(prefix + "[" + digits + "]", prefix, digits);
  }

  /* ---- evaluation ---- */

  /** The runtime exceptions a step can raise. */
  datatype StepFailure =
    | WrongType   // ClassCastException: the base is not of the step's kind
    | OutOfBounds // IndexOutOfBoundsException from List.get
    | Missing     // NullPointerException: the base is null

  /** A node's findElement on a base that may be null. */
  function Step(n: Node, base: Option<Tag>): (r: Result<Option<Tag>, StepFailure>)
    ensures base.None? ==> r == Err(Missing)
    ensures r.Ok? && n.Index? ==> r.value.Some?
  {
    if base.None? then Err(Missing)
    else if n.Key? then
      if base.value.body.Compound? then Ok(Get(base.value.body.entries, n.key)) else Err(WrongType)
    else if base.value.body.List? then
      var es := base.value.body.elements;
      if 0 <= n.index < |es| then Ok(Some(es[n.index])) else Err(OutOfBounds)
    else Err(WrongType)
  }

  /** NBTPath.findElement: the root for the root path, else the last step applied to the parent's element. */
  function FindElement(ns: seq<Node>, root: Option<Tag>): Result<Option<Tag>, StepFailure> {
    if ns == [] then Ok(root)
    else
      var parent := FindElement(ns[..|ns| - 1], root);
      if parent.Err? then parent else Step(ns[|ns| - 1], parent.value)
  }

  function Message(f: StepFailure): string {
    match f
    case WrongType => "Wrong tag type in path"
    case OutOfBounds => "Index out of bound in path"
    case Missing => "Unknown key in path"
  }

  /** NBTPath.getElement: an element (null for a missing last key), or an NBTPathException naming the failure. */
  function GetElement(p: Path, root: Option<Tag>): (r: Result<Option<Tag>, Exception>)
    ensures p.nodes == [] ==> r == Ok(root)
    ensures r.Ok? <==> FindElement(p.nodes, root).Ok?
    ensures r.Ok? ==> r.value == FindElement(p.nodes, root).value
    ensures r.Err? ==> r.error == Exception("NBTPathException", Some(Message(FindElement(p.nodes, root).error)))
  {
    var e := FindElement(p.nodes, root);
    if e.Ok? then Ok(e.value) else Err(Exception("NBTPathException", Some(Message(e.error))))
  }

  /** Evaluating a path that extends another continues from where the shorter path led. */
  lemma {:induction false} FindElementAppend(a: seq<Node>, b: seq<Node>, root: Option<Tag>)
    ensures FindElement(a + b, root) ==
      if FindElement(a, root).Err? then FindElement(a, root) else FindElement(b, FindElement(a, root).value)
    decreases |b|
  {
    if b == [] {
      assert a + b == a;
    } else {
      var b' := b[..|b| - 1];
      assert (a + b)[..|a + b| - 1] == a + b';
      assert (a + b)[|a + b| - 1] == b[|b| - 1];
      FindElementAppend(a, b', root);
    }
  }

  /** A step fails once a failure has happened: the first failing step decides the message. */
  lemma {:induction false} FailureSticks(a: seq<Node>, b: seq<Node>, root: Option<Tag>)
    requires FindElement(a, root).Err?
    ensures GetElement(Path(a + b), root) == GetElement(Path(a), root)
  {
    FindElementAppend(a, b, root);
  }

  /**
   * A key missing from a compound: as the last step the result is null; with
   * any step after it the failure is "Unknown key in path".
   */
  lemma MissingKey(ns: seq<Node>, root: Option<Tag>, key: string, next: Node)
    requires FindElement(ns, root).Ok? && FindElement(ns, root).value.Some?
    requires FindElement(ns, root).value.value.body.Compound?
    requires !ContainsKey(FindElement(ns, root).value.value.body.entries, key)
    ensures GetElement(Path(ns + [Key(key)]), root) == Ok(None)
    ensures GetElement(Path(ns + [Key(key), next]), root) == Err(Exception("NBTPathException", Some("Unknown key in path")))
  {
    ContainsKeyIffGet(FindElement(ns, root).value.value.body.entries, key);
    var ns1 := ns + [Key(key)];
    assert ns1[..|ns1| - 1] == ns;
    var ns2 := ns + [Key(key), next];
    assert ns2[..|ns2| - 1] == ns1;
  }

  /** A key step on a compound gives the child under the lower-cased key, exactly when it is there. */
  lemma KeyStep(t: Tag, key: string)
    requires t.body.Compound?
    ensures Step(Key(key), Some(t)) == Ok(Get(t.body.entries, key))
    ensures Step(Key(key), Some(t)).value.Some? <==> ContainsKey(t.body.entries, key)
  {
    ContainsKeyIffGet(t.body.entries, key);
  }

  /** An index step succeeds exactly on a list with the index in range, and a step of the wrong kind is a type error. */
  lemma StepOutcomes(n: Node, t: Tag)
    ensures n.Index? ==> (Step(n, Some(t)).Ok? <==> t.body.List? && 0 <= n.index < |t.body.elements|)
    ensures n.Index? && t.body.List? && !(0 <= n.index < |t.body.elements|) ==> Step(n, Some(t)) == Err(OutOfBounds)
    ensures Step(n, Some(t)) == Err(WrongType) <==> (if n.Key? then !t.body.Compound? else !t.body.List?)
  {
  }
}
