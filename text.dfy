/**
 * The handful of java.lang.String operations the bot relies on, written
 * over Dafny strings. Lower-casing covers ASCII letters only.
 */
module Text {
  import opened Wrappers

  /** Character.toLowerCase on ASCII letters; every other character is kept. */
  function LowerChar(c: char): char {
    if 'A' <= c <= 'Z' then (c as int + 32) as char else c
  }

  function ToLower(s: string): (r: string)
    ensures |r| == |s|
    ensures forall i :: 0 <= i < |s| ==> r[i] == LowerChar(s[i])
  {
    if s == [] then [] else [LowerChar(s[0])] + ToLower(s[1..])
  }

  /** String.equalsIgnoreCase (for ASCII case differences). */
  predicate EqualsIgnoreCase(a: string, b: string) {
    ToLower(a) == ToLower(b)
  }

  lemma ToLowerPrefix(s: string, p: string)
    requires p <= s
    ensures ToLower(p) <= ToLower(s)
  {
  }

  /** String.valueOf applied to a reference that may be null. */
  function ValueOf(o: Option<string>): string {
    match o
    case Some(s) => s
    case None => "null"
  }

  predicate IsDigit(c: char) { '0' <= c <= '9' }

  /** The regular-expression class \w without the UNICODE_CHARACTER_CLASS flag. */
  predicate IsWordChar(c: char) {
    ('a' <= c <= 'z') || ('A' <= c <= 'Z') || ('0' <= c <= '9') || c == '_'
  }

  /** The characters that the regular-expression dot does not match. */
  predicate IsLineTerminator(c: char) {
    c == '\n' || c == '\r' || c == '\U{85}' || c == '\U{2028}' || c == '\U{2029}'
  }

  /** The regular-expression class \s. */
  predicate IsWhitespace(c: char) {
    c == ' ' || c == '\t' || c == '\n' || c == '\U{B}' || c == '\U{C}' || c == '\r'
  }

  /** What the regular expression .* accepts. */
  predicate NoLineTerminator(s: string) {
    forall i :: 0 <= i < |s| ==> !IsLineTerminator(s[i])
  }

  /** String.indexOf(char): the first occurrence, or -1. */
  function IndexOf(s: string, c: char): (r: int)
    ensures -1 <= r < |s|
    ensures r >= 0 ==> s[r] == c && c !in s[..r]
    ensures r < 0 <==> c !in s
  {
    if s == [] then -1
    else if s[0] == c then 0
    else
      var k := IndexOf(s[1..], c);
      assert s == [s[0]] + s[1..];
      if k < 0 then -1 else k + 1
  }

  /** String.contains(CharSequence). */
  predicate Contains(s: string, sub: string)
    decreases |s|
  {
    sub <= s || (|s| > 0 && Contains(s[1..], sub))
  }

  /** The pieces of s between occurrences of d, empty pieces included. */
  function SplitAll(s: string, d: char): (r: seq<string>)
    ensures |r| >= 1
    ensures forall i, j :: 0 <= i < |r| && 0 <= j < |r[i]| ==> r[i][j] != d
    decreases |s|
  {
    var k := IndexOf(s, d);
    if k < 0 then [s]
    else [s[..k]] + SplitAll(s[k + 1..], d)
  }

  /** Concatenation regroups freely; stated once so that loops appending to a buffer can cite it. */
  lemma AppendAssoc<T>(a: seq<T>, b: seq<T>, c: seq<T>)
    ensures (a + b) + c == a + (b + c)
  {
  }

  /** String.join / Guava's Joiner. */
  function Join(parts: seq<string>, sep: string): string {
    if |parts| == 0 then ""
    else if |parts| == 1 then parts[0]
    else parts[0] + sep + Join(parts[1..], sep)
  }

  lemma {:induction false} JoinSplitAll(s: string, d: char)
    ensures Join(SplitAll(s, d), [d]) == s
    decreases |s|
  {
    var k := IndexOf(s, d);
    if k >= 0 {
      var rest := SplitAll(s[k + 1..], d);
      JoinSplitAll(s[k + 1..], d);
      SplitAllAt(s, d);
      JoinCons(s[..k], rest, [d]);
      assert s == s[..k] + [d] + s[k + 1..];
    }
  }

  /** SplitAll peels the piece before the first delimiter. */
  lemma SplitAllAt(s: string, d: char)
    requires d in s
    ensures SplitAll(s, d) == [s[..IndexOf(s, d)]] + SplitAll(s[IndexOf(s, d) + 1..], d)
  {
  }

  lemma JoinCons(a: string, rest: seq<string>, sep: string)
    requires |rest| >= 1
    ensures Join([a] + rest, sep) == a + sep + Join(rest, sep)
  {
    assert ([a] + rest)[1..] == rest;
  }

  function DropTrailingEmpty(parts: seq<string>): (r: seq<string>)
    ensures r <= parts
    ensures |r| > 0 ==> r[|r| - 1] != ""
    ensures forall i :: |r| <= i < |parts| ==> parts[i] == ""
  {
    if |parts| > 0 && parts[|parts| - 1] == "" then DropTrailingEmpty(parts[..|parts| - 1]) else parts
  }

  /**
   * String.split with a one-character delimiter that is not a regular-expression
   * metacharacter: no delimiter gives [s]; otherwise trailing empty pieces are dropped.
   */
  function Split(s: string, d: char): (r: seq<string>)
    ensures forall i :: 0 <= i < |r| ==> d !in r[i]
    ensures d !in s ==> r == [s]
  {
    if d !in s then [s] else DropTrailingEmpty(SplitAll(s, d))
  }

  lemma {:induction false} JoinSnoc(parts: seq<string>, x: string, sep: string)
    requires |parts| >= 1
    ensures Join(parts + [x], sep) == Join(parts, sep) + sep + x
    decreases |parts|
  {
    if |parts| > 1 {
      assert (parts + [x])[1..] == parts[1..] + [x];
      JoinSnoc(parts[1..], x, sep);
    }
  }

  /** A list joined and terminated by sep, extended by one more terminated item. */
  lemma TerminatedJoinSnoc(names: seq<string>, x: string, sep: string)
    ensures (if |names| == 0 then "" else Join(names, sep) + sep) + (x + sep) == Join(names + [x], sep) + sep
  {
    if |names| > 0 {
      JoinSnoc(names, x, sep);
    } else {
      assert names + [x] == [x];
    }
  }

  /** Dropping trailing empty pieces only removes delimiters from the end of the join. */
  lemma {:induction false} JoinDropTrailingEmpty(parts: seq<string>, d: char)
    ensures Join(DropTrailingEmpty(parts), [d]) <= Join(parts, [d])
    ensures forall i :: |Join(DropTrailingEmpty(parts), [d])| <= i < |Join(parts, [d])| ==> Join(parts, [d])[i] == d
    decreases |parts|
  {
    if |parts| > 0 && parts[|parts| - 1] == "" {
      var p := parts[..|parts| - 1];
      assert parts == p + [""];
      JoinDropTrailingEmpty(p, d);
      if |p| >= 1 {
        JoinSnoc(p, "", [d]);
      }
    }
  }

  /**
   * What Split throws away: joining its pieces gives a prefix of s, and only
   * delimiters follow that prefix.
   */
  lemma SplitDropsOnlyTrailingDelimiters(s: string, d: char)
    ensures Join(Split(s, d), [d]) <= s
    ensures forall i :: |Join(Split(s, d), [d])| <= i < |s| ==> s[i] == d
  {
    if d in s {
      JoinSplitAll(s, d);
      JoinDropTrailingEmpty(SplitAll(s, d), d);
    }
  }

  /** Splitting at a first delimiter peels off the piece before it. */
  lemma SplitAllPrefix(a: string, rest: string, d: char)
    requires d !in a
    ensures SplitAll(a + [d] + rest, d) == [a] + SplitAll(rest, d)
  {
    var s := a + [d] + rest;
    assert s[|a|] == d;
    assert s[..|a|] == a;
    assert IndexOf(s, d) == |a|;
    assert s[|a| + 1..] == rest;
  }

  function DigitChar(d: nat): (c: char)
    requires d < 10
    ensures IsDigit(c)
  {
    ('0' as int + d) as char
  }

  /** Integer.toString for a non-negative value. */
  function NatToString(n: nat): (r: string)
    ensures |r| >= 1
    ensures forall i :: 0 <= i < |r| ==> IsDigit(r[i])
    decreases n
  {
    if n < 10 then [DigitChar(n)] else NatToString(n / 10) + [DigitChar(n % 10)]
  }

  /** Integer.toString. */
  function IntToString(i: int): string {
    if i < 0 then "-" + NatToString(-i) else NatToString(i)
  }

  predicate AllDigits(s: string) {
    forall i :: 0 <= i < |s| ==> IsDigit(s[i])
  }

  /** The value of a string of decimal digits (Integer.parseInt without the range check). */
  function DigitsValue(s: string): nat
    requires AllDigits(s)
  {
    if s == [] then 0 else DigitsValue(s[..|s| - 1]) * 10 + (s[|s| - 1] as int - '0' as int)
  }

  lemma {:induction false} DigitsValueOfNatToString(n: nat)
    ensures DigitsValue(NatToString(n)) == n
    decreases n
  {
    if n >= 10 {
      var r := NatToString(n);
      assert r[..|r| - 1] == NatToString(n / 10);
      DigitsValueOfNatToString(n / 10);
    }
  }
}
