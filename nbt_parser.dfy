/**
 * The decoder of Minecraft's Named Binary Tag format used for player data:
 * a tree of tagged values read from a big-endian byte stream. A named tag
 * is a type byte, a name, and the payload of that type; a compound is a
 * run of named tags up to an END byte; a list is an element type, a count,
 * and that many unnamed payloads. A failure inside a named tag does not
 * abort the decoding: the tag is replaced by an error tag named after a
 * running counter.
 *
 * The decoding is specified by functions over the input bytes and a
 * cursor, and the NbtParser class reads the same way with a cursor field
 * that its methods advance.
 */
module Nbt {
  import opened Wrappers
  import opened Text

  /** The tag types in their declaration order; the id of a type is its position. */
  datatype TagType = END | BYTE | SHORT | INT | LONG | FLOAT | DOUBLE | BYTE_ARRAY | STRING | LIST | COMPOUND | ERROR

  const TAG_TYPES := [END, BYTE, SHORT, INT, LONG, FLOAT, DOUBLE, BYTE_ARRAY, STRING, LIST, COMPOUND, ERROR]

  /** The exceptions that decoding can raise; parseNamedTag turns each of them into an error tag. */
  datatype Failure =
    | EndOfInput        // EOFException from the stream
    | NegativeSize      // NegativeArraySizeException for a negative string or array length
    | TypeIdOutOfRange  // ArrayIndexOutOfBoundsException for type id 12
    | UnknownType       // IllegalArgumentException from newInstance for the ERROR type
    | NullElement       // NullPointerException for list elements of no type or of type END

  /** A tag: its name (lists hold unnamed tags) and its value. */
  datatype Tag = Tag(name: Option<string>, body: Body)

  datatype Body =
    | Number(kind: TagType, value: int)    // FLOAT and DOUBLE keep their raw bits
    | ByteArray(bytes: seq<byte>)
    | StringValue(text: string)
    | List(elementType: Option<TagType>, elements: seq<Tag>)
    | Compound(entries: seq<Entry>)
    | Error(failure: Failure)

  /** A compound's child under its lower-cased name. */
  datatype Entry = Entry(key: string, tag: Tag)

  /* ---- bytes and numbers ---- */

  /** An unsigned byte of the input. */
  newtype byte = b: int | 0 <= b < 256

  function Pow256(n: nat): (r: nat)
    ensures r >= 1
  {
    if n == 0 then 1 else 256 * Pow256(n - 1)
  }

  /** A big-endian unsigned value. */
  function Unsigned(bs: seq<byte>): nat {
    if bs == [] then 0 else (bs[0] as nat) * Pow256(|bs| - 1) + Unsigned(bs[1..])
  }

  /** A big-endian two's-complement value, as DataInput reads it. */
  function Signed(bs: seq<byte>): int
    requires |bs| >= 1
  {
    if bs[0] >= 128 then Unsigned(bs) - Pow256(|bs|) else Unsigned(bs)
  }

  lemma MulLe(a: nat, b: nat, p: nat)
    requires a <= b
    ensures a * p <= b * p
  {
  }

  /** The value of a leading digit top in base 256 followed by a value below p. */
  lemma LeadingDigit(top: nat, p: nat, rest: nat)
    requires top < 256 && rest < p
    ensures top * p + rest < 256 * p
    ensures top >= 128 ==> 128 * p <= top * p + rest
    ensures top < 128 ==> top * p + rest < 128 * p
  {
    assert (top + 1) * p == top * p + p;
    if top >= 128 {
      MulLe(128, top, p);
    } else {
      MulLe(top + 1, 128, p);
    }
    MulLe(top + 1, 256, p);
  }

  lemma {:induction false} UnsignedBound(bs: seq<byte>)
    ensures Unsigned(bs) < Pow256(|bs|)
  {
    if bs != [] {
      UnsignedBound(bs[1..]);
      LeadingDigit(bs[0] as nat, Pow256(|bs| - 1), Unsigned(bs[1..]));
    }
  }

  /** A value of n bytes lies in the n-byte two's-complement range, and is negative exactly when its top bit is set. */
  lemma SignedRange(bs: seq<byte>)
    requires |bs| >= 1
    ensures -128 * Pow256(|bs| - 1) <= Signed(bs) < 128 * Pow256(|bs| - 1)
    ensures Signed(bs) < 0 <==> bs[0] >= 128
  {
    UnsignedBound(bs[1..]);
    LeadingDigit(bs[0] as nat, Pow256(|bs| - 1), Unsigned(bs[1..]));
  }

  /** The id byte as Java's signed byte. */
  function SignedByte(b: byte): int {
    if b >= 128 then b as int - 256 else b as int
  }

  /** TagType.getType: no type outside 0..12, and an out-of-bounds index for 12 itself. */
  function TypeOfId(id: int): (r: Result<Option<TagType>, Failure>)
    ensures r == Err(TypeIdOutOfRange) <==> id == 12
    ensures r == Ok(None) <==> id < 0 || id > 12
    ensures 0 <= id < 12 ==> r == Ok(Some(TAG_TYPES[id]))
  {
    if id < 0 || id > 12 then Ok(None) else if id == 12 then Err(TypeIdOutOfRange) else Ok(Some(TAG_TYPES[id]))
  }

  /** The types newInstance creates a tag for. */
  predicate Creatable(ty: TagType) {
    ty != END && ty != ERROR
  }

  /** The payload width of the number types. */
  function Width(ty: TagType): nat {
    if ty == BYTE then 1 else if ty == SHORT || ty == INT || ty == FLOAT then (if ty == SHORT then 2 else 4) else 8
  }

  predicate IsNumberType(ty: TagType) {
    ty == BYTE || ty == SHORT || ty == INT || ty == LONG || ty == FLOAT || ty == DOUBLE
  }

  /** Bytes as characters, one per byte. */
  function Latin1(bs: seq<byte>): (r: string)
    ensures |r| == |bs| && forall i :: 0 <= i < |bs| ==> r[i] as int == bs[i] as int
  {
    if bs == [] then [] else [(bs[0] as int) as char] + Latin1(bs[1..])
  }

  /* ---- the decoding, as functions of the input and the cursor ---- */

  /** A result, the cursor after it, and the error counter after it. */
  datatype Parsed<T> = Parsed(result: Result<T, Failure>, pos: nat, errors: nat)

  /** What parseNamedTag returns (null as None), the cursor, and the error counter. */
  datatype Named = Named(tag: Option<Tag>, pos: nat, errors: nat)

  /** The n bytes at pos, or the end of the input. */
  function Take(d: seq<byte>, pos: nat, n: nat): Option<seq<byte>>
    requires pos <= |d|
  {
    if pos + n <= |d| then Some(d[pos..pos + n]) else None
  }

  /** Where the cursor stands after trying to read n bytes: a read past the end consumes the rest. */
  function After(d: seq<byte>, pos: nat, n: nat): (r: nat)
    requires pos <= |d|
    ensures pos <= r <= |d|
  {
    if pos + n <= |d| then pos + n else |d|
  }

  /** A string payload: a signed 16-bit length, then that many bytes. */
  function StringAt(d: seq<byte>, pos: nat): (r: Parsed<string>)
    requires pos <= |d|
    ensures pos <= r.pos <= |d| && r.errors == 0
    ensures r.result.Ok? ==> r.pos >= pos + 2
  {
    if pos + 2 > |d| then Parsed(Err(EndOfInput), |d|, 0)
    else
      var len := Signed(d[pos..pos + 2]);
      if len < 0 then Parsed(Err(NegativeSize), pos + 2, 0)
      else if pos + 2 + len > |d| then Parsed(Err(EndOfInput), |d|, 0)
      else Parsed(Ok(Latin1(d[pos + 2..pos + 2 + len])), pos + 2 + len, 0)
  }

  /** The error tag that replaces a failed named tag. */
  function ErrorTag(counter: nat, f: Failure): Tag {
    Tag(Some("error_" + NatToString(counter)), Error(f))
  }

  function Caught(f: Failure, pos: nat, counter: nat): Named {
    Named(Some(ErrorTag(counter, f)), pos, counter + 1)
  }

  /** parseNamedTag: a type byte, then (unless END or no type) the name and the payload. */
  function NamedTagAt(d: seq<byte>, pos: nat, err: nat): (r: Named)
    requires pos <= |d|
    ensures pos <= r.pos <= |d| && r.errors >= err
    ensures r.tag.Some? ==> r.tag.value.name.Some?
    ensures r.tag.Some? && !r.tag.value.body.Error? ==> r.pos > pos
    decreases |d| - pos, 0, 0
  {
    if pos + 1 > |d| then Caught(EndOfInput, |d|, err)
    else
      var ty := TypeOfId(SignedByte(d[pos]));
      if ty.Err? then Caught(ty.error, pos + 1, err)
      else if ty.value.None? || ty.value.value == END then Named(None, pos + 1, err)
      else if ty.value.value == ERROR then Caught(UnknownType, pos + 1, err)
      else
        var name := StringAt(d, pos + 1);
        if name.result.Err? then Caught(name.result.error, name.pos, err)
        else
          var p := PayloadAt(d, ty.value.value, name.pos, err);
          if p.result.Err? then Caught(p.result.error, p.pos, p.errors)
          else Named(Some(Tag(Some(name.result.value), p.result.value)), p.pos, p.errors)
  }

  /** The parse method of the tag created for ty. */
  function PayloadAt(d: seq<byte>, ty: TagType, pos: nat, err: nat): (r: Parsed<Body>)
    requires pos <= |d| && Creatable(ty)
    ensures pos <= r.pos <= |d| && r.errors >= err
    ensures r.result.Ok? ==> !r.result.value.Error?
    decreases |d| - pos, 2, 0
  {
    if ty == COMPOUND then
      var c := EntriesFrom(d, pos, err, []);
      Parsed(Ok(Compound(c.result.value)), c.pos, c.errors)
    else if ty == LIST then
      if pos + 1 > |d| then Parsed(Err(EndOfInput), |d|, err)
      else
        var lt := TypeOfId(SignedByte(d[pos]));
        if lt.Err? then Parsed(Err(lt.error), pos + 1, err)
        else if pos + 5 > |d| then Parsed(Err(EndOfInput), |d|, err)
        else
          var e := ElementsFrom(d, lt.value, Signed(d[pos + 1..pos + 5]), pos + 5, err, []);
          Parsed(if e.result.Ok? then Ok(List(lt.value, e.result.value)) else Err(e.result.error), e.pos, e.errors)
    else if ty == STRING then
      var s := StringAt(d, pos);
      Parsed(if s.result.Ok? then Ok(StringValue(s.result.value)) else Err(s.result.error), s.pos, err)
    else if ty == BYTE_ARRAY then
      if pos + 4 > |d| then Parsed(Err(EndOfInput), |d|, err)
      else
        var len := Signed(d[pos..pos + 4]);
        if len < 0 then Parsed(Err(NegativeSize), pos + 4, err)
        else if pos + 4 + len > |d| then Parsed(Err(EndOfInput), |d|, err)
        else Parsed(Ok(ByteArray(d[pos + 4..pos + 4 + len])), pos + 4 + len, err)
    else
      var n := Width(ty);
      if pos + n > |d| then Parsed(Err(EndOfInput), |d|, err)
      else
        var bs := d[pos..pos + n];
        Parsed(Ok(Number(ty, if ty == FLOAT || ty == DOUBLE then Unsigned(bs) else Signed(bs))), pos + n, err)
  }

  /**
   * The element loop of a list: count more elements are wanted, acc holds
   * those read; it also stops after an error element.
   */
  function ElementsFrom(d: seq<byte>, lt: Option<TagType>, count: int, pos: nat, err: nat, acc: seq<Tag>): (r: Parsed<seq<Tag>>)
    requires pos <= |d|
    ensures pos <= r.pos <= |d| && r.errors >= err
    decreases |d| - pos, 3, if count > 0 then count else 0
  {
    if count <= 0 || (|acc| > 0 && acc[|acc| - 1].body.Error?) then Parsed(Ok(acc), pos, err)
    else if lt.None? || lt.value == END then Parsed(Err(NullElement), pos, err)
    else if lt.value == ERROR then Parsed(Err(UnknownType), pos, err)
    else
      var p := PayloadAt(d, lt.value, pos, err);
      if p.result.Err? then Parsed(Err(p.result.error), p.pos, p.errors)
      else ElementsFrom(d, lt, count - 1, p.pos, p.errors, acc + [Tag(None, p.result.value)])
  }

  /** One element of the list loop: its payload fails the list or is appended. */
  lemma ElementStep(d: seq<byte>, lt: Option<TagType>, count: int, pos: nat, err: nat, acc: seq<Tag>)
    requires pos <= |d| && count > 0 && !(|acc| > 0 && acc[|acc| - 1].body.Error?)
    requires lt.Some? && Creatable(lt.value)
    ensures var p := PayloadAt(d, lt.value, pos, err);
      ElementsFrom(d, lt, count, pos, err, acc)
      == if p.result.Err? then Parsed(Err(p.result.error), p.pos, p.errors)
         else ElementsFrom(d, lt, count - 1, p.pos, p.errors, acc + [Tag(None, p.result.value)])
  {
  }

  /** The child loop of a compound: named tags up to null, each put under its lower-cased name, stopping after an error tag. */
  function EntriesFrom(d: seq<byte>, pos: nat, err: nat, acc: seq<Entry>): (r: Parsed<seq<Entry>>)
    requires pos <= |d|
    ensures pos <= r.pos <= |d| && r.errors >= err && r.result.Ok?
    decreases |d| - pos, 1, 0
  {
    var n := NamedTagAt(d, pos, err);
    if n.tag.None? then Parsed(Ok(acc), n.pos, n.errors)
    else
      var t := n.tag.value;
      var acc' := Put(acc, ToLower(t.name.value), t);
      if t.body.Error? then Parsed(Ok(acc'), n.pos, n.errors)
      else EntriesFrom(d, n.pos, n.errors, acc')
  }

  /* ---- the compound's map ---- */

  /** HashMap.put: a present key keeps its place and gets the new tag, a new key goes at the end. */
  function Put(es: seq<Entry>, key: string, t: Tag): (r: seq<Entry>)
    ensures |r| == |es| || |r| == |es| + 1
  {
    if es == [] then [Entry(key, t)]
    else if es[0].key == key then [Entry(key, t)] + es[1..]
    else [es[0]] + Put(es[1..], key, t)
  }

  /** HashMap.get on the stored keys. */
  function Lookup(es: seq<Entry>, key: string): Option<Tag> {
    if es == [] then None else if es[0].key == key then Some(es[0].tag) else Lookup(es[1..], key)
  }

  function Keys(es: seq<Entry>): (r: set<string>)
    ensures forall i :: 0 <= i < |es| ==> es[i].key in r
    ensures forall k :: k in r ==> exists i :: 0 <= i < |es| && es[i].key == k
  {
    if es == [] then {} else {es[0].key} + Keys(es[1..])
  }

  /** After a put, the key gives the new tag and every other key what it gave before: a later duplicate wins. */
  lemma {:induction false} LookupPut(es: seq<Entry>, key: string, t: Tag, k: string)
    ensures Lookup(Put(es, key, t), k) == if k == key then Some(t) else Lookup(es, k)
  {
    if es != [] && es[0].key != key {
      LookupPut(es[1..], key, t, k);
    }
  }

  lemma {:induction false} KeysPut(es: seq<Entry>, key: string, t: Tag)
    ensures Keys(Put(es, key, t)) == Keys(es) + {key}
  {
    if es != [] && es[0].key != key {
      KeysPut(es[1..], key, t);
    }
  }

  /** Every key of a map built by puts is stored once. */
  predicate UniqueKeys(es: seq<Entry>) {
    forall i, j :: 0 <= i < j < |es| ==> es[i].key != es[j].key
  }

  lemma {:induction false} PutKeepsUniqueKeys(es: seq<Entry>, key: string, t: Tag)
    requires UniqueKeys(es)
    ensures UniqueKeys(Put(es, key, t))
  {
    if es != [] && es[0].key != key {
      PutKeepsUniqueKeys(es[1..], key, t);
      KeysPut(es[1..], key, t);
      var r := Put(es, key, t);
      forall j | 0 < j < |r|
        ensures r[0].key != r[j].key
      {
        assert r[j].key in Keys(Put(es[1..], key, t));
        assert es[0].key !in Keys(es[1..]);
      }
    }
  }

  /** CompoundTag.get: the key is lower-cased first. */
  function Get(es: seq<Entry>, key: string): Option<Tag> {
    Lookup(es, ToLower(key))
  }

  /** CompoundTag.containsKey: the key is lower-cased first. */
  predicate ContainsKey(es: seq<Entry>, key: string) {
    ToLower(key) in Keys(es)
  }

  /** No value of a compound is null, so containsKey and get agree. */
  lemma {:induction false} ContainsKeyIffGet(es: seq<Entry>, key: string)
    ensures ContainsKey(es, key) <==> Get(es, key).Some?
  {
    LookupFindsKeys(es, ToLower(key));
  }

  lemma {:induction false} LookupFindsKeys(es: seq<Entry>, k: string)
    ensures k in Keys(es) <==> Lookup(es, k).Some?
  {
    if es != [] && es[0].key != k {
      LookupFindsKeys(es[1..], k);
    }
  }

  /** CompoundTag.remove: the map of a decoded compound is unmodifiable, so every call fails. */
  function Remove(es: seq<Entry>, key: string): (r: Result<Option<Tag>, Exception>)
    ensures r.Err? && r.error.className == "UnsupportedOperationException"
  {
    Err(Exception("UnsupportedOperationException", None))
  }

  /** A decoded compound stores each child under its lower-cased name, once, and holds at most one error tag. */
  predicate WellStored(es: seq<Entry>) {
    UniqueKeys(es) && StoredByName(es)
    && (forall i, j :: 0 <= i < |es| && 0 <= j < |es| && es[i].tag.body.Error? && es[j].tag.body.Error? ==> i == j)
  }

  /** Every entry is stored under its tag's lower-cased name. */
  predicate StoredByName(es: seq<Entry>) {
    forall i :: 0 <= i < |es| ==> es[i].tag.name.Some? && es[i].key == ToLower(es[i].tag.name.value)
  }

  predicate NoErrorTag(es: seq<Entry>) {
    forall i :: 0 <= i < |es| ==> !es[i].tag.body.Error?
  }

  /** The only error tag after a put into an error-free map is the one put. */
  predicate ErrorsAre(es: seq<Entry>, t: Tag) {
    forall i :: 0 <= i < |es| && es[i].tag.body.Error? ==> es[i].tag == t
  }

  lemma {:induction false} PutNamed(es: seq<Entry>, t: Tag)
    requires t.name.Some? && StoredByName(es) && NoErrorTag(es)
    ensures StoredByName(Put(es, ToLower(t.name.value), t))
    ensures ErrorsAre(Put(es, ToLower(t.name.value), t), t)
  {
    var key := ToLower(t.name.value);
    var r := Put(es, key, t);
    if es == [] {
      assert r == [Entry(key, t)];
    } else if es[0].key == key {
      assert r == [Entry(key, t)] + es[1..];
      assert forall i :: 1 <= i < |r| ==> r[i] == es[i];
    } else {
      var tail := es[1..];
      assert forall i :: 0 <= i < |tail| ==> tail[i] == es[i + 1];
      PutNamed(tail, t);
      var rt := Put(tail, key, t);
      assert r == [es[0]] + rt;
      assert forall i :: 1 <= i < |r| ==> r[i] == rt[i - 1];
    }
  }

  /** Entries found so far are stored by name and hold no error tag: the loop goes on only after a good child. */
  predicate GoodSoFar(es: seq<Entry>) {
    UniqueKeys(es) && StoredByName(es) && NoErrorTag(es)
  }

  lemma PutGood(es: seq<Entry>, t: Tag)
    requires GoodSoFar(es) && t.name.Some?
    ensures WellStored(Put(es, ToLower(t.name.value), t))
    ensures !t.body.Error? ==> GoodSoFar(Put(es, ToLower(t.name.value), t))
  {
    var key := ToLower(t.name.value);
    PutKeepsUniqueKeys(es, key, t);
    PutNamed(es, t);
    var r := Put(es, key, t);
    forall i, j | 0 <= i < |r| && 0 <= j < |r| && r[i].tag.body.Error? && r[j].tag.body.Error?
      ensures i == j
    {
      assert r[i].tag == t && r[j].tag == t;
      assert r[i].key == key && r[j].key == key;
    }
    if !t.body.Error? {
      assert forall i :: 0 <= i < |r| ==> !r[i].tag.body.Error?;
    }
  }

  /** The children of every decoded compound are well stored: lower-cased unique keys, at most one error tag, which ends the compound. */
  lemma {:induction false} EntriesWellStored(d: seq<byte>, pos: nat, err: nat, acc: seq<Entry>)
    requires pos <= |d| && GoodSoFar(acc)
    ensures WellStored(EntriesFrom(d, pos, err, acc).result.value)
    decreases |d| - pos
  {
    var n := NamedTagAt(d, pos, err);
    if n.tag.Some? {
      var t := n.tag.value;
      PutGood(acc, t);
      if !t.body.Error? {
        EntriesWellStored(d, n.pos, n.errors, Put(acc, ToLower(t.name.value), t));
      }
    }
  }

  /** A list that decodes has exactly its count of elements (none for a negative count), none of them an error tag. */
  lemma {:induction false} ElementsCount(d: seq<byte>, lt: Option<TagType>, count: int, pos: nat, err: nat, acc: seq<Tag>)
    requires pos <= |d|
    requires forall i :: 0 <= i < |acc| ==> !acc[i].body.Error? && acc[i].name.None?
    ensures var r := ElementsFrom(d, lt, count, pos, err, acc);
      r.result.Ok? ==> (|r.result.value| == |acc| + (if count > 0 then count else 0)
        && acc <= r.result.value
        && forall i :: 0 <= i < |r.result.value| ==> !r.result.value[i].body.Error? && r.result.value[i].name.None?)
    decreases |d| - pos, if count > 0 then count else 0
  {
    if count > 0 && lt.Some? && lt.value != END && lt.value != ERROR {
      var p := PayloadAt(d, lt.value, pos, err);
      if p.result.Ok? {
        var acc' := acc + [Tag(None, p.result.value)];
        assert ElementsFrom(d, lt, count, pos, err, acc) == ElementsFrom(d, lt, count - 1, p.pos, p.errors, acc');
        ElementsCount(d, lt, count - 1, p.pos, p.errors, acc');
        assert acc <= acc';
      }
    }
  }

  /* ---- layout facts ---- */

  /** A type byte of no type (negative, above 12) or END ends a compound: parseNamedTag returns null after one byte. */
  lemma NamedTagEnd(d: seq<byte>, pos: nat, err: nat)
    requires pos < |d|
    requires var id := SignedByte(d[pos]); id <= 0 || id > 12
    ensures NamedTagAt(d, pos, err) == Named(None, pos + 1, err)
  {
    var id := SignedByte(d[pos]);
    if id == 0 {
      assert TAG_TYPES[0] == END;
    }
  }

  /** Type ids 11 and 12, and a missing type byte, give an error tag named after the counter, which moves on by one. */
  lemma NamedTagBadType(d: seq<byte>, pos: nat, err: nat)
    requires pos <= |d|
    requires pos == |d| || SignedByte(d[pos]) == 11 || SignedByte(d[pos]) == 12
    ensures var r := NamedTagAt(d, pos, err);
      r.tag == Some(Tag(Some("error_" + NatToString(err)), r.tag.value.body)) && r.tag.value.body.Error?
      && r.errors == err + 1 && r.pos == (if pos == |d| then |d| else pos + 1)
  {
    if pos < |d| && SignedByte(d[pos]) == 11 {
      assert TAG_TYPES[11] == ERROR;
    }
  }

  /** The payload of an integer number type: its width of bytes as a two's-complement value. */
  lemma IntegerPayload(d: seq<byte>, ty: TagType, pos: nat, err: nat)
    requires ty == BYTE || ty == SHORT || ty == INT || ty == LONG
    requires pos + Width(ty) <= |d|
    ensures PayloadAt(d, ty, pos, err) == Parsed(Ok(Number(ty, Signed(d[pos..pos + Width(ty)]))), pos + Width(ty), err)
  {
  }

  /** A string payload that fits: the length, then that many bytes as the characters. */
  lemma StringPayload(d: seq<byte>, pos: nat)
    requires pos + 2 <= |d|
    requires var len := Signed(d[pos..pos + 2]); len >= 0 && pos + 2 + len <= |d|
    ensures var len := Signed(d[pos..pos + 2]);
      StringAt(d, pos) == Parsed(Ok(Latin1(d[pos + 2..pos + 2 + len])), pos + 2 + len, 0)
  {
  }

  /** A named tag whose type, name and payload all read: the tag with that name and payload. */
  lemma NamedTagRead(d: seq<byte>, pos: nat, err: nat, ty: TagType)
    requires pos < |d| && TypeOfId(SignedByte(d[pos])) == Ok(Some(ty)) && Creatable(ty)
    requires StringAt(d, pos + 1).result.Ok?
    requires PayloadAt(d, ty, StringAt(d, pos + 1).pos, err).result.Ok?
    ensures var name := StringAt(d, pos + 1);
      var p := PayloadAt(d, ty, name.pos, err);
      NamedTagAt(d, pos, err) == Named(Some(Tag(Some(name.result.value), p.result.value)), p.pos, p.errors)
  {
  }

  /** An error tag's name carries the counter value it was made with. */
  lemma ErrorTagName(counter: nat, f: Failure)
    ensures var t := ErrorTag(counter, f);
      t.name.Some? && "error_" <= t.name.value && DigitsValue(t.name.value[6..]) == counter
  {
    var s := "error_" + NatToString(counter);
    assert s[6..] == NatToString(counter);
    DigitsValueOfNatToString(counter);
  }

  /* ---- the root and the tree ---- */

  /** parseFile: the root must be a compound (or null); anything else is a ParseException. */
  function RootOf(d: seq<byte>): (r: Result<Option<Tag>, Exception>)
    ensures r.Ok? && r.value.Some? ==> r.value.value.body.Compound?
  {
    var n := NamedTagAt(d, 0, 0);
    if n.tag.Some? && !n.tag.value.body.Compound? then Err(Exception("ParseException", Some("Non-compound root tag")))
    else Ok(n.tag)
  }

  predicate NamedAs(t: Tag, name: string) {
    t.name.Some? && EqualsIgnoreCase(name, t.name.value)
  }

  /** findTag: this tag when its name matches, else the first match among the children, depth first. */
  function FindTag(t: Tag, name: string): Option<Tag>
    decreases t, 1
  {
    if NamedAs(t, name) then Some(t)
    else if t.body.List? then FindInList(t.body.elements, name)
    else if t.body.Compound? then FindInEntries(t.body.entries, name)
    else None
  }

  function FindInList(ts: seq<Tag>, name: string): Option<Tag>
    decreases ts, 0
  {
    if ts == [] then None
    else
      var r := FindTag(ts[0], name);
      if r.Some? then r else FindInList(ts[1..], name)
  }

  function FindInEntries(es: seq<Entry>, name: string): Option<Tag>
    decreases es, 0
  {
    if es == [] then None
    else
      var r := FindTag(es[0].tag, name);
      if r.Some? then r else FindInEntries(es[1..], name)
  }

  /** The tags of a tree in depth-first pre-order, children in their stored order. */
  function Subtrees(t: Tag): (r: seq<Tag>)
    ensures |r| >= 1 && r[0] == t
    decreases t, 1
  {
    [t] + (if t.body.List? then ListSubtrees(t.body.elements)
           else if t.body.Compound? then EntrySubtrees(t.body.entries)
           else [])
  }

  function ListSubtrees(ts: seq<Tag>): seq<Tag>
    decreases ts, 0
  {
    if ts == [] then [] else Subtrees(ts[0]) + ListSubtrees(ts[1..])
  }

  function EntrySubtrees(es: seq<Entry>): seq<Tag>
    decreases es, 0
  {
    if es == [] then [] else Subtrees(es[0].tag) + EntrySubtrees(es[1..])
  }

  /** The first tag of a sequence with the name. */
  function FirstNamed(ts: seq<Tag>, name: string): Option<Tag> {
    if ts == [] then None else if NamedAs(ts[0], name) then Some(ts[0]) else FirstNamed(ts[1..], name)
  }

  lemma {:induction false} FirstNamedAppend(a: seq<Tag>, b: seq<Tag>, name: string)
    ensures FirstNamed(a + b, name) == if FirstNamed(a, name).Some? then FirstNamed(a, name) else FirstNamed(b, name)
  {
    if a != [] {
      assert (a + b)[1..] == a[1..] + b;
      FirstNamedAppend(a[1..], b, name);
    } else {
      assert a + b == b;
    }
  }

  /** findTag is the first tag named so in the depth-first pre-order of the tree. */
  lemma {:induction false} FindTagIsFirstInPreorder(t: Tag, name: string)
    ensures FindTag(t, name) == FirstNamed(Subtrees(t), name)
    decreases t, 1
  {
    var rest := if t.body.List? then ListSubtrees(t.body.elements)
                else if t.body.Compound? then EntrySubtrees(t.body.entries)
                else [];
    assert Subtrees(t) == [t] + rest;
    assert ([t] + rest)[1..] == rest;
    if t.body.List? {
      FindInListIsFirst(t.body.elements, name);
    } else if t.body.Compound? {
      FindInEntriesIsFirst(t.body.entries, name);
    }
  }

  lemma {:induction false} FindInListIsFirst(ts: seq<Tag>, name: string)
    ensures FindInList(ts, name) == FirstNamed(ListSubtrees(ts), name)
    decreases ts, 0
  {
    if ts != [] {
      FindTagIsFirstInPreorder(ts[0], name);
      FindInListIsFirst(ts[1..], name);
      FirstNamedAppend(Subtrees(ts[0]), ListSubtrees(ts[1..]), name);
    }
  }

  lemma {:induction false} FindInEntriesIsFirst(es: seq<Entry>, name: string)
    ensures FindInEntries(es, name) == FirstNamed(EntrySubtrees(es), name)
    decreases es, 0
  {
    if es != [] {
      FindTagIsFirstInPreorder(es[0].tag, name);
      FindInEntriesIsFirst(es[1..], name);
      FirstNamedAppend(Subtrees(es[0].tag), EntrySubtrees(es[1..]), name);
    }
  }

  lemma {:induction false} FirstNamedExact(ts: seq<Tag>, name: string)
    ensures FirstNamed(ts, name).Some? <==> exists i :: 0 <= i < |ts| && NamedAs(ts[i], name)
    ensures FirstNamed(ts, name).Some? ==> NamedAs(FirstNamed(ts, name).value, name) && FirstNamed(ts, name).value in ts
  {
    if ts != [] && !NamedAs(ts[0], name) {
      FirstNamedExact(ts[1..], name);
      if exists i :: 0 <= i < |ts| && NamedAs(ts[i], name) {
        var i :| 0 <= i < |ts| && NamedAs(ts[i], name);
        assert ts[1..][i - 1] == ts[i];
      }
    }
  }

  /**
   * Whatever order the children are visited in, findTag finds a tag exactly
   * when some tag of the tree has the name (ignoring case), and what it
   * finds is such a tag.
   */
  lemma FindTagFound(t: Tag, name: string)
    ensures FindTag(t, name).Some? <==> exists i :: 0 <= i < |Subtrees(t)| && NamedAs(Subtrees(t)[i], name)
    ensures FindTag(t, name).Some? ==> NamedAs(FindTag(t, name).value, name) && FindTag(t, name).value in Subtrees(t)
  {
    FindTagIsFirstInPreorder(t, name);
    FirstNamedExact(Subtrees(t), name);
  }

  /* ---- byte arrays ---- */

  function HexDigit(v: nat): (c: char)
    requires v < 16
  {
    if v < 10 then ('0' as int + v) as char else ('a' as int + v - 10) as char
  }

  /** Integer.toHexString of an unsigned byte: lower-case digits, no padding. */
  function Hex(b: byte): (r: string)
    ensures 1 <= |r| <= 2
  {
    var v := b as nat;
    if v < 16 then [HexDigit(v)] else [HexDigit(v / 16), HexDigit(v % 16)]
  }

  function HexDigitValue(c: char): nat {
    if '0' <= c <= '9' then c as int - '0' as int
    else if 'a' <= c <= 'f' then c as int - 'a' as int + 10
    else 0
  }

  /** The hex text of a byte reads back as the byte. */
  lemma HexRoundTrip(b: byte)
    ensures var r := Hex(b);
      (if |r| == 1 then HexDigitValue(r[0]) else HexDigitValue(r[0]) * 16 + HexDigitValue(r[1])) == b as nat
  {
  }

  function HexList(bs: seq<byte>): (r: seq<string>)
    ensures |r| == |bs| && forall i :: 0 <= i < |bs| ==> r[i] == Hex(bs[i])
  {
    if bs == [] then [] else HexList(bs[..|bs| - 1]) + [Hex(bs[|bs| - 1])]
  }

  /** The text of ByteArrayTag.toString after the first i bytes. */
  function RenderedPrefix(bs: seq<byte>, i: nat): string
    requires i <= |bs|
  {
    if i == 0 then "[" else "[" + Join(HexList(bs[..i]), ",") + (if i < |bs| then "," else "]")
  }

  lemma RenderedStep(bs: seq<byte>, i: nat)
    requires i < |bs|
    ensures RenderedPrefix(bs, i + 1) == RenderedPrefix(bs, i) + Hex(bs[i]) + (if i < |bs| - 1 then "," else "]")
  {
    var sep := if i < |bs| - 1 then "," else "]";
    assert RenderedPrefix(bs, i + 1) == "[" + Join(HexList(bs[..i + 1]), ",") + sep;
    assert bs[..i + 1][..i] == bs[..i];
    assert HexList(bs[..i + 1]) == HexList(bs[..i]) + [Hex(bs[i])];
    if i > 0 {
      JoinSnoc(HexList(bs[..i]), Hex(bs[i]), ",");
    } else {
      assert Join(HexList(bs[..1]), ",") == Hex(bs[0]);
    }
  }

  /** ByteArrayTag.toString: "[" and the hex values separated by commas and closed by "]"; just "[" when empty. */
  method ByteArrayToString(bs: seq<byte>) returns (s: string)
    ensures s == if bs == [] then "[" else "[" + Join(HexList(bs), ",") + "]"
  {
    s := "[";
    for i := 0 to |bs|
      invariant s == RenderedPrefix(bs, i)
    {
      RenderedStep(bs, i);
      s := s + Hex(bs[i]) + (if i < |bs| - 1 then "," else "]");
    }
    assert bs[..|bs|] == bs;
  }

  /** ByteArrayTag.getArray: a fresh array with the same bytes. */
  method GetArray(bs: seq<byte>) returns (a: array<byte>)
    ensures fresh(a) && a[..] == bs
  {
    a := new byte[|bs|](i requires 0 <= i < |bs| => bs[i]);
  }

  /* ---- the parser object ---- */

  class NbtParser {
    const data: seq<byte>
    var pos: nat
    var error: nat
    var rootTag: Option<Tag>

    constructor(data: seq<byte>)
      ensures this.data == data && pos == 0 && error == 0 && rootTag.None?
    {
      this.data := data;
      pos := 0;
      error := 0;
      rootTag := None;
    }

    /** readFully of n bytes: a read past the end consumes the rest and fails. */
    method ReadBytes(n: nat) returns (r: Option<seq<byte>>)
      requires pos <= |data|
      modifies this`pos
      ensures r == Take(data, old(pos), n) && pos == After(data, old(pos), n)
    {
      if pos + n <= |data| {
        r := Some(data[pos..pos + n]);
        pos := pos + n;
      } else {
        r := None;
        pos := |data|;
      }
    }

    /** StringTag.parse. */
    method ParseString() returns (r: Result<string, Failure>)
      requires pos <= |data|
      modifies this`pos
      ensures Parsed(r, pos, 0) == StringAt(data, old(pos))
    {
      var len := ReadBytes(2);
      if len.None? {
        return Err(EndOfInput);
      }
      var n := Signed(len.value);
      if n < 0 {
        return Err(NegativeSize);
      }
      var chars := ReadBytes(n);
      if chars.None? {
        return Err(EndOfInput);
      }
      r := Ok(Latin1(chars.value));
    }

    /** The catch block of parseNamedTag: an error tag named after the counter, which goes up. */
    method Catch(f: Failure) returns (t: Option<Tag>)
      modifies this`error
      ensures t == Some(ErrorTag(old(error), f)) && error == old(error) + 1
    {
      t := Some(ErrorTag(error, f));
      error := error + 1;
    }

    /** parseNamedTag. */
    method ParseNamedTag() returns (t: Option<Tag>)
      requires pos <= |data|
      modifies this`pos, this`error
      ensures Named(t, pos, error) == NamedTagAt(data, old(pos), old(error))
      decreases |data| - pos, 0
    {
      var id := ReadBytes(1);
      if id.None? {
        t := Catch(EndOfInput);
        return;
      }
      var ty := TypeOfId(SignedByte(id.value[0]));
      if ty.Err? {
        t := Catch(ty.error);
        return;
      }
      if ty.value.None? || ty.value.value == END {
        return None;
      }
      if ty.value.value == ERROR {
        t := Catch(UnknownType);
        return;
      }
      var name := ParseString();
      if name.Err? {
        t := Catch(name.error);
        return;
      }
      var body := ParsePayload(ty.value.value);
      if body.Err? {
        t := Catch(body.error);
        return;
      }
      t := Some(Tag(Some(name.value), body.value));
    }

    /** The parse method of the tag newInstance creates for ty. */
    method ParsePayload(ty: TagType) returns (r: Result<Body, Failure>)
      requires pos <= |data| && Creatable(ty)
      modifies this`pos, this`error
      ensures Parsed(r, pos, error) == PayloadAt(data, ty, old(pos), old(error))
      decreases |data| - pos, 2
    {
      if ty == COMPOUND {
        var es := ParseCompound();
        return Ok(Compound(es));
      } else if ty == LIST {
        r := ParseListPayload();
      } else if ty == STRING {
        var s := ParseString();
        r := if s.Ok? then Ok(StringValue(s.value)) else Err(s.error);
      } else if ty == BYTE_ARRAY {
        r := ParseByteArray();
      } else {
        var bs := ReadBytes(Width(ty));
        if bs.None? {
          return Err(EndOfInput);
        }
        r := Ok(Number(ty, if ty == FLOAT || ty == DOUBLE then Unsigned(bs.value) else Signed(bs.value)));
      }
    }

    /** ByteArrayTag.parse. */
    method ParseByteArray() returns (r: Result<Body, Failure>)
      requires pos <= |data|
      modifies this`pos
      ensures Parsed(r, pos, error) == PayloadAt(data, BYTE_ARRAY, old(pos), error)
    {
      var len := ReadBytes(4);
      if len.None? {
        return Err(EndOfInput);
      }
      var n := Signed(len.value);
      if n < 0 {
        return Err(NegativeSize);
      }
      var bytes := ReadBytes(n);
      if bytes.None? {
        return Err(EndOfInput);
      }
      r := Ok(ByteArray(bytes.value));
    }

    /** ListTag.parse: the element type byte, the count, then the elements. */
    method ParseListPayload() returns (r: Result<Body, Failure>)
      requires pos <= |data|
      modifies this`pos, this`error
      ensures Parsed(r, pos, error) == PayloadAt(data, LIST, old(pos), old(error))
      decreases |data| - pos, 1
    {
      var id := ReadBytes(1);
      if id.None? {
        return Err(EndOfInput);
      }
      var lt := TypeOfId(SignedByte(id.value[0]));
      if lt.Err? {
        return Err(lt.error);
      }
      var count := ReadBytes(4);
      if count.None? {
        return Err(EndOfInput);
      }
      var es := ParseElements(lt.value, Signed(count.value));
      r := if es.Ok? then Ok(List(lt.value, es.value)) else Err(es.error);
    }

    /** The element loop of ListTag.parse. */
    method ParseElements(lt: Option<TagType>, count: int) returns (r: Result<seq<Tag>, Failure>)
      requires pos <= |data|
      modifies this`pos, this`error
      ensures Parsed(r, pos, error) == ElementsFrom(data, lt, count, old(pos), old(error), [])
      decreases |data| - pos, 3
    {
      var list: seq<Tag> := [];
      var i := 0;
      while i < count && !(|list| > 0 && list[|list| - 1].body.Error?)
        invariant old(pos) <= pos <= |data|
        invariant ElementsFrom(data, lt, count - i, pos, error, list) == ElementsFrom(data, lt, count, old(pos), old(error), [])
        decreases count - i
      {
        if lt.None? || lt.value == END {
          return Err(NullElement);
        }
        if lt.value == ERROR {
          return Err(UnknownType);
        }
        ElementStep(data, lt, count - i, pos, error, list);
        var e := ParsePayload(lt.value);
        if e.Err? {
          return Err(e.error);
        }
        list := list + [Tag(None, e.value)];
        i := i + 1;
      }
      r := Ok(list);
    }

    /** CompoundTag.parse: named tags until null, each put under its lower-cased name, stopping after an error tag. */
    method ParseCompound() returns (entries: seq<Entry>)
      requires pos <= |data|
      modifies this`pos, this`error
      ensures Parsed(Ok(entries), pos, error) == EntriesFrom(data, old(pos), old(error), [])
      decreases |data| - pos, 1
    {
      entries := [];
      while true
        invariant old(pos) <= pos <= |data|
        invariant EntriesFrom(data, pos, error, entries) == EntriesFrom(data, old(pos), old(error), [])
        decreases |data| - pos
      {
        var t := ParseNamedTag();
        if t.None? {
          return;
        }
        entries := Put(entries, ToLower(t.value.name.value), t.value);
        if t.value.body.Error? {
          return;
        }
      }
    }

    /** parseFile: the root tag, which must be a compound; otherwise a ParseException and no root. */
    method ParseFile() returns (failure: Option<Exception>)
      requires pos == 0 && error == 0
      modifies this`pos, this`error, this`rootTag
      ensures RootOf(data).Err? ==> failure == Some(RootOf(data).error) && rootTag == old(rootTag)
      ensures RootOf(data).Ok? ==> failure.None? && rootTag == RootOf(data).value
    {
      var t := ParseNamedTag();
      if t.Some? && !t.value.body.Compound? {
        return Some(Exception("ParseException", Some("Non-compound root tag")));
      }
      rootTag := t;
      failure := None;
    }
  }

  /** NBTParser.parseFile(File): the decoded parser, or null when the root is not a compound. */
  method Load(data: seq<byte>) returns (p: NbtParser?)
    ensures RootOf(data).Err? ==> p == null
    ensures RootOf(data).Ok? ==> p != null && fresh(p) && p.rootTag == RootOf(data).value
  {
    p := new NbtParser(data);
    var failure := p.ParseFile();
    if failure.Some? {
      p := null;
    }
  }
}
