/**
 Content-addressed identity: the buffer hashed into an entry id, and the decoder that shows it
 determines the query, the optional context and the key set.
 */
module Identity {
  import opened Common

  newtype byte = x: int | 0 <= x < 256

  type Bytes = seq<byte>

  /** Allocations are shorter than 2^63 bytes, so a length always fits the eight-byte prefix. */
  const MAX_LENGTH := 0x8000_0000_0000_0000

  /** UTF-8 bytes of a query, a key, an entity or a context. */
  type Text = s: Bytes | |s| < MAX_LENGTH witness []

  const ID_BYTES := 16

  type IdBytes = b: Bytes | |b| == ID_BYTES witness [0, 0, 0, 0, 0, 0, 0, 0, 0, 0, 0, 0, 0, 0, 0, 0]

  datatype EntryId = EntryId(bytes: IdBytes)

  datatype Parts = Parts(query: Text, context: Option<Text>, keys: set<Text>)

  // ------------------------------------------------------------------ little-endian lengths

  function ToLe(n: nat, width: nat): (r: Bytes)
    ensures |r| == width
  {
    if width == 0 then [] else [(n % 256) as byte] + ToLe(n / 256, width - 1)
  }

  function FromLe(b: Bytes): nat {
    if b == [] then 0 else b[0] as int + 256 * FromLe(b[1..])
  }

  /** `n` has at most `width` base-256 digits. */
  predicate Fits(n: nat, width: nat) {
    if width == 0 then n == 0 else Fits(n / 256, width - 1)
  }

  /** The first number of more than `width` digits. */
  function Limit(width: nat): nat {
    if width == 0 then 1 else 256 * Limit(width - 1)
  }

  lemma {:induction false} FitsBelow(n: nat, width: nat)
    requires n < Limit(width)
    ensures Fits(n, width)
  {
    if width > 0 {
      FitsBelow(n / 256, width - 1);
    }
  }

  lemma LengthFits(n: nat)
    requires n < MAX_LENGTH
    ensures Fits(n, 8)
  {
    assert Limit(8) == 2 * MAX_LENGTH;
    FitsBelow(n, 8);
  }

  lemma {:induction false} LeRoundTrip(n: nat, width: nat)
    requires Fits(n, width)
    ensures FromLe(ToLe(n, width)) == n
  {
    if width > 0 {
      LeRoundTrip(n / 256, width - 1);
      assert ToLe(n, width)[1..] == ToLe(n / 256, width - 1);
    }
  }

  lemma {:induction false} LeCanonical(b: Bytes)
    ensures ToLe(FromLe(b), |b|) == b
  {
    if b != [] {
      LeCanonical(b[1..]);
      assert FromLe(b) % 256 == b[0] as int && FromLe(b) / 256 == FromLe(b[1..]);
    }
  }

  // ------------------------------------------------------------------ key order

  /** Byte-wise order of strings. */
  predicate Less(a: Bytes, b: Bytes) {
    b != [] && (a == [] || a[0] < b[0] || (a[0] == b[0] && Less(a[1..], b[1..])))
  }

  /** `a` comes first if it is a proper prefix, or has the smaller byte where they first differ. */
  lemma {:induction false} LessMeans(a: Bytes, b: Bytes)
    ensures Less(a, b) <==>
            exists k :: 0 <= k <= |a| && k < |b| && a[..k] == b[..k] && (k == |a| || a[k] < b[k])
  {
    if b != [] && a != [] && a[0] == b[0] {
      LessMeans(a[1..], b[1..]);
      if k :| 0 <= k <= |a| && k < |b| && a[..k] == b[..k] && (k == |a| || a[k] < b[k]) {
        assert k > 0;
        assert a[1..][..k - 1] == a[..k][1..] == b[..k][1..] == b[1..][..k - 1];
      }
      if k :| 0 <= k <= |a[1..]| && k < |b[1..]| && a[1..][..k] == b[1..][..k] && (k == |a[1..]| || a[1..][k] < b[1..][k]) {
        assert a[..k + 1] == [a[0]] + a[1..][..k] == [b[0]] + b[1..][..k] == b[..k + 1];
      }
    } else if Less(a, b) {
      assert a[..0] == b[..0];
    }
  }

  lemma {:induction false} LessTrans(a: Bytes, b: Bytes, c: Bytes)
    requires Less(a, b) && Less(b, c)
    ensures Less(a, c)
  {
    if a != [] && a[0] == b[0] == c[0] {
      LessTrans(a[1..], b[1..], c[1..]);
    }
  }

  lemma {:induction false} LessTotal(a: Bytes, b: Bytes)
    ensures a == b || Less(a, b) || Less(b, a)
    ensures !(Less(a, b) && Less(b, a))
  {
    if a != [] && b != [] && a[0] == b[0] {
      LessTotal(a[1..], b[1..]);
      assert a == [a[0]] + a[1..] && b == [b[0]] + b[1..];
    }
  }

  predicate IsFirst(keys: set<Text>, k: Text) {
    k in keys && forall j | j in keys :: j == k || Less(k, j)
  }

  lemma {:induction false} FirstExists(keys: set<Text>)
    requires keys != {}
    ensures exists k: Text :: IsFirst(keys, k)
  {
    var k :| k in keys;
    if keys != {k} {
      var rest := keys - {k};
      assert rest != {};
      FirstExists(rest);
      var m: Text :| IsFirst(rest, m);
      LessTotal(k, m);
      if Less(m, k) {
        assert IsFirst(keys, m);
      } else {
        forall j | j in rest && j != m ensures Less(k, j) {
          LessTrans(k, m, j);
        }
        assert IsFirst(keys, k);
      }
    } else {
      assert IsFirst(keys, k);
    }
  }

  /** The order in which the key set is walked. */
  ghost function Sorted(keys: set<Text>): seq<Text> {
    if keys == {} then []
    else
      FirstExists(keys);
      var k: Text :| IsFirst(keys, k);
      [k] + Sorted(keys - {k})
  }

  predicate StrictlySorted(ks: seq<Text>) {
    forall i, j | 0 <= i < j < |ks| :: Less(ks[i], ks[j])
  }

  /** The walk starts with the first key, which is unique. */
  lemma SortedStep(keys: set<Text>, k: Text)
    requires IsFirst(keys, k)
    ensures Sorted(keys) == [k] + Sorted(keys - {k})
  {
    FirstExists(keys);
    var m := Sorted(keys)[0];
    assert IsFirst(keys, m);
    LessTotal(m, k);
  }

  lemma {:induction false} SortedElements(keys: set<Text>)
    ensures Elements(Sorted(keys)) == keys && StrictlySorted(Sorted(keys))
  {
    if keys != {} {
      FirstExists(keys);
      var k: Text :| IsFirst(keys, k);
      SortedStep(keys, k);
      SortedElements(keys - {k});
      LessTotal(k, k);
      ConsSorted(k, Sorted(keys - {k}), keys - {k});
    }
  }

  lemma ConsSorted(k: Text, ks: seq<Text>, rest: set<Text>)
    requires Elements(ks) == rest && StrictlySorted(ks) && forall j | j in rest :: Less(k, j)
    ensures Elements([k] + ks) == {k} + rest && StrictlySorted([k] + ks)
  {
  }

  /** A strictly sorted sequence is the walk of its own elements. */
  lemma {:induction false} SortedUnique(ks: seq<Text>)
    requires StrictlySorted(ks)
    ensures Sorted(Elements(ks)) == ks
  {
    if ks != [] {
      var keys := Elements(ks);
      assert IsFirst(keys, ks[0]);
      SortedStep(keys, ks[0]);
      LessTotal(ks[0], ks[0]);
      assert keys - {ks[0]} == Elements(ks[1..]);
      SortedUnique(ks[1..]);
    }
  }

  // ------------------------------------------------------------------ encoding

  function Field(field: Text): Bytes {
    ToLe(|field|, 8) + field
  }

  function Fields(fields: seq<Text>): Bytes {
    if fields == [] then [] else Field(fields[0]) + Fields(fields[1..])
  }

  function Tagged(context: Option<Text>): Bytes {
    match context
    case Some(text) => [1] + Field(text)
    case None => [0]
  }

  /** The buffer that is hashed. */
  ghost function Encode(p: Parts): Bytes {
    Field(p.query) + Tagged(p.context) + Fields(Sorted(p.keys))
  }

  lemma {:induction false} FieldsAppend(fields: seq<Text>, last: Text)
    ensures Fields(fields + [last]) == Fields(fields) + Field(last)
  {
    if fields == [] {
      assert [last][1..] == [];
    } else {
      FieldsAppend(fields[1..], last);
      assert (fields + [last])[1..] == fields[1..] + [last];
    }
  }

  method PushField(buf: Bytes, field: Text) returns (r: Bytes)
    ensures r == buf + Field(field)
  {
    r := buf + ToLe(|field|, 8);
    r := r + field;
  }

  lemma Walk(walked: seq<Text>, rest: set<Text>, k: Text)
    requires IsFirst(rest, k)
    ensures walked + [k] + Sorted(rest - {k}) == walked + Sorted(rest)
    ensures Fields(walked + [k]) == Fields(walked) + Field(k)
  {
    SortedStep(rest, k);
    FieldsAppend(walked, k);
  }

  /** Pushes the keys in byte-wise order. */
  method PushKeys(buf: Bytes, keys: set<Text>) returns (r: Bytes)
    ensures r == buf + Fields(Sorted(keys))
  {
    r := buf;
    var rest := keys;
    ghost var walked: seq<Text> := [];
    while rest != {}
      invariant walked + Sorted(rest) == Sorted(keys)
      invariant r == buf + Fields(walked)
      decreases rest
    {
      FirstExists(rest);
      var k: Text :| IsFirst(rest, k);
      Walk(walked, rest, k);
      r := PushField(r, k);
      walked := walked + [k];
      rest := rest - {k};
    }
    assert walked == Sorted(keys);
  }

  /** Derives the id of an entry; `uuid5` is the name-based UUID of section 5.5 of RFC 9562. */
  method Derive(uuid5: Bytes -> EntryId, p: Parts) returns (id: EntryId)
    ensures id == uuid5(Encode(p))
  {
    var buf := PushField([], p.query);
    match p.context {
      case Some(text) =>
        buf := buf + [1];
        buf := PushField(buf, text);
      case None =>
        buf := buf + [0];
    }
    assert buf == Field(p.query) + Tagged(p.context);
    buf := PushKeys(buf, p.keys);
    id := uuid5(buf);
  }

  // ------------------------------------------------------------------ decoding

  function TakeField(b: Bytes): (r: Option<(Text, Bytes)>)
    ensures r.Some? ==> |r.value.1| < |b|
  {
    if |b| < 8 then None
    else
      var n := FromLe(b[..8]);
      if n > |b| - 8 || n >= MAX_LENGTH then None else Some((b[8..8 + n], b[8 + n..]))
  }

  function TakeFields(b: Bytes): Option<seq<Text>>
    decreases |b|
  {
    if b == [] then Some([])
    else
      match TakeField(b)
      case None => None
      case Some((field, rest)) =>
        match TakeFields(rest)
        case None => None
        case Some(fields) => Some([field] + fields)
  }

  function TakeTagged(b: Bytes): Option<(Option<Text>, Bytes)> {
    if b == [] then None
    else if b[0] == 0 then Some((None, b[1..]))
    else if b[0] == 1 then
      match TakeField(b[1..])
      case None => None
      case Some((text, rest)) => Some((Some(text), rest))
    else None
  }

  /** Reads a buffer back, rejecting every byte sequence that no entry encodes to. */
  ghost function Decode(b: Bytes): Option<Parts> {
    match TakeField(b)
    case None => None
    case Some((query, b1)) =>
      match TakeTagged(b1)
      case None => None
      case Some((context, b2)) =>
        match TakeFields(b2)
        case None => None
        case Some(ks) => if StrictlySorted(ks) then Some(Parts(query, context, Elements(ks))) else None
  }

  lemma TakeFieldRoundTrip(field: Text, rest: Bytes)
    ensures TakeField(Field(field) + rest) == Some((field, rest))
  {
    var b := Field(field) + rest;
    LengthFits(|field|);
    LeRoundTrip(|field|, 8);
    assert b[..8] == ToLe(|field|, 8);
    assert b[8..8 + |field|] == field && b[8 + |field|..] == rest;
  }

  lemma TakeFieldCanonical(b: Bytes)
    ensures TakeField(b).Some? ==> b == Field(TakeField(b).value.0) + TakeField(b).value.1
  {
    if TakeField(b).Some? {
      LeCanonical(b[..8]);
      var n := FromLe(b[..8]);
      assert b == b[..8] + b[8..8 + n] + b[8 + n..];
    }
  }

  lemma {:induction false} TakeFieldsRoundTrip(fields: seq<Text>)
    ensures TakeFields(Fields(fields)) == Some(fields)
  {
    if fields != [] {
      TakeFieldRoundTrip(fields[0], Fields(fields[1..]));
      TakeFieldsRoundTrip(fields[1..]);
      assert fields == [fields[0]] + fields[1..];
    }
  }

  lemma {:induction false} TakeFieldsCanonical(b: Bytes)
    ensures TakeFields(b).Some? ==> Fields(TakeFields(b).value) == b
    decreases |b|
  {
    if TakeFields(b).Some? && b != [] {
      TakeFieldCanonical(b);
      TakeFieldsCanonical(TakeField(b).value.1);
      assert TakeFields(b).value[1..] == TakeFields(TakeField(b).value.1).value;
    }
  }

  lemma TakeTaggedRoundTrip(context: Option<Text>, rest: Bytes)
    ensures TakeTagged(Tagged(context) + rest) == Some((context, rest))
  {
    match context
    case Some(text) =>
      var b := Tagged(context) + rest;
      assert b[0] == 1 && b[1..] == Field(text) + rest;
      TakeFieldRoundTrip(text, rest);
    case None =>
      var b := Tagged(context) + rest;
      assert b[0] == 0 && b[1..] == rest;
  }

  lemma TakeTaggedCanonical(b: Bytes)
    ensures TakeTagged(b).Some? ==> b == Tagged(TakeTagged(b).value.0) + TakeTagged(b).value.1
  {
    if TakeTagged(b).Some? {
      assert b == [b[0]] + b[1..];
      if b[0] == 1 {
        TakeFieldCanonical(b[1..]);
      }
    }
  }

  // ------------------------------------------------------------------ main results

  /** The decoder is the exact inverse: a buffer decodes to an entry exactly when it is its encoding. */
  lemma DecodeInverts(b: Bytes, p: Parts)
    ensures Decode(b) == Some(p) <==> b == Encode(p)
  {
    var tail := Fields(Sorted(p.keys));
    if b == Encode(p) {
      assert b == Field(p.query) + (Tagged(p.context) + tail);
      TakeFieldRoundTrip(p.query, Tagged(p.context) + tail);
      TakeTaggedRoundTrip(p.context, tail);
      TakeFieldsRoundTrip(Sorted(p.keys));
      SortedElements(p.keys);
    }
    if Decode(b) == Some(p) {
      var b1 := TakeField(b).value.1;
      var b2 := TakeTagged(b1).value.1;
      TakeFieldCanonical(b);
      TakeTaggedCanonical(b1);
      TakeFieldsCanonical(b2);
      SortedUnique(TakeFields(b2).value);
      assert b == Field(p.query) + Tagged(p.context) + b2;
    }
  }

  lemma EncodeInjective(p: Parts, q: Parts)
    ensures Encode(p) == Encode(q) <==> p == q
  {
    DecodeInverts(Encode(p), p);
    DecodeInverts(Encode(q), q);
  }

  /** The hash has no collision among the buffers of the entries in use. */
  ghost predicate CollisionFree(uuid5: Bytes -> EntryId, used: set<Parts>) {
    forall p, q | p in used && q in used :: uuid5(Encode(p)) == uuid5(Encode(q)) ==> Encode(p) == Encode(q)
  }

  /** Entries that differ in query, context or keys get different ids. */
  lemma DistinctIds(uuid5: Bytes -> EntryId, used: set<Parts>, p: Parts, q: Parts)
    requires CollisionFree(uuid5, used) && p in used && q in used
    ensures uuid5(Encode(p)) == uuid5(Encode(q)) <==> p == q
  {
    EncodeInjective(p, q);
  }

  // ------------------------------------------------------------------ arbitrary ids

  /** The id whose bytes spell a number. */
  function Numbered(n: nat): EntryId {
    EntryId(ToLe(n, ID_BYTES))
  }

  lemma ManyIds()
    ensures Limit(ID_BYTES) == 0x1_0000_0000_0000_0000_0000_0000_0000_0000
  {
    assert Limit(8) == 0x1_0000_0000_0000_0000;
  }

  lemma NumberedDistinct(n: nat, m: nat)
    requires n < Limit(ID_BYTES) && m < Limit(ID_BYTES)
    ensures Numbered(n) == Numbered(m) <==> n == m
  {
    FitsBelow(n, ID_BYTES);
    FitsBelow(m, ID_BYTES);
    LeRoundTrip(n, ID_BYTES);
    LeRoundTrip(m, ID_BYTES);
  }
}
