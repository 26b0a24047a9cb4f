/**
 The hexadecimal form of entry ids, as the remote store sends them back.
 */
module Hex {
  import opened Common
  import opened Identity

  const PLUS: byte := 43

  function Digit(b: byte): (r: Option<nat>)
    ensures r.Some? ==> r.value < 16
  {
    if 48 <= b <= 57 then Some(b as int - 48)
    else if 97 <= b <= 102 then Some(b as int - 87)
    else if 65 <= b <= 70 then Some(b as int - 55)
    else None
  }

  /** A pair as the radix parser reads it: a leading plus sign is accepted. */
  function PairValue(a: byte, b: byte): Option<byte> {
    match (Digit(a), Digit(b))
    case (Some(high), Some(low)) => Some((16 * high + low) as byte)
    case (None, Some(low)) => if a == PLUS then Some(low as byte) else None
    case (_, None) => None
  }

  function Lower(n: nat): byte
    requires n < 16
  {
    if n < 10 then (48 + n) as byte else (87 + n) as byte
  }

  predicate IsLower(b: byte) {
    48 <= b <= 57 || 97 <= b <= 102
  }

  function ToHex(bytes: Bytes): Bytes {
    seq(2 * |bytes|, i requires 0 <= i < 2 * |bytes| =>
      Lower(if i % 2 == 0 then bytes[i / 2] as int / 16 else bytes[i / 2] as int % 16))
  }

  predicate Readable(hex: Bytes) {
    |hex| == 2 * ID_BYTES && forall i | 0 <= i < ID_BYTES :: PairValue(hex[2 * i], hex[2 * i + 1]).Some?
  }

  function Parsed(hex: Bytes): Option<EntryId> {
    if Readable(hex)
    then Some(EntryId(seq(ID_BYTES, i requires 0 <= i < ID_BYTES => PairValue(hex[2 * i], hex[2 * i + 1]).value)))
    else None
  }

  const LOWER := "0123456789abcdef"
  const UPPER := "0123456789ABCDEF"

  /** The digits, in either case. */
  lemma DigitMeans(b: byte, d: nat)
    requires d < 16
    ensures Digit(b) == Some(d) <==> b as char == LOWER[d] || b as char == UPPER[d]
    ensures Lower(d) as char == LOWER[d]
  {
  }

  /** Two digits, or a plus sign and one, and nothing else. */
  lemma PairMeans(a: byte, b: byte, value: byte)
    ensures PairValue(a, b) == Some(value) <==>
            exists low | 0 <= low < 16 ::
              Digit(b) == Some(low) && ((a as char == '+' && value as int == low)
              || exists high | 0 <= high < 16 :: Digit(a) == Some(high) && value as int == 16 * high + low)
  {
    if PairValue(a, b) == Some(value) {
      var low := Digit(b).value;
      assert Digit(a).Some? ==> value as int == 16 * Digit(a).value + low;
    }
  }

  method FromHex(hex: Bytes) returns (r: Option<EntryId>)
    ensures r == Parsed(hex)
  {
    if |hex| != 2 * ID_BYTES {
      return None;
    }
    var bytes := new byte[ID_BYTES];
    var i := 0;
    while i < ID_BYTES
      invariant 0 <= i <= ID_BYTES
      invariant forall k | 0 <= k < i :: PairValue(hex[2 * k], hex[2 * k + 1]) == Some(bytes[k])
    {
      var pair := PairValue(hex[2 * i], hex[2 * i + 1]);
      if pair.None? {
        assert !Readable(hex);
        return None;
      }
      bytes[i] := pair.value;
      i := i + 1;
    }
    assert Readable(hex);
    assert bytes[..] == Parsed(hex).value.bytes;
    return Some(EntryId(bytes[..]));
  }

  method Display(id: EntryId) returns (hex: Bytes)
    ensures hex == ToHex(id.bytes)
  {
    hex := [];
    var i := 0;
    while i < |id.bytes|
      invariant 0 <= i <= |id.bytes| && hex == ToHex(id.bytes)[..2 * i]
    {
      hex := hex + [Lower(id.bytes[i] as int / 16), Lower(id.bytes[i] as int % 16)];
      i := i + 1;
    }
  }

  lemma PairOfByte(b: byte)
    ensures PairValue(Lower(b as int / 16), Lower(b as int % 16)) == Some(b)
  {
  }

  lemma HexAt(bytes: Bytes, i: nat)
    requires i < |bytes|
    ensures |ToHex(bytes)| == 2 * |bytes|
    ensures ToHex(bytes)[2 * i] == Lower(bytes[i] as int / 16) && ToHex(bytes)[2 * i + 1] == Lower(bytes[i] as int % 16)
  {
  }

  /** Every id survives being written and read back. */
  lemma HexRoundTrip(id: EntryId)
    ensures Parsed(ToHex(id.bytes)) == Some(id)
  {
    var hex := ToHex(id.bytes);
    forall i | 0 <= i < ID_BYTES ensures PairValue(hex[2 * i], hex[2 * i + 1]) == Some(id.bytes[i]) {
      HexAt(id.bytes, i);
      PairOfByte(id.bytes[i]);
    }
    ParsedIs(hex, id.bytes);
  }

  lemma ParsedIs(hex: Bytes, bytes: Bytes)
    requires |hex| == 2 * ID_BYTES && |bytes| == ID_BYTES
    requires forall i | 0 <= i < ID_BYTES :: PairValue(hex[2 * i], hex[2 * i + 1]) == Some(bytes[i])
    ensures Parsed(hex) == Some(EntryId(bytes))
  {
    assert Parsed(hex).value.bytes == bytes;
  }

  /** A text that reads as an id is the one written form of that id exactly when it uses lower-case digits
      only; upper-case digits and plus signs make further texts for the same id. */
  lemma HexCanonicalIff(hex: Bytes)
    requires Readable(hex)
    ensures ToHex(Parsed(hex).value.bytes) == hex <==> forall b | b in hex :: IsLower(b)
  {
    var bytes := Parsed(hex).value.bytes;
    var back := ToHex(bytes);
    assert |back| == |hex|;
    forall k | 0 <= k < |hex| && k % 2 == 0
      ensures back[k] == hex[k] && back[k + 1] == hex[k + 1] <==> IsLower(hex[k]) && IsLower(hex[k + 1])
    {
      PairAgrees(hex, k / 2);
    }
    PairsAgree(hex, back);
  }

  lemma PairAgrees(hex: Bytes, i: nat)
    requires Readable(hex) && i < ID_BYTES
    ensures |ToHex(Parsed(hex).value.bytes)| == |hex|
    ensures var back := ToHex(Parsed(hex).value.bytes);
            back[2 * i] == hex[2 * i] && back[2 * i + 1] == hex[2 * i + 1]
            <==> IsLower(hex[2 * i]) && IsLower(hex[2 * i + 1])
  {
  }

  lemma PairsAgree(hex: Bytes, back: Bytes)
    requires |hex| == |back| && |hex| % 2 == 0
    requires forall k | 0 <= k < |hex| && k % 2 == 0 ::
               back[k] == hex[k] && back[k + 1] == hex[k + 1] <==> IsLower(hex[k]) && IsLower(hex[k + 1])
    ensures back == hex <==> forall b | b in hex :: IsLower(b)
  {
    forall k | 0 <= k < |hex|
      ensures back == hex ==> IsLower(hex[k])
      ensures (forall b | b in hex :: IsLower(b)) ==> back[k] == hex[k]
    {
      var even := k - k % 2;
      assert even % 2 == 0;
      assert hex[even] in hex && hex[even + 1] in hex;
    }
  }
}
