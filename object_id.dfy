/** MongoDB object identifiers at the interface boundary: twelve bytes,
    written as 24 hexadecimal digits.  `ObjectIdFromHex` is the driver's
    `primitive.ObjectIDFromHex`, which the resolvers call on every
    `aplicacaoId` argument; `Hex` is the driver's `ObjectID.Hex`. */
module ObjectIds {
  import opened Wrappers

  newtype byte = x: int | 0 <= x < 256

  /** Number of bytes in an ObjectID, and of hex digits in its text form. */
  const IdBytes := 12
  const IdHexDigits := 24

  type ObjectIdBytes = b: seq<byte> | |b| == IdBytes witness [0, 0, 0, 0, 0, 0, 0, 0, 0, 0, 0, 0]

  /** The twelve bytes of an ObjectID. */
  datatype ObjectId = ObjectId(bytes: ObjectIdBytes)

  predicate IsHexDigit(c: char) {
    '0' <= c <= '9' || 'a' <= c <= 'f' || 'A' <= c <= 'F'
  }

  predicate AllHex(s: string) {
    forall i :: 0 <= i < |s| ==> IsHexDigit(s[i])
  }

  /** Value of one hex digit; upper and lower case are accepted alike. */
  function HexValue(c: char): (v: nat)
    requires IsHexDigit(c)
    ensures v < 16
  {
    if '0' <= c <= '9' then c as int - '0' as int
    else if 'a' <= c <= 'f' then c as int - 'a' as int + 10
    else c as int - 'A' as int + 10
  }

  /** The lower-case hex digit for a value below 16. */
  function LowerHexDigit(v: nat): (c: char)
    requires v < 16
    ensures IsHexDigit(c) && HexValue(c) == v
    ensures !('A' <= c <= 'F')
  {
    if v < 10 then ('0' as int + v) as char else ('a' as int + v - 10) as char
  }

  /** A hex digit with 'A'..'F' folded to 'a'..'f'. */
  function LowerDigit(c: char): (d: char)
    requires IsHexDigit(c)
  {
    if 'A' <= c <= 'F' then (c as int - 'A' as int + 'a' as int) as char else c
  }

  function ToLower(s: string): (r: string)
    requires AllHex(s)
  {
    seq(|s|, i requires 0 <= i < |s| => LowerDigit(s[i]))
  }

  /** Bytes of a string of hex digit pairs, high digit first. */
  function DecodePairs(s: string): (r: seq<byte>)
    requires |s| % 2 == 0 && AllHex(s)
    ensures |r| == |s| / 2
    decreases |s|
  {
    if s == [] then []
    else [(16 * HexValue(s[0]) + HexValue(s[1])) as byte] + DecodePairs(s[2..])
  }

  /** Two lower-case hex digits per byte, high digit first. */
  function EncodePairs(b: seq<byte>): (s: string)
    ensures |s| == 2 * |b|
  {
    if b == [] then []
    else [LowerHexDigit(b[0] as int / 16), LowerHexDigit(b[0] as int % 16)] + EncodePairs(b[1..])
  }

  /** `primitive.ObjectIDFromHex`: exactly 24 hex digits, either case, or
      an error (modelled as `None`). */
  function ObjectIdFromHex(s: string): (r: Option<ObjectId>)
    ensures r.Some? <==> |s| == IdHexDigits && AllHex(s)
  {
    if |s| == IdHexDigits && AllHex(s) then Some(ObjectId(DecodePairs(s))) else None
  }

  /** `ObjectID.Hex`: the canonical lower-case text of an identifier. */
  function Hex(id: ObjectId): (s: string)
    ensures |s| == 2 * |id.bytes|
  {
    EncodePairs(id.bytes)
  }

  lemma {:induction false} EncodedPairsAreHex(b: seq<byte>)
    ensures AllHex(EncodePairs(b))
    ensures DecodePairs(EncodePairs(b)) == b
  {
    if b != [] {
      EncodedPairsAreHex(b[1..]);
      var s := EncodePairs(b);
      assert s[2..] == EncodePairs(b[1..]);
      assert s[0] == LowerHexDigit(b[0] as int / 16) && s[1] == LowerHexDigit(b[0] as int % 16);
      assert forall i :: 2 <= i < |s| ==> s[i] == s[2..][i - 2];
    }
  }

  lemma {:induction false} DecodedPairsEncode(s: string)
    requires |s| % 2 == 0 && AllHex(s)
    ensures EncodePairs(DecodePairs(s)) == ToLower(s)
    decreases |s|
  {
    if s != [] {
      DecodedPairsEncode(s[2..]);
      var hi, lo := HexValue(s[0]), HexValue(s[1]);
      var b := (16 * hi + lo) as byte;
      assert b as int / 16 == hi && b as int % 16 == lo;
      assert DecodePairs(s)[1..] == DecodePairs(s[2..]);
      var e := EncodePairs(DecodePairs(s));
      assert e[0] == LowerHexDigit(hi) && e[1] == LowerHexDigit(lo);
      assert e[2..] == ToLower(s[2..]);
      forall i | 0 <= i < |s| ensures e[i] == ToLower(s)[i] {
        if i >= 2 { assert e[i] == e[2..][i - 2]; }
      }
    }
  }

  /** Parsing the canonical text of an identifier gives the identifier back. */
  lemma FromHexOfHex(id: ObjectId)
    ensures ObjectIdFromHex(Hex(id)) == Some(id)
  {
    EncodedPairsAreHex(id.bytes);
  }

  /** A well-formed id string is the canonical text of its identifier up to
      letter case: "AB12..." and "ab12..." name the same record. */
  lemma HexOfFromHex(s: string)
    requires ObjectIdFromHex(s).Some?
    ensures Hex(ObjectIdFromHex(s).value) == ToLower(s)
  {
    DecodedPairsEncode(s);
  }
}
