/**
 * The store's primary key: a 12-byte object id, held here as its 24 hexadecimal
 * digits. Externally it is written as 24 lower-case hex characters; parsing
 * accepts exactly 24 hex characters of either case and nothing else.
 */
module ObjectIds {
  import opened Wrappers
  import opened Text

  type Nibble = x: int | 0 <= x < 16

  type ObjectId = s: seq<Nibble> | |s| == 24 witness seq(24, _ => 0)

  /** The all-zero id, which the product struct holds until the store assigns one. */
  const Nil: ObjectId := seq(24, _ => 0)

  predicate IsHexChar(c: char) {
    '0' <= c <= '9' || 'a' <= c <= 'f' || 'A' <= c <= 'F'
  }

  function HexDigit(n: Nibble): (c: char)
    ensures IsHexChar(c) && !('A' <= c <= 'F')
  {
    "0123456789abcdef"[n]
  }

  function HexValue(c: char): (n: Nibble)
    requires IsHexChar(c)
    ensures HexDigit(n) == LowerChar(c)
  {
    if '0' <= c <= '9' then c as int - '0' as int
    else if 'a' <= c <= 'f' then c as int - 'a' as int + 10
    else c as int - 'A' as int + 10
  }

  /** The canonical external form of an id. */
  function Hex(id: ObjectId): (s: string)
    ensures |s| == 24
    ensures forall i :: 0 <= i < 24 ==> IsHexChar(s[i])
  {
    seq(24, i requires 0 <= i < 24 => HexDigit(id[i]))
  }

  /** Parses the external form; `None` for anything that is not 24 hex characters. */
  function ObjectIdFromHex(s: string): (r: Option<ObjectId>)
    ensures r.Some? <==> |s| == 24 && forall i :: 0 <= i < |s| ==> IsHexChar(s[i])
  {
    if |s| == 24 && forall i :: 0 <= i < |s| ==> IsHexChar(s[i]) then
      Some(seq(24, i requires 0 <= i < 24 => HexValue(s[i])))
    else
      None
  }

  /** A digit reads back as the value it was written for. */
  lemma HexDigitValue(n: Nibble)
    ensures HexValue(HexDigit(n)) == n
  {
  }

  /** Rendering an id and parsing it back yields the same id. */
  lemma HexRoundTrip(id: ObjectId)
    ensures ObjectIdFromHex(Hex(id)) == Some(id)
  {
    var s := Hex(id);
    var back := ObjectIdFromHex(s).value;
    forall i | 0 <= i < 24
      ensures back[i] == id[i]
    {
      HexDigitValue(id[i]);
    }
    assert back == id;
  }

  /** Every accepted string is the external form of its id, up to the case of its letters. */
  lemma FromHexRoundTrip(s: string)
    requires ObjectIdFromHex(s).Some?
    ensures Hex(ObjectIdFromHex(s).value) == Lower(s)
  {
  }

  /** Two strings name the same id exactly when they agree up to letter case. */
  lemma FromHexInjective(s: string, t: string)
    requires ObjectIdFromHex(s).Some? && ObjectIdFromHex(t).Some?
    ensures ObjectIdFromHex(s) == ObjectIdFromHex(t) <==> Lower(s) == Lower(t)
  {
    FromHexRoundTrip(s);
    FromHexRoundTrip(t);
    var a, b := ObjectIdFromHex(s).value, ObjectIdFromHex(t).value;
    if Lower(s) == Lower(t) {
      forall i | 0 <= i < 24 ensures a[i] == b[i] {
        HexDigitValue(a[i]);
        HexDigitValue(b[i]);
        assert HexDigit(a[i]) == Hex(a)[i] == Hex(b)[i] == HexDigit(b[i]);
      }
      assert a == b;
    }
  }
}
