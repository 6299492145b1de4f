/** A job's identifier (`Job.id: UUID`) and its `uuidString`, the name of the job's entry
    in every store: the 16 bytes rendered as 36 characters, upper-case hex digits in
    groups of 8-4-4-4-12 separated by hyphens. `ParseUuid` reads such a string back; the
    round trip is what makes distinct jobs land in distinct entries. */
module Uuids {
  import opened Results

  newtype byte = x: int | 0 <= x < 256

  type Uuid = s: seq<byte> | |s| == 16 witness seq(16, _ => 0 as byte)

  function HexDigit(d: int): (c: char)
    requires 0 <= d < 16
  {
    if d < 10 then (48 + d) as char else (55 + d) as char
  }

  /** The value of an upper-case hex digit, or None for any other character. */
  function DigitValue(c: char): (r: Option<int>)
    ensures r.Some? ==> 0 <= r.value < 16
  {
    if '0' <= c <= '9' then Some(c as int - 48)
    else if 'A' <= c <= 'F' then Some(c as int - 55)
    else None
  }

  /** Two hex digits per byte, high nibble first. */
  function Hex(bytes: seq<byte>): (s: string)
    ensures |s| == 2 * |bytes|
  {
    if |bytes| == 0 then []
    else [HexDigit(bytes[0] as int / 16), HexDigit(bytes[0] as int % 16)] + Hex(bytes[1..])
  }

  function Unhex(s: string): (r: Option<seq<byte>>)
    ensures r.Some? ==> |s| == 2 * |r.value|
    decreases |s|
  {
    if |s| == 0 then Some([])
    else if |s| == 1 then None
    else
      match (DigitValue(s[0]), DigitValue(s[1]), Unhex(s[2..]))
      case (Some(hi), Some(lo), Some(rest)) => Some([(hi * 16 + lo) as byte] + rest)
      case _ => None
  }

  lemma {:induction false} UnhexHex(bytes: seq<byte>)
    ensures Unhex(Hex(bytes)) == Some(bytes)
    decreases |bytes|
  {
    if |bytes| > 0 {
      var s := Hex(bytes);
      var b := bytes[0] as int;
      assert s[0] == HexDigit(b / 16) && s[1] == HexDigit(b % 16);
      assert DigitValue(s[0]) == Some(b / 16);
      assert DigitValue(s[1]) == Some(b % 16);
      assert s[2..] == Hex(bytes[1..]);
      UnhexHex(bytes[1..]);
      assert [bytes[0]] + bytes[1..] == bytes;
    }
  }

  function UuidString(id: Uuid): (s: string)
    ensures |s| == 36
  {
    Hex(id[0..4]) + "-" + Hex(id[4..6]) + "-" + Hex(id[6..8]) + "-" + Hex(id[8..10]) + "-" + Hex(id[10..16])
  }

  function ParseUuid(s: string): (r: Option<Uuid>)
  {
    if |s| != 36 || s[8] != '-' || s[13] != '-' || s[18] != '-' || s[23] != '-' then None
    else
      match (Unhex(s[0..8]), Unhex(s[9..13]), Unhex(s[14..18]), Unhex(s[19..23]), Unhex(s[24..36]))
      case (Some(a), Some(b), Some(c), Some(d), Some(e)) => Some(a + b + c + d + e)
      case _ => None
  }

  /** Reading the rendered string back yields the identifier. */
  lemma UuidRoundTrip(id: Uuid)
    ensures ParseUuid(UuidString(id)) == Some(id)
  {
    var s := UuidString(id);
    assert s[0..8] == Hex(id[0..4]);
    assert s[9..13] == Hex(id[4..6]);
    assert s[14..18] == Hex(id[6..8]);
    assert s[19..23] == Hex(id[8..10]);
    assert s[24..36] == Hex(id[10..16]);
    UnhexHex(id[0..4]);
    UnhexHex(id[4..6]);
    UnhexHex(id[6..8]);
    UnhexHex(id[8..10]);
    UnhexHex(id[10..16]);
    assert id[0..4] + id[4..6] + id[6..8] + id[8..10] + id[10..16] == id;
  }

  /** Distinct identifiers render to distinct strings. */
  lemma UuidStringInjective(a: Uuid, b: Uuid)
    requires a != b
    ensures UuidString(a) != UuidString(b)
  {
    UuidRoundTrip(a);
    UuidRoundTrip(b);
  }
}
