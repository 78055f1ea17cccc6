/** Lower-case hexadecimal text of a byte string, as Node's `Buffer.toString('hex')`
    writes it: two digits per byte, high nibble first. */
module Hex {
  import opened Common

  predicate IsHexDigit(c: char)
  {
    '0' <= c <= '9' || 'a' <= c <= 'f'
  }

  function Digit(n: nat): (c: char)
    requires n < 16
    ensures IsHexDigit(c)
  {
    if n < 10 then ('0' as int + n) as char else ('a' as int + n - 10) as char
  }

  function DigitValue(c: char): (r: Option<nat>)
    ensures r.Some? <==> IsHexDigit(c)
    ensures r.Some? ==> r.value < 16 && Digit(r.value) == c
  {
    if '0' <= c <= '9' then Some(c as int - '0' as int)
    else if 'a' <= c <= 'f' then Some(c as int - 'a' as int + 10)
    else None
  }

  function Encode(bytes: seq<bv8>): (s: string)
    ensures |s| == 2 * |bytes|
    ensures forall i :: 0 <= i < |s| ==> IsHexDigit(s[i])
  {
    if bytes == [] then ""
    else [Digit(bytes[0] as int / 16), Digit(bytes[0] as int % 16)] + Encode(bytes[1..])
  }

  /** The inverse reading: pairs of hex digits back to bytes; `None` for odd length or a non-digit. */
  function Decode(s: string): (r: Option<seq<bv8>>)
    decreases |s|
  {
    if |s| == 0 then Some([])
    else if |s| == 1 then None
    else
      var hi, lo, rest := DigitValue(s[0]), DigitValue(s[1]), Decode(s[2..]);
      if hi.Some? && lo.Some? && rest.Some? then Some([Byte(hi.value, lo.value)] + rest.value)
      else None
  }

  function Byte(hi: nat, lo: nat): bv8
    requires hi < 16 && lo < 16
  {
    (hi * 16 + lo) as bv8
  }

  lemma DigitRoundTrip(n: nat)
    requires n < 16
    ensures DigitValue(Digit(n)) == Some(n)
  {
  }

  lemma ByteNibbles(b: bv8)
    ensures Byte(b as int / 16, b as int % 16) == b
  {
  }

  lemma {:induction false} DecodeEncode(bytes: seq<bv8>)
    ensures Decode(Encode(bytes)) == Some(bytes)
  {
    if bytes != [] {
      var b := bytes[0] as int;
      var s := Encode(bytes);
      DigitRoundTrip(b / 16);
      DigitRoundTrip(b % 16);
      DecodeEncode(bytes[1..]);
      ByteNibbles(bytes[0]);
      assert s[0] == Digit(b / 16) && s[1] == Digit(b % 16);
      assert s[2..] == Encode(bytes[1..]);
      assert [bytes[0]] + bytes[1..] == bytes;
    }
  }

  /** Distinct random bytes give distinct tokens: the encoding loses nothing. */
  lemma EncodeInjective(a: seq<bv8>, b: seq<bv8>)
    ensures Encode(a) == Encode(b) ==> a == b
  {
    DecodeEncode(a);
    DecodeEncode(b);
  }
}
