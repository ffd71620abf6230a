/**
 * The hexadecimal transmission encoding of radio payloads: `bytes.fromhex(s)` on the hub
 * side and the lower-case `bytes.hex()` rendering a sender produces.
 */
module Hex {
  import opened Wrappers

  newtype byte = b: int | 0 <= b < 256

  predicate IsHexDigit(c: char)
  {
    '0' <= c <= '9' || 'a' <= c <= 'f' || 'A' <= c <= 'F'
  }

  predicate IsLowerHexDigit(c: char)
  {
    '0' <= c <= '9' || 'a' <= c <= 'f'
  }

  /** The value of one hexadecimal digit, either case. */
  function DigitValue(c: char): (v: nat)
    requires IsHexDigit(c)
    ensures v < 16
  {
    if '0' <= c <= '9' then c as int - '0' as int
    else if 'a' <= c <= 'f' then c as int - 'a' as int + 10
    else c as int - 'A' as int + 10
  }

  /** The lower-case digit for a value below 16. */
  function DigitChar(v: nat): (c: char)
    requires v < 16
    ensures IsLowerHexDigit(c) && DigitValue(c) == v
  {
    if v < 10 then ('0' as int + v) as char else ('a' as int + v - 10) as char
  }

  /** A digit with upper-case letters folded to lower case. */
  function LowerDigit(c: char): char
  {
    if 'A' <= c <= 'F' then (c as int - 'A' as int + 'a' as int) as char else c
  }

  /** A text with upper-case letters A-F folded to lower case. */
  function LowerHex(s: string): (r: string)
    ensures |r| == |s| && forall i :: 0 <= i < |s| ==> r[i] == LowerDigit(s[i])
  {
    seq(|s|, i requires 0 <= i < |s| => LowerDigit(s[i]))
  }

  /** Whether `bytes.fromhex(s)` accepts `s`: an even number of hexadecimal digits. */
  predicate IsHexText(s: string)
  {
    |s| % 2 == 0 && forall i :: 0 <= i < |s| ==> IsHexDigit(s[i])
  }

  /**
   * `bytes.fromhex(s)`: each pair of digits is one byte, high nibble first; an odd length or a
   * character that is not a hexadecimal digit is the ValueError case (None).
   */
  function FromHex(s: string): (r: Option<seq<byte>>)
    ensures r.Some? ==> 2 * |r.value| == |s|
    decreases |s|
  {
    if |s| == 0 then Some([])
    else if |s| == 1 || !IsHexDigit(s[0]) || !IsHexDigit(s[1]) then None
    else
      match FromHex(s[2..])
      case None => None
      case Some(rest) => Some([(DigitValue(s[0]) * 16 + DigitValue(s[1])) as byte] + rest)
  }

  /** FromHex accepts exactly the texts of an even number of hexadecimal digits. */
  lemma {:induction false} FromHexAccepts(s: string)
    ensures FromHex(s).Some? <==> IsHexText(s)
    decreases |s|
  {
    if |s| >= 2 {
      FromHexAccepts(s[2..]);
      if IsHexText(s) {
        assert IsHexText(s[2..]) by {
          forall i | 0 <= i < |s| - 2 ensures IsHexDigit(s[2..][i]) {
            assert s[2..][i] == s[i + 2];
          }
        }
      } else if IsHexDigit(s[0]) && IsHexDigit(s[1]) && IsHexText(s[2..]) {
        forall i | 0 <= i < |s| ensures IsHexDigit(s[i]) {
          if i >= 2 {
            assert s[i] == s[2..][i - 2];
          }
        }
      }
    }
  }

  /** `data.hex()`: two lower-case digits per byte, high nibble first. */
  function ToHex(bs: seq<byte>): (s: string)
    ensures |s| == 2 * |bs|
    ensures forall i :: 0 <= i < |s| ==> IsLowerHexDigit(s[i])
  {
    if |bs| == 0 then ""
    else [DigitChar(bs[0] as int / 16), DigitChar(bs[0] as int % 16)] + ToHex(bs[1..])
  }

  /** Hex round trip: what a sender encodes, the hub decodes to the same bytes, non-ASCII included. */
  lemma {:induction false} FromHexToHex(bs: seq<byte>)
    ensures FromHex(ToHex(bs)) == Some(bs)
  {
    if |bs| > 0 {
      var s := ToHex(bs);
      FromHexToHex(bs[1..]);
      assert s[2..] == ToHex(bs[1..]);
      assert [bs[0]] + bs[1..] == bs;
    }
  }

  /** The other direction: accepted text re-encodes to itself, up to the case of its letters. */
  lemma {:induction false} ToHexFromHex(s: string)
    requires IsHexText(s)
    ensures FromHex(s).Some? && ToHex(FromHex(s).value) == LowerHex(s)
    decreases |s|
  {
    FromHexAccepts(s);
    if |s| > 0 {
      var bs := FromHex(s).value;
      ToHexFromHex(s[2..]);
      assert bs[1..] == FromHex(s[2..]).value;
      var hi, lo := DigitValue(s[0]), DigitValue(s[1]);
      assert bs[0] as int / 16 == hi && bs[0] as int % 16 == lo;
      assert DigitChar(hi) == LowerDigit(s[0]);
      assert DigitChar(lo) == LowerDigit(s[1]);
      assert LowerHex(s) == [LowerDigit(s[0]), LowerDigit(s[1])] + LowerHex(s[2..]);
    }
  }
}
