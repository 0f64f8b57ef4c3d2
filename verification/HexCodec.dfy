/** The hex codec of misc.hpp, and the little-endian job target built on it. */
module HexCodec {
  import opened Words

  predicate IsHex(c: char) {
    '0' <= c <= '9' || 'a' <= c <= 'f' || 'A' <= c <= 'F'
  }

  /** hf_hex2bin: None where the source raises its error flag. */
  function HexValue(c: char): (v: Option<byte>)
    ensures v.Some? <==> IsHex(c)
    ensures v.Some? ==> v.value < 16
  {
    if '0' <= c <= '9' then Some((c as int) - ('0' as int))
    else if 'a' <= c <= 'f' then Some((c as int) - ('a' as int) + 10)
    else if 'A' <= c <= 'F' then Some((c as int) - ('A' as int) + 10)
    else None
  }

  /** hf_bin2hex, for the half bytes it is called with. */
  function HexChar(v: byte): (c: char)
    requires v < 16
  {
    if v <= 9 then ('0' as int + v) as char else ('a' as int - 10 + v) as char
  }

  function Lower(c: char): char {
    if 'A' <= c <= 'F' then ((c as int) - ('A' as int) + ('a' as int)) as char else c
  }

  const DIGITS: string := "0123456789abcdef"

  /** The digits are the sixteen of the usual order, letters in either case read, lower case written. */
  lemma DigitsAreUsual(c: char, v: byte)
    requires v < 16
    ensures HexChar(v) == DIGITS[v]
    ensures HexValue(c) == Some(v) <==> c == DIGITS[v] || (v >= 10 && c == "ABCDEF"[v - 10])
    ensures IsHex(c) <==> c in DIGITS || c in "ABCDEF"
  {
    assert IsHex(c) ==> var d := HexValue(c).value; DIGITS[d] == Lower(c);
    assert 'A' <= c <= 'F' ==> "ABCDEF"[HexValue(c).value - 10] == c;
    assert forall d :: 0 <= d < 16 ==> IsHex(DIGITS[d]);
  }

  lemma DigitRoundTrip(c: char, v: byte)
    requires v < 16
    ensures HexValue(HexChar(v)) == Some(v)
    ensures IsHex(c) ==> HexChar(HexValue(c).value) == Lower(c)
  {
  }

  predicate AllHex(s: string) {
    forall i :: 0 <= i < |s| ==> IsHex(s[i])
  }

  function Decoded(s: string): (b: seq<byte>)
    requires |s| % 2 == 0 && AllHex(s)
    ensures |b| == |s| / 2
  {
    seq(|s| / 2, k requires 0 <= k < |s| / 2 =>
      16 * HexValue(s[2 * k]).value + HexValue(s[2 * k + 1]).value)
  }

  function Encoded(b: seq<byte>): (s: string)
    ensures |s| == 2 * |b|
  {
    seq(2 * |b|, i requires 0 <= i < 2 * |b| => HexChar(if i % 2 == 0 then b[i / 2] / 16 else b[i / 2] % 16))
  }

  /** The NUL-terminated string the source reads: a terminator follows the last character. */
  function CharAt(s: string, i: nat): char {
    if i < |s| then s[i] else '\0'
  }

  /** The characters hex2bin reads for a length: pairs, so one past an odd length. */
  function PairsOf(s: string, len: nat): (p: string)
    ensures |p| == (len + 1) / 2 * 2
  {
    seq((len + 1) / 2 * 2, i requires 0 <= i => CharAt(s, i))
  }

  /** For the whole of a text of odd length hex2bin reads the terminator, and fails. */
  lemma OddLengthFails(s: string)
    requires |s| % 2 == 1
    ensures !AllHex(PairsOf(s, |s|))
  {
    assert PairsOf(s, |s|)[|s|] == '\0';
  }

  method Hex2Bin(input: string, len: nat, out: array<byte>) returns (ok: bool)
    requires len <= |input| && out.Length >= (len + 1) / 2
    modifies out
    ensures ok <==> AllHex(PairsOf(input, len))
    ensures ok ==> out[..(len + 1) / 2] == Decoded(PairsOf(input, len))
    ensures out[(len + 1) / 2..] == old(out[(len + 1) / 2..])
  {
    ghost var pairs := PairsOf(input, len);
    var i := 0;
    while i < len
      invariant i % 2 == 0 && i <= len + 1
      invariant forall j :: 0 <= j < i ==> IsHex(pairs[j])
      invariant forall k :: 0 <= k < i / 2 ==>
                  out[k] == 16 * HexValue(pairs[2 * k]).value + HexValue(pairs[2 * k + 1]).value
      invariant out[(len + 1) / 2..] == old(out[(len + 1) / 2..])
    {
      var high, low := HexValue(CharAt(input, i)), HexValue(CharAt(input, i + 1));
      assert pairs[i] == CharAt(input, i) && pairs[i + 1] == CharAt(input, i + 1);
      out[i / 2] := 16 * (if high.Some? then high.value else 0) + (if low.Some? then low.value else 0);
      if high.None? || low.None? {
        return false;
      }
      i := i + 2;
    }
    ok := true;
  }

  method Bin2Hex(input: seq<byte>, out: array<char>)
    requires out.Length > 2 * |input|
    modifies out
    ensures out[..2 * |input|] == Encoded(input) && out[2 * |input|] == '\0'
    ensures out[2 * |input| + 1..] == old(out[2 * |input| + 1..])
  {
    for i := 0 to |input|
      invariant forall j :: 0 <= j < 2 * i ==> out[j] == Encoded(input)[j]
      invariant out[2 * |input| + 1..] == old(out[2 * |input| + 1..])
    {
      out[i * 2] := HexChar(input[i] / 16);
      out[i * 2 + 1] := HexChar(input[i] % 16);
    }
    out[2 * |input|] := '\0';
  }

  // ------------------------------------------------------------------ round trips

  lemma DecodeInvertsEncode(b: seq<byte>)
    ensures AllHex(Encoded(b)) && Decoded(Encoded(b)) == b
  {
    var s := Encoded(b);
    forall i | 0 <= i < |s| ensures IsHex(s[i]) {
      DigitRoundTrip(s[i], if i % 2 == 0 then b[i / 2] / 16 else b[i / 2] % 16);
    }
    forall k | 0 <= k < |b| ensures Decoded(s)[k] == b[k] {
      DigitRoundTrip('0', b[k] / 16);
      DigitRoundTrip('0', b[k] % 16);
      assert s[2 * k] == HexChar(b[k] / 16) && s[2 * k + 1] == HexChar(b[k] % 16);
    }
  }

  lemma EncodeLowersDecoded(s: string)
    requires |s| % 2 == 0 && AllHex(s)
    ensures Encoded(Decoded(s)) == seq(|s|, i requires 0 <= i < |s| => Lower(s[i]))
  {
    var b := Decoded(s);
    forall i | 0 <= i < |s| ensures Encoded(b)[i] == Lower(s[i]) {
      var k := i / 2;
      var high, low := HexValue(s[2 * k]).value, HexValue(s[2 * k + 1]).value;
      assert b[k] / 16 == high && b[k] % 16 == low;
      DigitRoundTrip(s[i], if i % 2 == 0 then high else low);
    }
  }

  // ------------------------------------------------------------------ the target

  const TARGET_DIGITS: nat := 8

  /** The target text over a template of zeros. */
  function Padded(s: string): (p: string)
    requires |s| <= TARGET_DIGITS
    ensures |p| == TARGET_DIGITS
  {
    s + seq(TARGET_DIGITS - |s|, i => '0')
  }

  lemma PaddingIsHex(s: string)
    requires |s| <= TARGET_DIGITS
    ensures AllHex(Padded(s)) <==> AllHex(s)
  {
    assert forall i :: 0 <= i < |s| ==> Padded(s)[i] == s[i];
  }

  lemma {:induction false} ZerosAreZero(n: nat)
    ensures LittleEndian(seq(n, i => 0)) == 0
  {
    if n > 0 {
      assert seq(n, i => 0 as byte)[1..] == seq(n - 1, i => 0 as byte);
      ZerosAreZero(n - 1);
    }
  }

  /** A target text of even length stands for the little-endian value of its own bytes: the zeros
      are padded on the side that does not change the number. */
  lemma PaddedTargetValue(s: string)
    requires |s| <= TARGET_DIGITS && |s| % 2 == 0 && AllHex(s)
    ensures AllHex(Padded(s)) && LittleEndian(Decoded(Padded(s))) == LittleEndian(Decoded(s))
  {
    PaddingIsHex(s);
    var zeros: seq<byte> := seq((TARGET_DIGITS - |s|) / 2, i => 0);
    assert Decoded(Padded(s)) == Decoded(s) + zeros;
    LittleEndianAppend(Decoded(s), zeros);
    ZerosAreZero(|zeros|);
  }

  /** A target text of odd length is not: its last digit becomes the high half of a byte. */
  lemma OddTargetValue(s: string)
    requires |s| <= TARGET_DIGITS && |s| % 2 == 1 && AllHex(s)
    ensures var front := s[..|s| - 1];
      && AllHex(front) && AllHex(Padded(s))
      && LittleEndian(Decoded(Padded(s)))
         == LittleEndian(Decoded(front)) + Pow256(|front| / 2) * (16 * HexValue(s[|s| - 1]).value)
  {
    PaddingIsHex(s);
    var front, last := s[..|s| - 1], HexValue(s[|s| - 1]).value;
    var zeros: seq<byte> := seq((TARGET_DIGITS - |s|) / 2, i => 0);
    var tail: seq<byte> := [16 * last] + zeros;
    assert Decoded(Padded(s)) == Decoded(front) + tail;
    LittleEndianAppend(Decoded(front), tail);
    assert tail[1..] == zeros;
    ZerosAreZero(|zeros|);
  }
}
