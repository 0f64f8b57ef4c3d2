/** Machine words: the fixed-width integers of the miner, with their wrap-around written out,
    and the number a run of bytes spells in either byte order. */
module Words {

  const TWO32: nat := 0x1_0000_0000
  const TWO64: nat := 0x1_0000_0000_0000_0000

  type byte = x: int | 0 <= x < 256
  type uint32 = x: int | 0 <= x < TWO32
  type uint64 = x: int | 0 <= x < TWO64

  /** Conversion of any integer to a 32-bit or 64-bit unsigned word. */
  function W32(x: int): uint32 { x % TWO32 }

  function W64(x: int): uint64 { x % TWO64 }

  datatype Option<+T> = None | Some(value: T)

  function LittleEndian(s: seq<byte>): nat {
    if s == [] then 0 else s[0] + 256 * LittleEndian(s[1..])
  }

  function BigEndian(s: seq<byte>): nat {
    if s == [] then 0 else 256 * BigEndian(s[..|s| - 1]) + s[|s| - 1]
  }

  function Pow256(n: nat): nat
    ensures Pow256(n) > 0
  {
    if n == 0 then 1 else 256 * Pow256(n - 1)
  }

  /** n bytes spell a number below 256^n. */
  lemma {:induction false} BigEndianBound(s: seq<byte>)
    ensures BigEndian(s) < Pow256(|s|)
  {
    if s != [] {
      BigEndianBound(s[..|s| - 1]);
    }
  }

  lemma {:induction false} LittleEndianBound(s: seq<byte>)
    ensures LittleEndian(s) < Pow256(|s|)
  {
    if s != [] {
      LittleEndianBound(s[1..]);
    }
  }

  lemma FourBytesSpell(a: byte, b: byte, c: byte, d: byte)
    ensures LittleEndian([a, b, c, d]) == a + 0x100 * (b + 0x100 * (c + 0x100 * d))
  {
    assert [a, b, c, d][1..] == [b, c, d] && [b, c, d][1..] == [c, d] && [c, d][1..] == [d];
    assert LittleEndian([d]) == d;
    assert LittleEndian([c, d]) == c + 0x100 * d;
    assert LittleEndian([b, c, d]) == b + 0x100 * (c + 0x100 * d);
  }

  /** The leading bytes weigh 256^(number of trailing bytes). */
  lemma {:induction false} BigEndianSplit(hi: seq<byte>, lo: seq<byte>)
    ensures BigEndian(hi + lo) == BigEndian(hi) * Pow256(|lo|) + BigEndian(lo)
  {
    if lo == [] {
      assert hi + lo == hi;
    } else {
      var front := lo[..|lo| - 1];
      assert (hi + lo)[..|hi + lo| - 1] == hi + front;
      BigEndianSplit(hi, front);
      ScaleProduct(BigEndian(hi), Pow256(|front|));
    }
  }

  /** Appended bytes weigh 256^(number of bytes before them). */
  lemma {:induction false} LittleEndianAppend(a: seq<byte>, b: seq<byte>)
    ensures LittleEndian(a + b) == LittleEndian(a) + Pow256(|a|) * LittleEndian(b)
  {
    if a == [] {
      assert a + b == b;
    } else {
      assert (a + b)[1..] == a[1..] + b;
      LittleEndianAppend(a[1..], b);
      ScaleProduct(LittleEndian(b), Pow256(|a| - 1));
    }
  }

  /** Numbers of one length are equal exactly when their bytes are. */
  lemma {:induction false} LittleEndianIsInjective(a: seq<byte>, b: seq<byte>)
    requires |a| == |b|
    ensures LittleEndian(a) == LittleEndian(b) <==> a == b
  {
    if a != [] {
      LittleEndianIsInjective(a[1..], b[1..]);
      assert a == [a[0]] + a[1..] && b == [b[0]] + b[1..];
    }
  }

  lemma ScaleProduct(a: nat, b: nat)
    ensures a * (256 * b) == 256 * (a * b)
  {
  }
}
