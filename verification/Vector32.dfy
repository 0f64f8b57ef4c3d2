/** The 32-byte vector of vector32.hpp: hashes, seeds, and the share test. */
module Vector32 {
  import opened Words

  type V32 = s: seq<byte> | |s| == 32 witness seq(32, i => 0)

  const INVALID_ID: nat := 0xFFFF_FFFF_FFFF_FFFF

  /** The word test of the RandomX loop: the first four bytes as a word, read on a little-endian
      machine and byte-swapped. */
  function GetWork32(v: V32): uint32 {
    Bswap32(LoadWord(v[..4]))
  }

  /** The ProgPow loop has a function of its own, on the 32 bytes of ethash's result. */
  function GetEthashWork32(finalHash: seq<byte>): uint32
    requires |finalHash| == 32
  {
    Bswap32(LoadWord(finalHash[..4]))
  }

  /** Four bytes in memory as a word of a little-endian machine. */
  function LoadWord(s: seq<byte>): uint32
    requires |s| == 4
  {
    LittleEndianBound(s);
    assert Pow256(4) == TWO32;
    LittleEndian(s)
  }

  function Bswap32(w: uint32): uint32 {
    0x100_0000 * (w % 0x100) + 0x1_0000 * (w / 0x100 % 0x100) + 0x100 * (w / 0x1_0000 % 0x100) + w / 0x100_0000
  }

  /** The first eight bytes read as a little-endian word, top bit masked off. */
  function GetId(v: V32): nat
  {
    LittleEndian(v[..8]) % 0x8000_0000_0000_0000
  }

  lemma IdIsNeverInvalid(v: V32)
    ensures GetId(v) != INVALID_ID
    ensures GetId(v) < 0x8000_0000_0000_0000
  {
  }

  /** The id is the word the first eight bytes spell, but for its top bit. */
  lemma IdIsTheMaskedWord(v: V32)
    ensures var top: nat := v[7];
      && GetId(v) + 0x8000_0000_0000_0000 * (top / 128) == LittleEndian(v[..8])
      && GetId(v) == LittleEndian(v[..7] + [top % 128])
  {
    var low, top: nat := v[..7], v[7];
    assert v[..8] == low + [top];
    LittleEndianAppend(low, [top]);
    LittleEndianAppend(low, [top % 128]);
    LittleEndianBound(low);
    assert Pow256(7) == 0x100_0000_0000_0000;
    assert [top][1..] == [] && [top % 128][1..] == [];
    assert LittleEndian([top]) == top && LittleEndian([top % 128]) == top % 128;
    assert top == 128 * (top / 128) + top % 128;
  }

  /** Two seeds share an id exactly when their first eight bytes differ in nothing but the top bit. */
  lemma SameIdExactly(a: V32, b: V32)
    ensures GetId(a) == GetId(b) <==> a[..7] == b[..7] && a[7] % 128 == b[7] % 128
  {
    IdIsTheMaskedWord(a);
    IdIsTheMaskedWord(b);
    var s, t := a[..7] + [a[7] % 128], b[..7] + [b[7] % 128];
    LittleEndianIsInjective(s, t);
    assert s[..7] == a[..7] && t[..7] == b[..7] && s[7] == a[7] % 128 && t[7] == b[7] % 128;
  }

  /** The share test of both mining loops decides the 256-bit comparison exactly: the leading
      word is below the target when and only when the whole hash, read as one big-endian
      number, is below target * 2^224. */
  lemma ShareTestIsExact(hash: V32, target: uint32)
    ensures GetWork32(hash) < target <==> BigEndian(hash) < target * Pow256(28)
    ensures GetEthashWork32(hash) < target <==> BigEndian(hash) < target * Pow256(28)
  {
    var hi, lo := hash[..4], hash[4..];
    assert hash == hi + lo;
    BigEndianSplit(hi, lo);
    BigEndianBound(lo);
    LeadingWord(hash);
    LeadingDigitDecides(GetWork32(hash), target, Pow256(|lo|), BigEndian(lo));
  }

  lemma LeadingDigitDecides(w: nat, target: nat, base: nat, rest: nat)
    requires rest < base
    ensures w < target <==> w * base + rest < target * base
  {
    if w < target {
      assert (w + 1) * base <= target * base;
    } else {
      assert target * base <= w * base;
    }
  }

  lemma LeadingWord(hash: V32)
    ensures BigEndian(hash[..4]) == GetWork32(hash)
  {
    var s := hash[..4];
    assert s[..3][..2] == s[..2] && s[..2][..1] == s[..1] && s[..1][..0] == [];
    assert BigEndian(s[..1]) == s[0];
    assert BigEndian(s[..2]) == 256 * (s[0] as int) + s[1];
    assert BigEndian(s[..3]) == 256 * BigEndian(s[..2]) + s[2];
    assert s == [s[0], s[1], s[2], s[3]];
    SwapReverses(s[0], s[1], s[2], s[3]);
  }

  lemma SwapReverses(a: byte, b: byte, c: byte, d: byte)
    ensures Bswap32(LoadWord([a, b, c, d])) == 0x100_0000 * a + 0x1_0000 * b + 0x100 * c + d
  {
    FourBytesSpell(a, b, c, d);
    DigitsOf(a, b, c, d);
  }

  lemma DigitsOf(a: byte, b: byte, c: byte, d: byte)
    ensures var w := a + 0x100 * (b + 0x100 * (c + 0x100 * d));
      w % 0x100 == a && w / 0x100 % 0x100 == b && w / 0x1_0000 % 0x100 == c && w / 0x100_0000 == d
  {
    var x := c + 0x100 * d;
    var y := b + 0x100 * x;
    var w := a + 0x100 * y;
    assert w / 0x100 == y && w / 0x1_0000 == x && w / 0x100_0000 == d;
  }

  /** Ids are only 63 bits of the seed, so different seeds can share one. */
  lemma IdsCollide()
    ensures exists a: V32, b: V32 :: a != b && GetId(a) == GetId(b)
  {
    var a: V32 := seq(32, i => 0);
    var b: V32 := a[31 := 1];
    assert a[..8] == b[..8];
    assert GetId(a) == GetId(b) && a[31] != b[31];
  }
}
