/** A machine's memory as bytes, and 64-bit words in it in little-endian order. */
module Memory {
  import opened Bits

  type byte = x: int | 0 <= x < 256

  const WORD_LIMIT: nat := 0x1_0000_0000_0000_0000

  /** The number whose little-endian digits are s. */
  function FromBytes(s: seq<byte>): nat {
    if s == [] then 0 else s[0] + 256 * FromBytes(s[1..])
  }

  /** The n lowest digits of v. */
  function ToBytes(v: nat, n: nat): (s: seq<byte>)
    ensures |s| == n
  {
    if n == 0 then [] else [v % 256] + ToBytes(v / 256, n - 1)
  }

  function Pow256(n: nat): (p: nat)
    ensures p > 0
  {
    if n == 0 then 1 else 256 * Pow256(n - 1)
  }

  lemma {:induction false} BytesRoundTrip(v: nat, n: nat)
    requires v < Pow256(n)
    ensures FromBytes(ToBytes(v, n)) == v
  {
    if n > 0 {
      BytesRoundTrip(v / 256, n - 1);
      assert ToBytes(v, n)[1..] == ToBytes(v / 256, n - 1);
    }
  }

  /** The k-th byte of a number is its k-th digit, the lowest first. */
  lemma {:induction false} ByteAt(v: nat, n: nat, k: nat)
    requires k < n
    ensures ToBytes(v, n)[k] == v / Pow256(k) % 256
  {
    if k > 0 {
      ByteAt(v / 256, n - 1, k - 1);
      DivTwice(v, Pow256(k - 1));
    }
  }

  lemma DivTwice(v: nat, p: nat)
    requires p > 0
    ensures 256 * p > 0 && v / 256 / p == v / (256 * p)
  {
    var q, r := v / 256 / p, v / 256 % p;
    assert v / 256 == q * p + r;
    assert v == q * (256 * p) + (256 * r + v % 256);
    assert 256 * r + v % 256 < 256 * p;
    DivUnique(v, 256 * p, q, 256 * r + v % 256);
  }

  lemma EightBytes()
    ensures Pow256(8) == WORD_LIMIT
  {
  }

  /** The word at address a. */
  function Word(mem: seq<byte>, a: nat): nat
    requires a + 8 <= |mem|
  {
    FromBytes(mem[a..a + 8])
  }

  function Four(a: nat, b: nat, c: nat, d: nat): nat {
    a + 0x100 * b + 0x1_0000 * c + 0x100_0000 * d
  }

  /** The byte at a is its lowest, and each next one weighs 256 times as much. */
  lemma LittleEndian(mem: seq<byte>, a: nat)
    requires a + 8 <= |mem|
    ensures Word(mem, a) ==
            Four(mem[a], mem[a + 1], mem[a + 2], mem[a + 3])
            + 0x1_0000_0000 * Four(mem[a + 4], mem[a + 5], mem[a + 6], mem[a + 7])
  {
    var s := mem[a..a + 8];
    var hi := s[4..];
    assert hi == [mem[a + 4], mem[a + 5], mem[a + 6], mem[a + 7]];
    FourBytes(hi);
    FourBytes(s[..4]);
    FourMore(s[0], s[1], s[2], s[3], hi);
    assert s == [s[0], s[1], s[2], s[3]] + hi;
  }

  lemma FourBytes(s: seq<byte>)
    requires |s| == 4
    ensures FromBytes(s) == Four(s[0], s[1], s[2], s[3])
  {
    assert s[1..][1..] == s[2..] && s[2..][1..] == s[3..] && s[3..][1..] == [];
    assert FromBytes(s[3..]) == s[3];
    assert FromBytes(s[2..]) == s[2] + 256 * FromBytes(s[3..]);
    assert FromBytes(s[1..]) == s[1] + 256 * FromBytes(s[2..]);
  }

  lemma FourMore(a: byte, b: byte, c: byte, d: byte, rest: seq<byte>)
    ensures FromBytes([a, b, c, d] + rest) == Four(a, b, c, d) + 0x1_0000_0000 * FromBytes(rest)
  {
    assert ([a, b, c, d] + rest)[1..] == [b, c, d] + rest;
    assert ([b, c, d] + rest)[1..] == [c, d] + rest;
    assert ([c, d] + rest)[1..] == [d] + rest;
    assert ([d] + rest)[1..] == rest;
    assert FromBytes([d] + rest) == d + 256 * FromBytes(rest);
    assert FromBytes([c, d] + rest) == c + 256 * FromBytes([d] + rest);
    assert FromBytes([b, c, d] + rest) == b + 256 * FromBytes([c, d] + rest);
  }

  /** binary.LittleEndian.PutUint64(mem[a:], v) */
  method PutWord(mem: array<byte>, a: nat, v: nat)
    requires a + 8 <= mem.Length && v < WORD_LIMIT
    modifies mem
    ensures mem[..] == old(mem[..a]) + ToBytes(v, 8) + old(mem[a + 8..])
    ensures Word(mem[..], a) == v
  {
    hide ToBytes, FromBytes;
    ghost var was := mem[..];
    var i, rest := 0, v;
    while i < 8
      invariant 0 <= i <= 8
      invariant mem[..a] == was[..a] && mem[a + 8..] == was[a + 8..]
      invariant mem[a..a + i] + ToBytes(rest, 8 - i) == ToBytes(v, 8)
    {
      ghost var before := mem[a..a + i];
      FirstByte(rest, 8 - i);
      mem[a + i], rest, i := rest % 256, rest / 256, i + 1;
      assert mem[a..a + i] == before + [mem[a + i - 1]];
    }
    assert mem[..] == mem[..a] + mem[a..a + 8] + mem[a + 8..];
    assert mem[a..a + 8] == ToBytes(v, 8) by { NoBytes(rest); }
    assert mem[..][a..a + 8] == mem[a..a + 8];
    EightBytes();
    BytesRoundTrip(v, 8);
  }

  lemma FirstByte(v: nat, n: nat)
    requires n > 0
    ensures ToBytes(v, n) == [v % 256] + ToBytes(v / 256, n - 1)
  {
  }

  lemma NoBytes(v: nat)
    ensures ToBytes(v, 0) == []
  {
  }

  /** binary.LittleEndian.Uint64(mem[a:]) */
  method GetWord(mem: array<byte>, a: nat) returns (v: nat)
    requires a + 8 <= mem.Length
    ensures v == Word(mem[..], a)
  {
    v := 0;
    var i := 8;
    while i > 0
      invariant 0 <= i <= 8
      invariant v == FromBytes(mem[a + i..a + 8])
    {
      i := i - 1;
      assert mem[a + i..a + 8] == [mem[a + i]] + mem[a + i + 1..a + 8];
      v := mem[a + i] + 256 * v;
    }
    assert mem[..][a..a + 8] == mem[a..a + 8];
  }
}
