/** A ref's name and its file's text: a hash in hex and a newline (vmm/store.go). */
module RefText {
  import opened Wrappers

  type Byte = x: int | 0 <= x < 256
  type Hash = s: seq<Byte> | |s| == 32 witness seq(32, i => 0)

  function Zero(): Hash {
    seq(32, i => 0)
  }

  lemma ZeroBytes(h: Hash)
    ensures h == Zero() <==> forall k :: 0 <= k < 32 ==> h[k] == 0
  {
  }

  /** A name's characters. */
  predicate NameChar(c: char) {
    'a' <= c <= 'z' || 'A' <= c <= 'Z' || '0' <= c <= '9' || c == '.' || c == '_' || c == '-'
  }

  predicate Lower(c: char) {
    c in {'a', 'b', 'c', 'd', 'e', 'f', 'g', 'h', 'i', 'j', 'k', 'l', 'm'} ||
    c in {'n', 'o', 'p', 'q', 'r', 's', 't', 'u', 'v', 'w', 'x', 'y', 'z'}
  }

  predicate Upper(c: char) {
    c in {'A', 'B', 'C', 'D', 'E', 'F', 'G', 'H', 'I', 'J', 'K', 'L', 'M'} ||
    c in {'N', 'O', 'P', 'Q', 'R', 'S', 'T', 'U', 'V', 'W', 'X', 'Y', 'Z'}
  }

  /** They are the letters, the digits, and three more. */
  lemma NameChars(c: char)
    ensures NameChar(c) <==> Lower(c) || Upper(c) || c in {'0', '1', '2', '3', '4', '5', '6', '7', '8', '9'} || c in {'.', '_', '-'}
  {
    LowerRange(c);
    UpperRange(c);
  }

  lemma LowerRange(c: char)
    ensures Lower(c) <==> 'a' <= c <= 'z'
  {
  }

  lemma UpperRange(c: char)
    ensures Upper(c) <==> 'A' <= c <= 'Z'
  {
  }

  predicate IsRefName(name: string) {
    1 <= |name| <= 64 && name[0] != '.' && forall i :: 0 <= i < |name| ==> NameChar(name[i])
  }

  /** A name is that of one file in the refs' directory, and not of a hidden one. */
  lemma NameInside(name: string)
    requires IsRefName(name)
    ensures '/' !in name && '\0' !in name && name != "" && name != "." && name != ".."
  {
  }

  /** RefName. */
  method RefName(name: string) returns (ok: bool)
    ensures ok <==> IsRefName(name)
  {
    if |name| < 1 || |name| > 64 || name[0] == '.' {
      return false;
    }
    for i := 0 to |name|
      invariant forall k :: 0 <= k < i ==> NameChar(name[k])
    {
      if !NameChar(name[i]) {
        return false;
      }
    }
    ok := true;
  }

  // ----- hex

  function HexDigit(d: nat): char
    requires d < 16
  {
    if d < 10 then '0' + d as char else 'a' + (d - 10) as char
  }

  function HexValue(c: char): Option<nat> {
    if '0' <= c <= '9' then Some((c - '0') as nat)
    else if 'a' <= c <= 'f' then Some((c - 'a') as nat + 10)
    else if 'A' <= c <= 'F' then Some((c - 'A') as nat + 10)
    else None
  }

  function Hex(b: seq<Byte>): (r: string)
    ensures |r| == 2 * |b|
  {
    if b == [] then "" else [HexDigit(b[0] / 16), HexDigit(b[0] % 16)] + Hex(b[1..])
  }

  /** hex.Decode: pairs of digits, and no half of one. */
  function Decode(s: string): (r: Option<seq<Byte>>)
    ensures r.Some? ==> 2 * |r.value| == |s|
  {
    if s == "" then Some([])
    else if |s| == 1 || HexValue(s[0]).None? || HexValue(s[1]).None? then None
    else
      match Decode(s[2..])
      case None => None
      case Some(rest) => Some([ByteOf(HexValue(s[0]).value, HexValue(s[1]).value)] + rest)
  }

  function ByteOf(high: nat, low: nat): Byte {
    (16 * high + low) % 256
  }

  /** A hex digit's value, of either case. */
  lemma HexValueExact(c: char, v: nat)
    requires v < 16
    ensures HexValue(c) == Some(v) <==> c == "0123456789abcdef"[v] || c == "0123456789ABCDEF"[v]
  {
  }

  /** A decoded byte is its pair's: the first digit's value sixteen times, and the second's. */
  lemma {:induction false} DecodedAt(s: string, k: nat)
    requires Decode(s).Some? && k < |Decode(s).value|
    ensures HexValue(s[2 * k]).Some? && HexValue(s[2 * k + 1]).Some?
    ensures Decode(s).value[k] == 16 * HexValue(s[2 * k]).value + HexValue(s[2 * k + 1]).value
  {
    if k > 0 {
      DecodedAt(s[2..], k - 1);
    }
  }

  lemma HalvesJoin(b: Byte)
    ensures HexValue(HexDigit(b / 16)) == Some(b / 16 as nat) && HexValue(HexDigit(b % 16)) == Some(b % 16 as nat)
    ensures ByteOf(b / 16, b % 16) == b
  {
  }

  lemma {:induction false} HexDecodes(b: seq<Byte>)
    ensures Decode(Hex(b)) == Some(b)
  {
    if b != [] {
      HexDecodes(b[1..]);
      HalvesJoin(b[0]);
      hide HexDigit, HexValue, ByteOf;
      var s := Hex(b);
      assert s[0] == HexDigit(b[0] / 16) && s[1] == HexDigit(b[0] % 16) && s[2..] == Hex(b[1..]);
      assert Decode(s) == Some([b[0]] + b[1..]);
      assert [b[0]] + b[1..] == b;
    }
  }

  /** Byte k's hex is two digits, its high half first, of "0123456789abcdef". */
  lemma {:induction false} HexAt(b: seq<Byte>, k: nat)
    requires k < |b|
    ensures Hex(b)[2 * k] == "0123456789abcdef"[b[k] / 16] && Hex(b)[2 * k + 1] == "0123456789abcdef"[b[k] % 16]
  {
    if k > 0 {
      HexAt(b[1..], k - 1);
    }
  }

  predicate IsHex(c: char) {
    '0' <= c <= '9' || 'a' <= c <= 'f' || 'A' <= c <= 'F'
  }

  /** Decoding takes texts of pairs of hex digits, and no others, in either case. */
  lemma {:induction false} DecodesHex(s: string)
    ensures Decode(s).Some? <==> |s| % 2 == 0 && forall k :: 0 <= k < |s| ==> IsHex(s[k])
  {
    hide HexValue, IsHex, ByteOf;
    if |s| >= 1 {
      IsHexValue(s[0]);
    }
    if |s| >= 2 {
      IsHexValue(s[1]);
      DecodesHex(s[2..]);
      assert s == [s[0], s[1]] + s[2..];
    }
  }

  lemma IsHexValue(c: char)
    ensures HexValue(c).Some? <==> IsHex(c)
  {
  }

  lemma {:induction false} HexChars(b: seq<Byte>, k: nat)
    requires k < |Hex(b)|
    ensures !IsSpace(Hex(b)[k])
  {
    if k >= 2 {
      HexChars(b[1..], k - 2);
    }
  }

  // ----- a ref's file

  predicate IsSpace(c: char) {
    c == ' ' || c == '\n' || c == '\r' || c == '\t' || c == '\U{0B}' || c == '\U{0C}'
  }

  /** bytes.TrimSpace. */
  function Trim(s: string): string {
    if s == "" then ""
    else if IsSpace(s[0]) then Trim(s[1..])
    else if IsSpace(s[|s| - 1]) then Trim(s[..|s| - 1])
    else s
  }

  function Text(h: Hash): (r: string)
    ensures |r| == 65
  {
    Hex(h) + "\n"
  }

  /** What a ref's file says. */
  function RefOf(text: string): Option<Hash> {
    match Decode(Trim(text))
    case Some(b) => if |b| == 32 then Some(b) else None
    case None => None
  }

  lemma TrimHex(b: seq<Byte>, k: nat)
    requires k <= |Hex(b)|
    ensures Trim(Hex(b)[..k]) == Hex(b)[..k]
  {
    if k > 0 {
      HexChars(b, 0);
      HexChars(b, k - 1);
    }
  }

  /** A write cut short leaves no ref, unless it lacks the newline only: then the ref is set. */
  lemma TornRef(h: Hash, k: nat)
    requires k <= 65
    ensures RefOf(Text(h)[..k]) == if k >= 64 then Some(h) else None
  {
    HexDecodes(h);
    var hex := Hex(h);
    if k <= 64 {
      assert Text(h)[..k] == hex[..k];
      TrimHex(h, k);
      assert hex[..64] == hex;
    } else {
      assert Text(h)[..k] == Text(h);
      assert Text(h)[..64] == hex;
      HexChars(h, 0);
      TrimHex(h, 64);
      assert hex[..64] == hex;
    }
  }
}
