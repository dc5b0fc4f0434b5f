/** Where printf writes: str_m bytes of a buffer, of which what does not fit is only counted
    (the Memmove and Memset of editor/format.go's vim_vsnprintf_typval).
 */
module FormatOutput {
  function Min(a: nat, b: nat): nat {
    if a < b then a else b
  }

  /** The buffer's strM bytes from at on show the beginning of a text. */
  predicate Shows(buf: seq<char>, at: nat, strM: nat, text: string) {
    at + strM <= |buf| && forall k :: at <= k < at + Min(|text|, strM) ==> buf[k] == text[k - at]
  }

  /** And nothing else of it has changed. */
  predicate Outside(buf: seq<char>, was: seq<char>, at: nat, strM: nat) {
    |buf| == |was| && forall k :: 0 <= k < |buf| && !(at <= k < at + strM) ==> buf[k] == was[k]
  }

  class Output {
    const str: array<char>
    const at: nat
    const strM: nat
    var strL: nat
    ghost var text: string    // all that was written, what did not fit too

    ghost predicate Valid()
      reads this, str
    {
      strL == |text| && Shows(str[..], at, strM, text)
    }

    constructor (str: array<char>, at: nat, strM: nat)
      requires at + strM <= str.Length
      ensures this.str == str && this.at == at && this.strM == strM
      ensures Valid() && text == ""
    {
      this.str, this.at, this.strM := str, at, strM;
      strL, text := 0, "";
    }

    /** Memmove of the first n bytes of src, or of those for which there is room. */
    method Copy(src: string, n: nat)
      requires Valid() && n <= |src|
      modifies this, str
      ensures Valid() && text == old(text) + src[..n]
      ensures Outside(str[..], old(str[..]), at, strM)
    {
      text := text + src[..n];
      if strL < strM {
        var avail := strM - strL;
        var m := if n > avail then avail else n;
        var to := at + strL;
        forall k | 0 <= k < m {
          str[to + k] := src[k];
        }
      }
      strL := strL + n;
    }

    /** Memset of n bytes, or of those for which there is room. */
    method Fill(c: char, n: nat)
      requires Valid()
      modifies this, str
      ensures Valid() && text == old(text) + seq(n, i => c)
      ensures Outside(str[..], old(str[..]), at, strM)
    {
      Copy(seq(n, i => c), n);
      assert seq(n, i => c)[..n] == seq(n, i => c);
    }

    /** The NUL: after the text, or in the last byte. */
    method Finish()
      requires Valid()
      modifies str
      ensures strM > 0 ==>
                var k := Min(strL, strM - 1);
                str[at..at + k] == text[..k] && str[at + k] == '\0'
      ensures Outside(str[..], old(str[..]), at, strM)
    {
      if strM > 0 {
        var k := strM - 1;
        if strL <= strM - 1 {
          k := strL;
        }
        str[at + k] := '\0';
      }
    }
  }
}
