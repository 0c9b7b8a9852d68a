/** Bytes, fixed-width big-endian integers and C-string truncation, as the
    UBJSON codec uses them on its `char` buffers. */
module Bytes {

  /** One octet of an input or output buffer. */
  type byte = x: int | 0 <= x < 256

  /** 256^n: the number of values an n-byte field can hold. */
  function Pow256(n: nat): (r: nat)
    ensures r > 0
  {
    if n == 0 then 1 else 256 * Pow256(n - 1)
  }

  /** Half of Pow256(n): the first value that no longer fits a signed n-byte field. */
  function SignedBound(n: nat): (r: int)
    requires n > 0
    ensures r > 0 && 2 * r == Pow256(n)
  {
    128 * Pow256(n - 1)
  }

  /** A prefix as long as the sequence is the sequence. */
  lemma TakeAll<T>(xs: seq<T>)
    ensures xs[..|xs|] == xs
  {
  }

  /** The number of values of the 1-, 2-, 4- and 8-byte C types. */
  lemma Pow256Values()
    ensures Pow256(1) == 0x100 && Pow256(2) == 0x1_0000
    ensures Pow256(4) == 0x1_0000_0000 && Pow256(8) == 0x1_0000_0000_0000_0000
  {
  }

  /** The bounds of the signed 1-, 2-, 4- and 8-byte C types. */
  lemma SignedBoundValues()
    ensures SignedBound(1) == 0x80 && SignedBound(2) == 0x8000
    ensures SignedBound(4) == 0x8000_0000 && SignedBound(8) == 0x8000_0000_0000_0000
  {
  }

  /** The n bytes of u, most significant first (what `htobe16/32/64` store). */
  function ToBigEndian(u: nat, n: nat): (r: seq<byte>)
    requires u < Pow256(n)
    ensures |r| == n
  {
    if n == 0 then [] else ToBigEndian(u / 256, n - 1) + [u % 256]
  }

  /** The unsigned number whose big-endian bytes are bs (what `be16/32/64toh` read). */
  function FromBigEndian(bs: seq<byte>): (r: nat)
    ensures r < Pow256(|bs|)
  {
    if bs == [] then 0 else FromBigEndian(bs[..|bs| - 1]) * 256 + bs[|bs| - 1]
  }

  lemma {:induction false} FromToBigEndian(u: nat, n: nat)
    requires u < Pow256(n)
    ensures FromBigEndian(ToBigEndian(u, n)) == u
  {
    if n > 0 {
      var hi := ToBigEndian(u / 256, n - 1);
      assert ToBigEndian(u, n)[..n - 1] == hi;
      FromToBigEndian(u / 256, n - 1);
    }
  }

  /** Two's-complement reading of an n-byte unsigned quantity (the `(iN)` cast). */
  function ToSigned(u: nat, n: nat): (x: int)
    requires n > 0 && u < Pow256(n)
    ensures -SignedBound(n) <= x < SignedBound(n)
    ensures x >= 0 <==> u < SignedBound(n)
  {
    if u < SignedBound(n) then u else u - Pow256(n)
  }

  /** The n-byte two's-complement pattern of x, as an unsigned number. */
  function ToUnsigned(x: int, n: nat): (u: nat)
    requires n > 0 && -SignedBound(n) <= x < SignedBound(n)
    ensures u < Pow256(n)
    ensures x >= 0 <==> u < SignedBound(n)
  {
    if x < 0 then x + Pow256(n) else x
  }

  /** The big-endian two's-complement bytes of a signed n-byte integer. */
  function EncodeSigned(x: int, n: nat): (r: seq<byte>)
    requires n > 0 && -SignedBound(n) <= x < SignedBound(n)
    ensures |r| == n
  {
    ToBigEndian(ToUnsigned(x, n), n)
  }

  /** The signed integer stored big-endian in bs. */
  function DecodeSigned(bs: seq<byte>): (x: int)
    requires |bs| > 0
    ensures -SignedBound(|bs|) <= x < SignedBound(|bs|)
  {
    ToSigned(FromBigEndian(bs), |bs|)
  }

  lemma DecodeEncodeSigned(x: int, n: nat)
    requires n > 0 && -SignedBound(n) <= x < SignedBound(n)
    ensures DecodeSigned(EncodeSigned(x, n)) == x
  {
    FromToBigEndian(ToUnsigned(x, n), n);
  }

  /** A one-byte integer is stored as the single byte of its pattern. */
  lemma EncodeSignedByte(x: int)
    requires -SignedBound(1) <= x < SignedBound(1)
    ensures EncodeSigned(x, 1) == [ToUnsigned(x, 1)]
  {
  }

  /** A non-negative value below SignedBound(n) is stored as its plain big-endian bytes. */
  lemma EncodeSignedNonNegative(x: nat, n: nat)
    requires n > 0 && x < SignedBound(n)
    ensures EncodeSigned(x, n) == ToBigEndian(x, n)
  {
  }

  /** An encoded signed integer found at index j decodes back to itself. */
  lemma {:induction false} DecodeAt(src: seq<byte>, j: nat, x: int, n: nat)
    requires n > 0 && -SignedBound(n) <= x < SignedBound(n)
    requires At(src, j, EncodeSigned(x, n))
    ensures j + n <= |src| && DecodeSigned(src[j..j + n]) == x
  {
    AtSlice(src, j, EncodeSigned(x, n));
    DecodeEncodeSigned(x, n);
  }

  /** A byte sequence a C string can hold: no NUL byte. */
  predicate NulFree(s: seq<byte>)
  {
    0 !in s
  }

  /** A C string argument: the bytes before its terminating NUL. */
  type CString = s: seq<byte> | NulFree(s)

  /** What `strlen`/`strcpy` see of a buffer: everything before the first NUL. */
  function CStr(s: seq<byte>): seq<byte>
  {
    if s == [] || s[0] == 0 then [] else [s[0]] + CStr(s[1..])
  }

  /** CStr(s) is the longest NUL-free prefix of s: it stops at the end of s
      or at the first NUL. */
  lemma {:induction false} CStrPrefix(s: seq<byte>)
    ensures |CStr(s)| <= |s| && CStr(s) == s[..|CStr(s)|]
    ensures NulFree(CStr(s))
    ensures |CStr(s)| < |s| ==> s[|CStr(s)|] == 0
  {
    if s != [] && s[0] != 0 {
      CStrPrefix(s[1..]);
      assert forall k | 0 < k < |CStr(s)| :: CStr(s)[k] == CStr(s[1..])[k - 1];
    }
  }

  lemma {:induction false} CStrNulFree(s: seq<byte>)
    requires NulFree(s)
    ensures CStr(s) == s
  {
    if s != [] {
      assert s[0] in s;
      assert forall k | 0 <= k < |s[1..]| :: s[1..][k] in s;
      CStrNulFree(s[1..]);
    }
  }

  /** `At(src, i, b)`: the bytes b occur in src starting at index i. */
  predicate At(src: seq<byte>, i: nat, b: seq<byte>)
  {
    i + |b| <= |src| && forall k | 0 <= k < |b| :: src[i + k] == b[k]
  }

  lemma {:induction false} AtLength(src: seq<byte>, i: nat, b: seq<byte>)
    requires At(src, i, b)
    ensures i + |b| <= |src|
  {
  }

  lemma {:induction false} AtSlice(src: seq<byte>, i: nat, b: seq<byte>)
    requires At(src, i, b)
    ensures i + |b| <= |src| && src[i..i + |b|] == b
  {
    forall k | 0 <= k < |b|
      ensures src[i..i + |b|][k] == b[k]
    {
      assert src[i + k] == b[k];
    }
  }

  /** The converse of AtSlice: a slice equal to b is an occurrence of b. */
  lemma {:induction false} SliceAt(src: seq<byte>, i: nat, b: seq<byte>)
    requires i + |b| <= |src| && src[i..i + |b|] == b
    ensures At(src, i, b)
  {
    forall k | 0 <= k < |b|
      ensures src[i + k] == b[k]
    {
      assert src[i..i + |b|][k] == src[i + k];
    }
  }

  lemma {:induction false} AtConcat(src: seq<byte>, i: nat, a: seq<byte>, b: seq<byte>)
    requires At(src, i, a + b)
    ensures At(src, i, a) && At(src, i + |a|, b)
  {
    forall k | 0 <= k < |a|
      ensures src[i + k] == a[k]
    {
      assert (a + b)[k] == a[k];
    }
    forall k | 0 <= k < |b|
      ensures src[i + |a| + k] == b[k]
    {
      assert (a + b)[|a| + k] == b[k];
    }
  }

  /** Two consecutive pieces: the first occurs, the second is a slice. */
  lemma {:induction false} AtPrefixSlice(src: seq<byte>, i: nat, a: seq<byte>, b: seq<byte>)
    requires At(src, i, a + b)
    ensures At(src, i, a) && i + |a| + |b| <= |src| && src[i + |a|..i + |a| + |b|] == b
  {
    AtConcat(src, i, a, b);
    AtSlice(src, i + |a|, b);
  }

  /** Three consecutive pieces: where each starts. */
  lemma AtSplit(src: seq<byte>, i: nat, a: seq<byte>, b: seq<byte>, c: seq<byte>)
    requires At(src, i, a + b + c)
    ensures At(src, i, a) && At(src, i + |a|, b + c)
    ensures At(src, i + |a|, b) && At(src, i + |a| + |b|, c)
  {
    assert a + b + c == a + (b + c);
    AtConcat(src, i, a, b + c);
    AtConcat(src, i + |a|, b, c);
  }

  /** The first byte of a non-empty occurrence. */
  lemma {:induction false} AtFirst(src: seq<byte>, i: nat, b: seq<byte>)
    requires |b| > 0 && At(src, i, b)
    ensures src[i] == b[0]
  {
    assert src[i + 0] == b[0];
  }

  lemma AtTwo(src: seq<byte>, i: nat, x: byte, y: byte)
    requires At(src, i, [x, y])
    ensures i + 1 < |src| && src[i] == x && src[i + 1] == y
  {
    assert src[i + 0] == [x, y][0] && src[i + 1] == [x, y][1];
  }
}
