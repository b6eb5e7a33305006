/** Truncating a UTF-8 text to a number of bytes without splitting a character. */
module Truncate {
  import opened Common

  type Byte = b: nat | b < 256

  /** A Unicode scalar value. */
  type Scalar = c: nat | c < 0xD800 || 0xE000 <= c < 0x11_0000

  /** The octets of one character, after section 3 of RFC 3629. */
  function Encode(c: Scalar): seq<Byte> {
    if c < 0x80 then [c]
    else if c < 0x800 then [0xC0 + c / 0x40, 0x80 + c % 0x40]
    else if c < 0x1_0000 then [0xE0 + c / 0x1000, 0x80 + c / 0x40 % 0x40, 0x80 + c % 0x40]
    else [0xF0 + c / 0x4_0000, 0x80 + c / 0x1000 % 0x40, 0x80 + c / 0x40 % 0x40, 0x80 + c % 0x40]
  }

  function EncodeAll(chars: seq<Scalar>): seq<Byte>
    decreases |chars|
  {
    if chars == [] then [] else EncodeAll(chars[..|chars| - 1]) + Encode(chars[|chars| - 1])
  }

  predicate Continuation(b: Byte) {
    0x80 <= b < 0xC0
  }

  /** `str::is_char_boundary`: the ends, and every byte that continues no character. */
  predicate Boundary(s: seq<Byte>, i: nat) {
    i == 0 || i == |s| || (i < |s| && !Continuation(s[i]))
  }

  lemma EncodeShape(c: Scalar)
    ensures 1 <= |Encode(c)| <= 4 && !Continuation(Encode(c)[0])
    ensures forall i :: 1 <= i < |Encode(c)| ==> Continuation(Encode(c)[i])
  {
  }

  /** Six bits of an octet that continues a character. */
  function Six(b: Byte): int {
    b as int - 0x80
  }

  /** The number in the octets of one character, by the length that the first of them marks. */
  function Decode(s: seq<Byte>): int
    requires s != []
  {
    var b := s[0] as int;
    if b < 0x80 && |s| == 1 then b
    else if 0xC0 <= b < 0xE0 && |s| == 2 then (b - 0xC0) * 0x40 + Six(s[1])
    else if 0xE0 <= b < 0xF0 && |s| == 3 then (b - 0xE0) * 0x1000 + Six(s[1]) * 0x40 + Six(s[2])
    else if 0xF0 <= b < 0xF8 && |s| == 4 then
      (b - 0xF0) * 0x4_0000 + Six(s[1]) * 0x1000 + Six(s[2]) * 0x40 + Six(s[3])
    else -1
  }

  lemma DecodesThree(c: Scalar)
    requires 0x800 <= c < 0x1_0000
    ensures Decode(Encode(c)) == c
  {
    Divided(c / 0x40);
  }

  lemma DecodesFour(c: Scalar)
    requires 0x1_0000 <= c
    ensures Decode(Encode(c)) == c
  {
    Divided(c / 0x40);
    Divided(c / 0x1000);
    assert c / 0x40 / 0x40 == c / 0x1000 && c / 0x1000 / 0x40 == c / 0x4_0000;
  }

  /** A character is recovered from its octets. */
  lemma DecodesBack(c: Scalar)
    ensures Decode(Encode(c)) == c
  {
    if 0x800 <= c < 0x1_0000 { DecodesThree(c); }
    if 0x1_0000 <= c { DecodesFour(c); }
  }

  lemma Divided(n: nat)
    ensures n == n / 0x40 * 0x40 + n % 0x40
  {
  }

  /** The length of the first n characters. */
  function Offset(chars: seq<Scalar>, n: nat): nat
    requires n <= |chars|
  {
    |EncodeAll(chars[..n])|
  }

  lemma {:induction false} PrefixEncodes(chars: seq<Scalar>, n: nat)
    requires n <= |chars|
    ensures EncodeAll(chars[..n]) <= EncodeAll(chars)
    decreases |chars|
  {
    if n == |chars| {
      assert chars[..n] == chars;
    } else {
      var front := chars[..|chars| - 1];
      assert front[..n] == chars[..n];
      PrefixEncodes(front, n);
    }
  }

  lemma {:induction false} OffsetsGrow(chars: seq<Scalar>, m: nat, n: nat)
    requires m < n <= |chars|
    ensures Offset(chars, m) < Offset(chars, n)
    decreases n
  {
    assert chars[..n][..n - 1] == chars[..n - 1];
    EncodeShape(chars[n - 1]);
    if m < n - 1 { OffsetsGrow(chars, m, n - 1); }
  }

  /** The boundaries of an encoded text are exactly where its characters end. */
  lemma {:induction false} BoundaryIff(chars: seq<Scalar>, k: nat)
    ensures Boundary(EncodeAll(chars), k) <==> exists n :: 0 <= n <= |chars| && Offset(chars, n) == k
    decreases |chars|
  {
    var s := EncodeAll(chars);
    assert chars[..0] == [] && Offset(chars, 0) == 0;
    assert chars[..|chars|] == chars && Offset(chars, |chars|) == |s|;
    if chars != [] {
      var front, last := chars[..|chars| - 1], Encode(chars[|chars| - 1]);
      var t := EncodeAll(front);
      assert forall n :: 0 <= n <= |front| ==> front[..n] == chars[..n];
      EncodeShape(chars[|chars| - 1]);
      BoundaryIff(front, k);
      if k < |t| {
        assert s[k] == t[k];
        if n :| 0 <= n <= |chars| && Offset(chars, n) == k {
          assert n < |chars|;
          assert Offset(front, n) == k;
        }
        if n :| 0 <= n <= |front| && Offset(front, n) == k {
          assert Offset(chars, n) == k;
        }
      } else if k == |t| {
        assert Offset(chars, |front|) == k;
        assert s[k] == last[0];
      } else {
        if k < |s| { assert s[k] == last[k - |t|]; }
        forall n | 0 <= n <= |chars| && Offset(chars, n) == k
          ensures n == |chars|
        {
          if n < |front| { OffsetsGrow(chars, n, |front|); }
        }
      }
    }
  }

  /** The longest run of whole characters from the start that fits the size. */
  ghost predicate LongestFit(chars: seq<Scalar>, size: nat, r: seq<Byte>) {
    exists n ::
      && 0 <= n <= |chars| && r == EncodeAll(chars[..n]) && |r| <= size
      && forall m :: n < m <= |chars| ==> Offset(chars, m) > size
  }

  /** The longest prefix within the size that ends on a boundary is the longest run of characters. */
  lemma TruncatesToCharacters(chars: seq<Scalar>, size: Byte, r: seq<Byte>)
    requires r <= EncodeAll(chars) && |r| <= size && Boundary(EncodeAll(chars), |r|)
    requires forall j :: |r| < j <= size && j <= |EncodeAll(chars)| ==> !Boundary(EncodeAll(chars), j)
    ensures LongestFit(chars, size, r)
  {
    var s := EncodeAll(chars);
    BoundaryIff(chars, |r|);
    var n :| 0 <= n <= |chars| && Offset(chars, n) == |r|;
    PrefixEncodes(chars, n);
    assert r == s[..|r|] == EncodeAll(chars[..n]);
    forall m | n < m <= |chars|
      ensures Offset(chars, m) > size
    {
      OffsetsGrow(chars, n, m);
      PrefixEncodes(chars, m);
      BoundaryIff(chars, Offset(chars, m));
    }
  }

  /** The size is an 8-bit number. Of any bytes the longest prefix that ends on a boundary is returned,
      and of an encoded text the longest run of characters that fits. */
  method TruncateStr(s: seq<Byte>, size: Byte) returns (r: seq<Byte>)
    ensures r <= s && |r| <= size && Boundary(s, |r|)
    ensures forall j :: |r| < j <= size && j <= |s| ==> !Boundary(s, j)
    ensures |s| <= size ==> r == s
    ensures forall chars: seq<Scalar> :: EncodeAll(chars) == s ==> LongestFit(chars, size, r)
  {
    if Boundary(s, size) {
      r := s[..size];
    } else if size < |s| {
      // Zero is a boundary, so neither subtraction saturates.
      var index: nat := size - 1;
      while !Boundary(s, index)
        invariant index < size && forall j :: index < j <= size ==> !Boundary(s, j)
        decreases index
      {
        index := index - 1;
      }
      r := s[..index];
    } else {
      r := s;
    }
    forall chars: seq<Scalar> | EncodeAll(chars) == s
      ensures LongestFit(chars, size, r)
    {
      TruncatesToCharacters(chars, size, r);
    }
  }
}
