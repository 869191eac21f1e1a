/** Recursive Length Prefix encoding: core/silkworm/rlp/encode.{hpp,cpp}. */
module Rlp {
  import opened Basics

  const EMPTY_STRING_CODE: Byte := 0x80
  const EMPTY_LIST_CODE: Byte := 0xC0

  /** Minimal big-endian representation, empty for zero (`big_endian`). */
  function BigEndian(n: nat): (s: Bytes)
  {
    if n == 0 then [] else BigEndian(n / 256) + [n % 256]
  }

  function BitLength(n: nat): (b: nat)
  {
    if n == 0 then 0 else 1 + BitLength(n / 2)
  }

  /** Number of significant bytes; for a 64-bit `n` this is `8 - clz(n) / 8`. */
  function ByteLength(n: nat): (b: nat)
  {
    (BitLength(n) + 7) / 8
  }

  function EncodeHeader(list: bool, payloadLength: nat): (s: Bytes)
  {
    if payloadLength < 56 then
      [(if list then EMPTY_LIST_CODE else EMPTY_STRING_CODE) + payloadLength]
    else
      var be := BigEndian(payloadLength);
      [((if list then 0xF7 else 0xB7) + |be|) % 256] + be
  }

  function LengthOfLength(payloadLength: nat): (n: nat)
  {
    if payloadLength < 56 then 1 else 1 + ByteLength(payloadLength)
  }

  function EncodeString(s: Bytes): (r: Bytes)
  {
    if |s| != 1 || s[0] >= EMPTY_STRING_CODE then EncodeHeader(false, |s|) + s else s
  }

  function StringLength(s: Bytes): (n: nat)
  {
    if |s| != 1 || s[0] >= EMPTY_STRING_CODE then |s| + LengthOfLength(|s|) else |s|
  }

  function EncodeUint(n: nat): (r: Bytes)
  {
    if n == 0 then [EMPTY_STRING_CODE]
    else if n < EMPTY_STRING_CODE then [n]
    else
      var be := BigEndian(n);
      [(EMPTY_STRING_CODE + |be|) % 256] + be
  }

  /** The encoding of a list whose items are already encoded. */
  function EncodeList(payload: Bytes): (r: Bytes)
  {
    EncodeHeader(true, |payload|) + payload
  }

  lemma {:induction false} BitLengthShift(n: nat)
    requires 256 <= n
    ensures BitLength(n) == 8 + BitLength(n / 256)
  {
    assert n / 2 / 2 / 2 / 2 / 2 / 2 / 2 / 2 == n / 256;
    var n1 := n / 2; var n2 := n1 / 2; var n3 := n2 / 2; var n4 := n3 / 2;
    var n5 := n4 / 2; var n6 := n5 / 2; var n7 := n6 / 2;
    assert BitLength(n) == 1 + BitLength(n1);
    assert BitLength(n1) == 1 + BitLength(n2);
    assert BitLength(n2) == 1 + BitLength(n3);
    assert BitLength(n3) == 1 + BitLength(n4);
    assert BitLength(n4) == 1 + BitLength(n5);
    assert BitLength(n5) == 1 + BitLength(n6);
    assert BitLength(n6) == 1 + BitLength(n7);
    assert BitLength(n7) == 1 + BitLength(n7 / 2);
  }

  /** Stripping leading zero bytes by counting leading zero bits is exact. */
  lemma {:induction false} ByteLengthExact(n: nat)
    ensures |BigEndian(n)| == ByteLength(n)
  {
    if n == 0 {
    } else if n < 256 {
      assert n / 256 == 0;
      BitLengthBound(n, 8);
    } else {
      BitLengthShift(n);
      ByteLengthExact(n / 256);
    }
  }

  lemma {:induction false} BitLengthBound(n: nat, b: nat)
    requires n < Pow2(b)
    ensures BitLength(n) <= b
    decreases b
  {
    if n != 0 {
      BitLengthBound(n / 2, b - 1);
    }
  }

  function Pow2(b: nat): (p: nat)
    ensures p > 0
  {
    if b == 0 then 1 else 2 * Pow2(b - 1)
  }

  /** `length_of_length` and `length` agree with what `encode_header` and `encode` append. */
  lemma LengthsExact(s: Bytes, list: bool, payloadLength: nat)
    ensures |EncodeHeader(list, payloadLength)| == LengthOfLength(payloadLength)
    ensures |EncodeString(s)| == StringLength(s)
  {
    ByteLengthExact(payloadLength);
    ByteLengthExact(|s|);
  }

  lemma {:induction false} BigEndianBound(n: nat, k: nat)
    requires n < Pow256(k)
    ensures |BigEndian(n)| <= k
    decreases k
  {
    if n != 0 { BigEndianBound(n / 256, k - 1); }
  }

  function Pow256(k: nat): (p: nat)
    ensures p > 0
  {
    if k == 0 then 1 else 256 * Pow256(k - 1)
  }

  lemma {:induction false} BigEndianMonotone(a: nat, b: nat)
    requires a <= b
    ensures |BigEndian(a)| <= |BigEndian(b)|
  {
    if a != 0 { BigEndianMonotone(a / 256, b / 256); }
  }

  /** On numbers of the same width, numeric order is lexicographic order. */
  lemma {:induction false} BigEndianOrder(a: nat, b: nat)
    requires a < b && |BigEndian(a)| == |BigEndian(b)|
    ensures Before(BigEndian(a), BigEndian(b))
  {
    var x, y := BigEndian(a), BigEndian(b);
    assert |x| > 0 && x == BigEndian(a / 256) + [a % 256] && y == BigEndian(b / 256) + [b % 256];
    if a / 256 < b / 256 {
      BigEndianOrder(a / 256, b / 256);
      var d := CommonLen(BigEndian(a / 256), BigEndian(b / 256));
      assert x[..d] == BigEndian(a / 256)[..d] && y[..d] == BigEndian(b / 256)[..d];
      BeforeAt(x, y, d);
    } else {
      BeforeAt(x, y, |x| - 1);
    }
  }

  /** Place of an encoded integer in the lexicographic order: zero sorts as 0x80. */
  function Rank(n: nat): (r: nat)
  {
    if n == 0 then 127 else if n < 0x80 then n - 1 else n
  }

  /** Encoded 64-bit integers are ordered as the integers themselves, save for zero,
      and no encoding is a prefix of another. */
  lemma EncodeUintOrder(a: nat, b: nat)
    requires Rank(a) < Rank(b) && b < Pow256(8)
    ensures Before(EncodeUint(a), EncodeUint(b))
  {
    var x, y := EncodeUint(a), EncodeUint(b);
    BigEndianBound(b, 8);
    if b >= 0x80 {
      assert |BigEndian(b)| >= 1;
    }
    if a < 0x80 {
      BeforeAt(x, y, 0);
    } else {
      BigEndianMonotone(a, b);
      var s, t := BigEndian(a), BigEndian(b);
      if |s| < |t| {
        BeforeAt(x, y, 0);
      } else {
        BigEndianOrder(a, b);
        var d := CommonLen(s, t);
        assert x[..d + 1] == [x[0]] + s[..d] && y[..d + 1] == [y[0]] + t[..d];
        BeforeAt(x, y, d + 1);
      }
    }
  }
}
