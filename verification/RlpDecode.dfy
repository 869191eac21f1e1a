/** Decoding of headers, strings, integers and lists: core/silkworm/rlp/decode.{hpp,cpp}. */
module RlpDecode {
  import opened Basics
  import opened Rlp

  datatype Error =
    | Overflow | LeadingZero | InputTooShort | NonCanonicalSingleByte | NonCanonicalSize
    | UnexpectedLength | UnexpectedString | UnexpectedList | ListLengthMismatch | UnsupportedEip2718Type

  datatype Result<+T> = Success(value: T) | Failure(error: Error)
  {
    predicate IsFailure() { Failure? }
    function PropagateFailure<U>(): (r: Result<U>) requires Failure? { Failure(error) }
    function Extract(): (r: T) requires Success? { value }
  }

  /** A decoded value and what is left of the view. */
  type Decoded<T> = Result<(T, Bytes)>

  function FromBigEndian(be: Bytes): (n: nat)
  {
    if be == [] then 0 else 256 * FromBigEndian(be[..|be| - 1]) + be[|be| - 1]
  }

  lemma {:induction false} BigEndianInverse(n: nat)
    ensures FromBigEndian(BigEndian(n)) == n
    ensures n > 0 ==> BigEndian(n) != [] && BigEndian(n)[0] != 0
  {
    if n > 0 {
      var be := BigEndian(n);
      assert be[..|be| - 1] == BigEndian(n / 256);
      BigEndianInverse(n / 256);
      if n < 256 {
        assert BigEndian(n / 256) == [] && be == [n % 256];
      }
    }
  }

  lemma {:induction false} FromBigEndianInverse(be: Bytes)
    requires be == [] || be[0] != 0
    ensures BigEndian(FromBigEndian(be)) == be
    ensures be != [] ==> FromBigEndian(be) > 0
    ensures FromBigEndian(be) < Pow256(|be|)
  {
    if be != [] {
      var front, last := be[..|be| - 1], be[|be| - 1];
      if front == [] {
        assert be == [last] && FromBigEndian(front) == 0;
        assert BigEndian(last) == BigEndian(0) + [last];
        assert Pow256(1) == 256 * Pow256(0);
      } else {
        FromBigEndianInverse(front);
        var n := FromBigEndian(be);
        assert n / 256 == FromBigEndian(front) && n % 256 == last;
        assert be == front + [last];
      }
    }
  }

  /** `read_uint64` for 8 bytes, `read_uint256` for 32. */
  function ReadUint(maxBytes: nat, be: Bytes): (r: Result<nat>)
  {
    if |be| > maxBytes then Failure(Overflow)
    else if be == [] then Success(0)
    else if be[0] == 0 then Failure(LeadingZero)
    else Success(FromBigEndian(be))
  }

  /** Exactly the shortest big-endian forms of at most `maxBytes` bytes are read. */
  lemma ReadUintExact(maxBytes: nat, be: Bytes, n: nat)
    ensures ReadUint(maxBytes, be) == Success(n) <==> be == BigEndian(n) && |be| <= maxBytes
  {
    BigEndianInverse(n);
    if be == [] || be[0] != 0 {
      FromBigEndianInverse(be);
    }
  }

  datatype Header = Header(list: bool, payloadLength: nat)

  function LongHeader(list: bool, lenOfLen: nat, from: Bytes): (r: Decoded<Header>)
  {
    if |from| < lenOfLen then Failure(InputTooShort)
    else
      var len :- ReadUint(8, from[..lenOfLen]);
      if len < 56 then Failure(NonCanonicalSize) else Success((Header(list, len), from[lenOfLen..]))
  }

  function HeaderPart(from: Bytes): (r: Decoded<Header>)
    requires from != []
  {
    var b := from[0];
    if b < 0x80 then Success((Header(false, 1), from))
    else if b < 0xB8 then
      if b == 0x81 && |from| == 1 then Failure(InputTooShort)
      else if b == 0x81 && from[1] < 0x80 then Failure(NonCanonicalSingleByte)
      else Success((Header(false, b - 0x80), from[1..]))
    else if b < 0xC0 then LongHeader(false, b - 0xB7, from[1..])
    else if b < 0xF8 then Success((Header(true, b - 0xC0), from[1..]))
    else LongHeader(true, b - 0xF7, from[1..])
  }

  function DecodeHeader(from: Bytes): (r: Decoded<Header>)
    ensures r.Success? ==> r.value.0.payloadLength <= |r.value.1| <= |from|
  {
    if from == [] then Failure(InputTooShort)
    else
      var (h, rest) :- HeaderPart(from);
      if |rest| < h.payloadLength then Failure(InputTooShort) else Success((h, rest))
  }

  /** A string of one byte below 0x80 is its own encoding. */
  predicate Bare(list: bool, payloadLength: nat, rest: Bytes)
  {
    !list && payloadLength == 1 && rest != [] && rest[0] < 0x80
  }

  lemma LongHeaderRoundTrip(list: bool, n: nat, rest: Bytes)
    requires 56 <= n < Pow256(8)
    ensures var code, be := if list then 0xF7 else 0xB7, BigEndian(n);
      0 < |be| <= 8 && EncodeHeader(list, n) == [code + |be|] + be &&
      LongHeader(list, |be|, be + rest) == Success((Header(list, n), rest))
  {
    hide FromBigEndian, Pow256;
    var be := BigEndian(n);
    BigEndianBound(n, 8);
    ReadUintExact(8, be, n);
    assert (be + rest)[..|be|] == be && (be + rest)[|be|..] == rest;
  }

  lemma LongHeaderCanonical(list: bool, len: nat, view: Bytes, n: nat, rest: Bytes)
    requires len <= 8 && LongHeader(list, len, view) == Success((Header(list, n), rest))
    ensures 56 <= n < Pow256(8)
    ensures view == BigEndian(n) + rest && |BigEndian(n)| == len
  {
    hide FromBigEndian, BigEndian, Pow256;
    ReadUintExact(8, view[..len], n);
    FromBigEndianInverse(view[..len]);
    Pow256Monotone(len, 8);
    assert view == view[..len] + view[len..];
  }

  lemma LongHeaderExact(list: bool, from: Bytes, n: nat, rest: Bytes)
    requires n >= 56 && from != []
    ensures var code := if list then 0xF7 else 0xB7;
      code < from[0] <= code + 8 && LongHeader(list, from[0] - code, from[1..]) == Success((Header(list, n), rest)) <==>
      n < Pow256(8) && from == EncodeHeader(list, n) + rest
  {
    hide LongHeader, Pow256, EncodeHeader, BigEndian;
    var code := if list then 0xF7 else 0xB7;
    if n < Pow256(8) && from == EncodeHeader(list, n) + rest {
      LongHeaderRoundTrip(list, n, rest);
      assert from[1..] == BigEndian(n) + rest;
    }
    if code < from[0] <= code + 8 && LongHeader(list, from[0] - code, from[1..]) == Success((Header(list, n), rest)) {
      LongHeaderCanonical(list, from[0] - code, from[1..], n, rest);
      LongHeaderRoundTrip(list, n, rest);
      assert from == [from[0]] + from[1..] == EncodeHeader(list, n) + rest;
    }
  }

  lemma {:induction false} Pow256Monotone(a: nat, b: nat)
    requires a <= b
    ensures Pow256(a) <= Pow256(b)
  {
    if a < b { Pow256Monotone(a, b - 1); }
  }

  /** Headers are decoded exactly from their encoding, and only the shortest form is accepted. */
  lemma DecodeHeaderExact(from: Bytes, h: Header, rest: Bytes)
    ensures DecodeHeader(from) == Success((h, rest)) <==>
      && h.payloadLength < Pow256(8)
      && h.payloadLength <= |rest|
      && from == if Bare(h.list, h.payloadLength, rest) then rest else EncodeHeader(h.list, h.payloadLength) + rest
  {
    assert Pow256(8) > 56;
    if from != [] && h.payloadLength >= 56 {
      LongHeaderExact(h.list, from, h.payloadLength, rest);
    }
    if from != [] {
      assert from == [from[0]] + from[1..];
    }
  }

  function DecodeString(from: Bytes): (r: Decoded<Bytes>)
  {
    var (h, rest) :- DecodeHeader(from);
    if h.list then Failure(UnexpectedList) else Success((rest[..h.payloadLength], rest[h.payloadLength..]))
  }

  /** Decoding a string returns exactly what was encoded and leaves exactly what follows. */
  lemma DecodeStringExact(from: Bytes, s: Bytes, rest: Bytes)
    ensures DecodeString(from) == Success((s, rest)) <==> |s| < Pow256(8) && from == EncodeString(s) + rest
  {
    hide Pow256, EncodeHeader, DecodeHeader;
    DecodeHeaderExact(from, Header(false, |s|), s + rest);
    assert (s + rest)[..|s|] == s && (s + rest)[|s|..] == rest;
    assert s != [] ==> (s + rest)[0] == s[0];
    assert EncodeHeader(false, |s|) + s + rest == EncodeHeader(false, |s|) + (s + rest);
    if DecodeString(from) == Success((s, rest)) {
      var view := DecodeHeader(from).value.1;
      assert view == view[..|s|] + view[|s|..] == s + rest;
    }
  }

  function DecodeUint(maxBytes: nat, from: Bytes): (r: Decoded<nat>)
  {
    var (h, rest) :- DecodeHeader(from);
    if h.list then Failure(UnexpectedList)
    else
      var n :- ReadUint(maxBytes, rest[..h.payloadLength]);
      Success((n, rest[h.payloadLength..]))
  }

  lemma EncodeUintIsString(n: nat)
    requires |BigEndian(n)| <= 55
    ensures EncodeUint(n) == EncodeString(BigEndian(n))
  {
    var be := BigEndian(n);
    BigEndianInverse(n);
    if 0 < n < 256 {
      assert BigEndian(n / 256) == [] && be == [n];
    } else if n >= 256 {
      assert |BigEndian(n / 256)| >= 1;
    }
  }

  lemma DecodeUintExact(maxBytes: nat, from: Bytes, n: nat, rest: Bytes)
    requires maxBytes <= 55
    ensures DecodeUint(maxBytes, from) == Success((n, rest)) <==>
            |BigEndian(n)| <= maxBytes && from == EncodeUint(n) + rest
  {
    hide Pow256, EncodeHeader, DecodeHeader, ReadUint, EncodeUint, EncodeString, BigEndian;
    var be := BigEndian(n);
    assert 55 < Pow256(8) by { Pow256Monotone(1, 8); assert Pow256(1) == 256 by { Pow256One(); } }
    ReadUintExact(maxBytes, be, n);
    DecodeStringExact(from, be, rest);
    if |be| <= 55 {
      EncodeUintIsString(n);
    }
    if DecodeUint(maxBytes, from) == Success((n, rest)) {
      var (h, view) := DecodeHeader(from).value;
      ReadUintExact(maxBytes, view[..h.payloadLength], n);
    }
  }

  lemma Pow256One()
    ensures Pow256(1) == 256
  {
    assert Pow256(0) == 1;
  }

  function DecodeFixed(n: nat, from: Bytes): (r: Decoded<Bytes>)
  {
    var (h, rest) :- DecodeHeader(from);
    if h.list then Failure(UnexpectedList)
    else if h.payloadLength != n then Failure(UnexpectedLength)
    else Success((rest[..n], rest[n..]))
  }

  /** The template for byte arrays of a fixed size. */
  function EncodeFixed(bytes: Bytes): (r: Bytes)
    requires |bytes| <= 55
  {
    [EMPTY_STRING_CODE + |bytes|] + bytes
  }

  lemma DecodeFixedExact(n: nat, from: Bytes, s: Bytes, rest: Bytes)
    requires n < Pow256(8)
    ensures DecodeFixed(n, from) == Success((s, rest)) <==> |s| == n && from == EncodeString(s) + rest
  {
    hide Pow256, EncodeHeader, DecodeHeader, EncodeString;
    DecodeStringExact(from, s, rest);
    assert DecodeFixed(n, from) == Success((s, rest)) <==> DecodeString(from) == Success((s, rest)) && |s| == n;
  }

  function DecodeFlag(from: Bytes): (r: Decoded<bool>)
  {
    var (n, rest) :- DecodeUint(8, from);
    if n > 1 then Failure(Overflow) else Success((n == 1, rest))
  }

  /** An address that may be absent; reading past the end of the view is an error. */
  function DecodeOptional(n: nat, from: Bytes): (r: Decoded<Option<Bytes>>)
  {
    if from == [] then Failure(InputTooShort)
    else if from[0] == EMPTY_STRING_CODE then Success((None, from[1..]))
    else
      var (s, rest) :- DecodeFixed(n, from);
      Success((Some(s), rest))
  }

  function EncodeOptional(v: Option<Bytes>): (r: Bytes)
  {
    if v.Some? then EncodeString(v.value) else [EMPTY_STRING_CODE]
  }

  lemma DecodeOptionalExact(n: nat, from: Bytes, v: Option<Bytes>, rest: Bytes)
    requires 1 < n <= 55
    ensures DecodeOptional(n, from) == Success((v, rest)) <==>
            (v.Some? ==> |v.value| == n) && from == EncodeOptional(v) + rest
  {
    hide Pow256, DecodeFixed;
    assert 55 < Pow256(8) by { Pow256Monotone(1, 8); Pow256One(); }
    if v.Some? {
      DecodeFixedExact(n, from, v.value, rest);
      assert |v.value| == n ==> (EncodeString(v.value) + rest)[0] == EMPTY_STRING_CODE + n;
      if from != [] && from[0] != EMPTY_STRING_CODE && DecodeFixed(n, from).Success? {
        var (s, view) := DecodeFixed(n, from).value;
        assert DecodeOptional(n, from) == Success((v, rest)) <==> s == v.value && view == rest;
      }
    } else if from != [] {
      assert from == [from[0]] + from[1..];
      assert ([EMPTY_STRING_CODE] + rest)[1..] == rest;
    }
  }

  lemma DecodeFlagExact(from: Bytes, v: bool, rest: Bytes)
    ensures DecodeFlag(from) == Success((v, rest)) <==> from == EncodeUint(if v then 1 else 0) + rest
  {
    hide DecodeUint;
    DecodeUintExact(8, from, 0, rest);
    DecodeUintExact(8, from, 1, rest);
    BigEndianBound(0, 8);
    assert |BigEndian(1)| == 1 by { assert BigEndian(1 / 256) == []; }
    if DecodeUint(8, from).Success? {
      var (n, view) := DecodeUint(8, from).value;
      assert DecodeFlag(from) == Success((v, rest)) <==> n <= 1 && v == (n == 1) && view == rest;
    }
  }
}
