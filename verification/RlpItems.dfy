/** RLP items as wholes: they delimit themselves, and what is not one is refused with the error that says why
    (core/silkworm/rlp/decode.{hpp,cpp}). */
module RlpItems {
  import opened Basics
  import opened Rlp
  import opened RlpDecode
  import opened RlpSchema

  function Item(list: bool, payload: Bytes): (s: Bytes)
  {
    if list then EncodeList(payload) else EncodeString(payload)
  }

  lemma ItemHeader(list: bool, a: Bytes, x: Bytes)
    requires |a| < Pow256(8)
    ensures DecodeHeader(Item(list, a) + x) == Success((RlpDecode.Header(list, |a|), a + x))
  {
    hide Pow256, EncodeHeader, DecodeHeader;
    DecodeHeaderExact(Item(list, a) + x, RlpDecode.Header(list, |a|), a + x);
    assert EncodeHeader(list, |a|) + a + x == EncodeHeader(list, |a|) + (a + x);
    assert a != [] ==> (a + x)[0] == a[0];
  }

  /** Items are self-delimiting. */
  lemma ItemUnique(list: bool, a: Bytes, x: Bytes, list': bool, b: Bytes, y: Bytes)
    requires |a| < Pow256(8) && |b| < Pow256(8) && Item(list, a) + x == Item(list', b) + y
    ensures list == list' && a == b && x == y
  {
    hide Pow256, EncodeHeader, DecodeHeader;
    ItemHeader(list, a, x);
    ItemHeader(list', b, y);
    assert a + x == b + y && |a| == |b|;
    assert a == (a + x)[..|a|] && b == (b + y)[..|b|] && x == (a + x)[|a|..] && y == (b + y)[|b|..];
  }

  // --- what is refused, and why ---

  /** An item that is cut off is too short. */
  lemma Truncated(list: bool, payload: Bytes, k: nat)
    requires |payload| < Pow256(8) && k < |Item(list, payload)|
    ensures DecodeHeader(Item(list, payload)[..k]) == Failure(InputTooShort)
  {
    hide Pow256, DecodeHeader;
    if |payload| < 56 { TruncatedShort(list, payload, k); } else { TruncatedLong(list, payload, k); }
  }

  lemma TruncatedShort(list: bool, payload: Bytes, k: nat)
    requires |payload| < 56 && k < |Item(list, payload)|
    ensures DecodeHeader(Item(list, payload)[..k]) == Failure(InputTooShort)
  {
    hide BigEndian;
  }

  lemma TruncatedLong(list: bool, payload: Bytes, k: nat)
    requires 56 <= |payload| < Pow256(8) && k < |Item(list, payload)|
    ensures DecodeHeader(Item(list, payload)[..k]) == Failure(InputTooShort)
  {
    hide Pow256, BigEndian, EncodeHeader, HeaderPart, LongHeader;
    var n := |payload|;
    var code: Byte, be := if list then 0xF7 else 0xB7, BigEndian(n);
    LongHeaderRoundTrip(list, n, []);
    var start: Byte := code + |be|;
    assert Item(list, payload) == EncodeHeader(list, n) + payload == [start] + be + payload;
    var from := ([start] + be + payload)[..k];
    if k > 0 {
      CutParts(start, be, payload, k);
      LongPart(list, |be|, from);
      if k > |be| {
        LongHeaderRoundTrip(list, n, payload[..k - 1 - |be|]);
      } else {
        LongCut(list, |be|, from[1..]);
      }
    }
  }

  lemma CutParts(start: Byte, be: Bytes, payload: Bytes, k: nat)
    requires 0 < k < 1 + |be| + |payload|
    ensures var from := ([start] + be + payload)[..k];
      from[0] == start && from[1..] == if k > |be| then be + payload[..k - 1 - |be|] else be[..k - 1]
  {
  }

  lemma LongCut(list: bool, n: nat, view: Bytes)
    requires |view| < n
    ensures LongHeader(list, n, view) == Failure(InputTooShort)
  {
  }

  /** A list is refused where a string is expected. */
  lemma ListRefused(payload: Bytes, rest: Bytes, n: nat)
    requires |payload| < Pow256(8)
    ensures var from := EncodeList(payload) + rest;
      && DecodeString(from) == Failure(UnexpectedList) && DecodeUint(n, from) == Failure(UnexpectedList)
      && DecodeFixed(n, from) == Failure(UnexpectedList) && DecodeFlag(from) == Failure(UnexpectedList)
  {
    hide Pow256, DecodeHeader, EncodeHeader;
    ItemHeader(true, payload, rest);
  }

  /** A string that is no shortest integer, or too wide a one, is refused as an integer; 2 and above are refused as a boolean. */
  lemma IntegerRefused(maxBytes: nat, s: Bytes, rest: Bytes)
    requires |s| < Pow256(8)
    ensures var r := DecodeUint(maxBytes, EncodeString(s) + rest);
      && (r == Failure(Overflow) <==> |s| > maxBytes)
      && (r == Failure(LeadingZero) <==> 0 < |s| <= maxBytes && s[0] == 0)
      && (r.Success? <==> |s| <= maxBytes && (s == [] || s[0] != 0))
    ensures s != [] && s[0] != 0 ==>
      (DecodeFlag(EncodeString(s) + rest) == Failure(Overflow) <==> s != [1])
  {
    hide Pow256, DecodeHeader, EncodeHeader, FromBigEndian;
    ItemHeader(false, s, rest);
    assert (s + rest)[..|s|] == s;
    if s != [] && s[0] != 0 { Denotes(s); }
  }

  lemma Denotes(s: Bytes)
    requires s != [] && s[0] != 0
    ensures FromBigEndian(s) >= 1 && (FromBigEndian(s) == 1 <==> s == [1])
  {
    FromBigEndianInverse(s);
    if FromBigEndian(s) == 1 {
      assert s == BigEndian(1) == BigEndian(0) + [1] == [1];
    }
    if s == [1] { assert s[..0] == [] && FromBigEndian([]) == 0; }
  }

  /** A string of another length is refused as an array. */
  lemma ArrayRefused(n: nat, s: Bytes, rest: Bytes)
    requires |s| < Pow256(8)
    ensures var r := DecodeFixed(n, EncodeString(s) + rest);
      (r == Failure(UnexpectedLength) <==> |s| != n) && (r.Success? <==> |s| == n)
  {
    hide Pow256, DecodeHeader, EncodeHeader;
    ItemHeader(false, s, rest);
  }

  /** A byte below 0x80 is its own encoding. */
  lemma HeaderRefused(b: Byte, rest: Bytes)
    requires b < 0x80
    ensures DecodeHeader([0x81, b] + rest) == Failure(NonCanonicalSingleByte)
  {
  }

  /** A length is written without leading zeros, and only from 56 on. */
  lemma LengthRefused(list: bool, be: Bytes, rest: Bytes)
    requires 0 < |be| <= 8
    ensures var r := DecodeHeader([(if list then 0xF7 else 0xB7) + |be|] + (be + rest));
      && (r == Failure(LeadingZero) <==> be[0] == 0)
      && (r == Failure(NonCanonicalSize) <==> be[0] != 0 && FromBigEndian(be) < 56)
  {
    hide LongHeader, HeaderPart, FromBigEndian;
    var code: Byte, view := (if list then 0xF7 else 0xB7) + |be|, be + rest;
    assert ([code] + view)[1..] == view;
    LongPart(list, |be|, [code] + view);
    LongLength(list, be, rest);
  }

  lemma LongPart(list: bool, n: nat, from: Bytes)
    requires 0 < n <= 8 && from != [] && from[0] == (if list then 0xF7 else 0xB7) + n
    ensures HeaderPart(from) == LongHeader(list, n, from[1..])
  {
    hide LongHeader;
  }

  lemma LongLength(list: bool, be: Bytes, rest: Bytes)
    requires 0 < |be| <= 8
    ensures var r := LongHeader(list, |be|, be + rest);
      && (r == Failure(LeadingZero) <==> be[0] == 0)
      && (r == Failure(NonCanonicalSize) <==> be[0] != 0 && FromBigEndian(be) < 56)
      && (r.Failure? ==> r.error.LeadingZero? || r.error.NonCanonicalSize?)
  {
    hide FromBigEndian;
    assert (be + rest)[..|be|] == be;
  }

  /** A string is refused where a list is expected. */
  lemma StringRefused(f: Field, s: Bytes, rest: Bytes)
    requires (f.ListOf? || f.Record?) && |s| < Pow256(8)
    ensures DecodeField(f, EncodeString(s) + rest) == Failure(UnexpectedString)
  {
    hide Pow256, DecodeHeader, EncodeHeader, DecodeItems, DecodeFields;
    ItemHeader(false, s, rest);
  }

  /** A structure is refused if and only if the stated length is not that of its fields. */
  lemma StructureRefused(fs: seq<Field>, vs: seq<Value>, m: nat, rest: Bytes)
    requires (forall g <- fs :: Proper(g)) && TypedAll(fs, vs) && forall i | 0 <= i < |fs| :: Fits(fs[i], vs[i])
    requires m < Pow256(8) && m <= |EncodeFields(fs, vs) + rest|
    ensures var r := DecodeField(Record(fs), EncodeHeader(true, m) + (EncodeFields(fs, vs) + rest));
      if m == |EncodeFields(fs, vs)| then r == Success((Items(vs), rest)) else r == Failure(ListLengthMismatch)
  {
    hide Pow256, DecodeHeader, EncodeHeader, EncodeFields, DecodeFields, Fits, Typed, Proper;
    var view := EncodeFields(fs, vs) + rest;
    DecodeHeaderExact(EncodeHeader(true, m) + view, RlpDecode.Header(true, m), view);
    FieldsRoundTrip(fs, vs, rest);
  }
}
