/** Lists and structures of RLP items: vectors (core/silkworm/rlp/{encode,decode}.hpp), access
    lists (core/silkworm/types/transaction.cpp) and block headers (core/silkworm/types/block.cpp).
    A structure is described by the sequence of its fields. */
module RlpSchema {
  import opened Basics
  import opened Rlp
  import opened RlpDecode

  datatype Field =
    | Fixed(size: nat)          // array of bytes
    | Text                      // byte string
    | Uint(maxBytes: nat)       // integer
    | Flag                      // bool
    | Optional(size: nat)       // array of bytes or nothing
    | ListOf(item: Field)       // vector
    | Record(fields: seq<Field>)

  datatype Value =
    | Data(bytes: Bytes)
    | Num(n: nat)
    | Bit(b: bool)
    | Maybe(opt: Option<Bytes>)
    | Items(items: seq<Value>)

  /** The sizes for which the encoding of arrays and integers is unambiguous. */
  ghost predicate Proper(f: Field)
  {
    match f
    case Fixed(n) => 1 < n < Pow256(8)
    case Uint(k) => k <= 55
    case Optional(n) => 1 < n <= 55
    case ListOf(g) => Proper(g)
    case Record(fs) => forall g <- fs :: Proper(g)
    case _ => true
  }

  /** The value has the type of the field. */
  predicate Typed(f: Field, v: Value)
    decreases f
  {
    match f
    case Fixed(n) => v.Data? && |v.bytes| == n
    case Text => v.Data?
    case Uint(_) => v.Num?
    case Flag => v.Bit?
    case Optional(n) => v.Maybe? && (v.opt.Some? ==> |v.opt.value| == n)
    case ListOf(g) => v.Items? && forall i | 0 <= i < |v.items| :: Typed(g, v.items[i])
    case Record(fs) => v.Items? && |v.items| == |fs| && forall i | 0 <= i < |fs| :: Typed(fs[i], v.items[i])
  }

  predicate TypedAll(fs: seq<Field>, vs: seq<Value>)
  {
    |vs| == |fs| && forall i | 0 <= i < |fs| :: Typed(fs[i], vs[i])
  }

  // --- lengths, as computed before encoding ---

  function UintLength(n: nat): (len: nat)
  {
    if n < EMPTY_STRING_CODE then 1 else 1 + ByteLength(n)
  }

  function FieldLength(f: Field, v: Value): (len: nat)
    requires Typed(f, v)
    decreases f, 0
  {
    match f
    case Fixed(n) => LengthOfLength(n) + n
    case Text => StringLength(v.bytes)
    case Uint(_) => UintLength(v.n)
    case Flag => UintLength(if v.b then 1 else 0)
    case Optional(n) => if v.opt.Some? then n + 1 else 1
    case ListOf(g) => var payload := ItemsLength(g, v.items); LengthOfLength(payload) + payload
    case Record(fs) => var payload := FieldsLength(fs, v.items); LengthOfLength(payload) + payload
  }

  function ItemsLength(g: Field, vs: seq<Value>): (len: nat)
    requires forall i | 0 <= i < |vs| :: Typed(g, vs[i])
    decreases g, 1 + |vs|
  {
    if vs == [] then 0 else FieldLength(g, vs[0]) + ItemsLength(g, vs[1..])
  }

  function FieldsLength(fs: seq<Field>, vs: seq<Value>): (len: nat)
    requires |fs| == |vs| && forall i | 0 <= i < |fs| :: Typed(fs[i], vs[i])
    decreases fs, 1
  {
    if fs == [] then 0 else FieldLength(fs[0], vs[0]) + FieldsLength(fs[1..], vs[1..])
  }

  // --- encoding ---

  function EncodeField(f: Field, v: Value): (s: Bytes)
    requires Typed(f, v)
    decreases f, 0
  {
    match f
    case Fixed(n) => if n <= 55 then EncodeFixed(v.bytes) else EncodeString(v.bytes)
    case Text => EncodeString(v.bytes)
    case Uint(_) => EncodeUint(v.n)
    case Flag => EncodeUint(if v.b then 1 else 0)
    case Optional(n) => EncodeOptional(v.opt)
    case ListOf(g) => EncodeHeader(true, ItemsLength(g, v.items)) + EncodeItems(g, v.items)
    case Record(fs) => EncodeHeader(true, FieldsLength(fs, v.items)) + EncodeFields(fs, v.items)
  }

  function EncodeItems(g: Field, vs: seq<Value>): (s: Bytes)
    requires forall i | 0 <= i < |vs| :: Typed(g, vs[i])
    decreases g, 1 + |vs|
  {
    if vs == [] then [] else EncodeField(g, vs[0]) + EncodeItems(g, vs[1..])
  }

  function EncodeFields(fs: seq<Field>, vs: seq<Value>): (s: Bytes)
    requires |fs| == |vs| && forall i | 0 <= i < |fs| :: Typed(fs[i], vs[i])
    decreases fs, 1
  {
    if fs == [] then [] else EncodeField(fs[0], vs[0]) + EncodeFields(fs[1..], vs[1..])
  }

  // --- decoding ---

  function DecodeField(f: Field, from: Bytes): (r: Decoded<Value>)
    ensures r.Success? ==> |r.value.1| < |from| && Typed(f, r.value.0)
    decreases f, 0
  {
    match f
    case Fixed(n) => var (s, rest) :- DecodeFixed(n, from); Success((Data(s), rest))
    case Text => var (s, rest) :- DecodeString(from); Success((Data(s), rest))
    case Uint(k) => var (n, rest) :- DecodeUint(k, from); Success((Num(n), rest))
    case Flag => var (b, rest) :- DecodeFlag(from); Success((Bit(b), rest))
    case Optional(n) => var (v, rest) :- DecodeOptional(n, from); Success((Maybe(v), rest))
    case ListOf(g) =>
      var (h, rest) :- DecodeHeader(from);
      if !h.list then Failure(UnexpectedString)
      else
        var vs :- DecodeItems(g, rest[..h.payloadLength]);
        Success((Items(vs), rest[h.payloadLength..]))
    case Record(fs) =>
      var (h, view) :- DecodeHeader(from);
      if !h.list then Failure(UnexpectedString)
      else
        var leftover := |view| - h.payloadLength;
        var (vs, rest) :- DecodeFields(fs, view);
        if |rest| == leftover then Success((Items(vs), rest)) else Failure(ListLengthMismatch)
  }

  function DecodeItems(g: Field, payload: Bytes): (r: Result<seq<Value>>)
    ensures r.Success? ==> forall i | 0 <= i < |r.value| :: Typed(g, r.value[i])
    decreases g, 1 + |payload|
  {
    if payload == [] then Success([])
    else
      var (v, rest) :- DecodeField(g, payload);
      var vs :- DecodeItems(g, rest);
      Success([v] + vs)
  }

  function DecodeFields(fs: seq<Field>, from: Bytes): (r: Decoded<seq<Value>>)
    ensures r.Success? ==> |r.value.1| <= |from| && TypedAll(fs, r.value.0)
    decreases fs, 1
  {
    if fs == [] then Success(([], from))
    else
      var (v, rest) :- DecodeField(fs[0], from);
      var (vs, end) :- DecodeFields(fs[1..], rest);
      Success(([v] + vs, end))
  }

  // --- lengths are exact ---

  lemma UintLengthExact(n: nat)
    ensures UintLength(n) == |EncodeUint(n)|
  {
    ByteLengthExact(n);
  }

  lemma EncodeFixedIsString(s: Bytes)
    requires 1 < |s| <= 55
    ensures EncodeFixed(s) == EncodeString(s)
  {
  }

  /** The length computed ahead of encoding is the number of bytes that encoding appends. */
  lemma {:induction false} FieldLengthExact(f: Field, v: Value)
    requires Typed(f, v) && Proper(f)
    ensures FieldLength(f, v) == |EncodeField(f, v)|
    decreases f, 0
  {
    match f
    case Fixed(n) => LengthsExact(v.bytes, false, n);
    case Text => LengthsExact(v.bytes, false, 0);
    case Uint(_) => UintLengthExact(v.n);
    case Flag => UintLengthExact(if v.b then 1 else 0);
    case Optional(n) =>
    case ListOf(g) => ItemsLengthExact(g, v.items); LengthsExact([], true, ItemsLength(g, v.items));
    case Record(fs) => FieldsLengthExact(fs, v.items); LengthsExact([], true, FieldsLength(fs, v.items));
  }

  lemma {:induction false} ItemsLengthExact(g: Field, vs: seq<Value>)
    requires Proper(g) && forall i | 0 <= i < |vs| :: Typed(g, vs[i])
    ensures ItemsLength(g, vs) == |EncodeItems(g, vs)|
    decreases g, 1 + |vs|
  {
    if vs != [] { FieldLengthExact(g, vs[0]); ItemsLengthExact(g, vs[1..]); }
  }

  lemma {:induction false} FieldsLengthExact(fs: seq<Field>, vs: seq<Value>)
    requires |fs| == |vs| && forall i | 0 <= i < |fs| :: Typed(fs[i], vs[i])
    requires forall g <- fs :: Proper(g)
    ensures FieldsLength(fs, vs) == |EncodeFields(fs, vs)|
    decreases fs, 1
  {
    if fs != [] { FieldLengthExact(fs[0], vs[0]); FieldsLengthExact(fs[1..], vs[1..]); }
  }

  // --- decoding inverts encoding ---

  /** Integers fit their width, strings and payloads have 64-bit lengths. */
  ghost predicate Fits(f: Field, v: Value)
    requires Typed(f, v)
    decreases f
  {
    match f
    case Text => |v.bytes| < Pow256(8)
    case Uint(k) => |BigEndian(v.n)| <= k
    case ListOf(g) =>
      && (forall i | 0 <= i < |v.items| :: Fits(g, v.items[i]))
      && ItemsLength(g, v.items) < Pow256(8)
    case Record(fs) =>
      && (forall i | 0 <= i < |fs| :: Fits(fs[i], v.items[i]))
      && FieldsLength(fs, v.items) < Pow256(8)
    case _ => true
  }

  lemma Pairing<T>(d: Decoded<T>)
    ensures d.Success? ==> d == Success((d.value.0, d.value.1))
  {
  }

  lemma LeafExact(f: Field, from: Bytes, v: Value, rest: Bytes)
    requires Proper(f) && !f.ListOf? && !f.Record?
    ensures DecodeField(f, from) == Success((v, rest)) <==>
            Typed(f, v) && Fits(f, v) && from == EncodeField(f, v) + rest
  {
    hide Pow256, DecodeFixed, DecodeString, DecodeUint, DecodeFlag, DecodeOptional, EncodeString, EncodeUint, EncodeOptional,
      EncodeFixed, BigEndian;
    match f
    case Fixed(n) =>
      if v.Data? {
        DecodeFixedExact(n, from, v.bytes, rest);
        if |v.bytes| == n <= 55 { EncodeFixedIsString(v.bytes); }
      }
      Pairing(DecodeFixed(n, from));
    case Text =>
      if v.Data? { DecodeStringExact(from, v.bytes, rest); }
      Pairing(DecodeString(from));
    case Uint(k) =>
      if v.Num? { DecodeUintExact(k, from, v.n, rest); }
      Pairing(DecodeUint(k, from));
    case Flag =>
      if v.Bit? { DecodeFlagExact(from, v.b, rest); }
      Pairing(DecodeFlag(from));
    case Optional(n) =>
      if v.Maybe? { DecodeOptionalExact(n, from, v.opt, rest); }
      Pairing(DecodeOptional(n, from));
  }

  /** A list header in front of a payload of exactly that length. */
  lemma ListHeaderExact(from: Bytes, payload: Bytes, rest: Bytes)
    requires |payload| < Pow256(8)
    ensures DecodeHeader(from) == Success((Header(true, |payload|), payload + rest)) <==>
            from == EncodeHeader(true, |payload|) + payload + rest
  {
    hide Pow256, EncodeHeader, DecodeHeader;
    DecodeHeaderExact(from, Header(true, |payload|), payload + rest);
    assert EncodeHeader(true, |payload|) + payload + rest == EncodeHeader(true, |payload|) + (payload + rest);
  }

  lemma {:induction false} FieldRoundTrip(f: Field, v: Value, rest: Bytes)
    requires Proper(f) && Typed(f, v) && Fits(f, v)
    ensures DecodeField(f, EncodeField(f, v) + rest) == Success((v, rest))
    decreases f, 0
  {
    hide DecodeHeader, EncodeHeader, Pow256;
    if f.ListOf? {
      var payload := EncodeItems(f.item, v.items);
      ItemsLengthExact(f.item, v.items);
      ItemsRoundTrip(f.item, v.items);
      ListHeaderExact(EncodeField(f, v) + rest, payload, rest);
      assert (payload + rest)[..|payload|] == payload && (payload + rest)[|payload|..] == rest;
    } else if f.Record? {
      var payload := EncodeFields(f.fields, v.items);
      FieldsLengthExact(f.fields, v.items);
      FieldsRoundTrip(f.fields, v.items, rest);
      ListHeaderExact(EncodeField(f, v) + rest, payload, rest);
    } else {
      LeafExact(f, EncodeField(f, v) + rest, v, rest);
    }
  }

  lemma {:induction false} ItemsRoundTrip(g: Field, vs: seq<Value>)
    requires Proper(g) && forall i | 0 <= i < |vs| :: Typed(g, vs[i]) && Fits(g, vs[i])
    ensures DecodeItems(g, EncodeItems(g, vs)) == Success(vs)
    decreases g, 1 + |vs|
  {
    hide DecodeField, EncodeField, FieldLength, Typed, Fits, Proper;
    if vs != [] {
      FieldRoundTrip(g, vs[0], EncodeItems(g, vs[1..]));
      ItemsRoundTrip(g, vs[1..]);
      assert [vs[0]] + vs[1..] == vs;
    }
  }

  lemma {:induction false} FieldsRoundTrip(fs: seq<Field>, vs: seq<Value>, rest: Bytes)
    requires |fs| == |vs| && forall i | 0 <= i < |fs| :: Typed(fs[i], vs[i]) && Fits(fs[i], vs[i])
    requires forall g <- fs :: Proper(g)
    ensures DecodeFields(fs, EncodeFields(fs, vs) + rest) == Success((vs, rest))
    decreases fs, 1
  {
    hide DecodeField, EncodeField, FieldLength, Typed, Fits, Proper;
    if fs == [] {
      assert EncodeFields(fs, vs) + rest == rest;
    } else {
      var tail := EncodeFields(fs[1..], vs[1..]) + rest;
      FieldRoundTrip(fs[0], vs[0], tail);
      FieldsRoundTrip(fs[1..], vs[1..], rest);
      assert EncodeFields(fs, vs) + rest == EncodeField(fs[0], vs[0]) + tail;
      assert [vs[0]] + vs[1..] == vs;
    }
  }

  // --- only encodings are decoded ---

  lemma {:induction false} FieldCanonical(f: Field, from: Bytes, v: Value, rest: Bytes)
    requires Proper(f) && DecodeField(f, from) == Success((v, rest))
    ensures Typed(f, v) && Fits(f, v) && from == EncodeField(f, v) + rest
    decreases f, 0
  {
    hide DecodeHeader, EncodeHeader, Pow256;
    if f.ListOf? {
      var (h, view) := DecodeHeader(from).value;
      DecodeHeaderExact(from, h, view);
      var payload := view[..h.payloadLength];
      ItemsCanonical(f.item, payload, v.items);
      ItemsLengthExact(f.item, v.items);
      assert view == payload + rest;
      ListHeaderExact(from, payload, rest);
    } else if f.Record? {
      var (h, view) := DecodeHeader(from).value;
      DecodeHeaderExact(from, h, view);
      FieldsCanonical(f.fields, view, v.items, rest);
      FieldsLengthExact(f.fields, v.items);
      ListHeaderExact(from, EncodeFields(f.fields, v.items), rest);
    } else {
      LeafExact(f, from, v, rest);
    }
  }

  lemma {:induction false} ItemsCanonical(g: Field, payload: Bytes, vs: seq<Value>)
    requires Proper(g) && DecodeItems(g, payload) == Success(vs)
    ensures forall i | 0 <= i < |vs| :: Typed(g, vs[i]) && Fits(g, vs[i])
    ensures payload == EncodeItems(g, vs)
    decreases g, 1 + |payload|
  {
    hide DecodeField, EncodeField, FieldLength, Typed, Fits, Proper;
    if payload != [] {
      var (v, rest) := DecodeField(g, payload).value;
      FieldCanonical(g, payload, v, rest);
      ItemsCanonical(g, rest, vs[1..]);
      assert vs == [v] + vs[1..];
    }
  }

  lemma {:induction false} FieldsCanonical(fs: seq<Field>, from: Bytes, vs: seq<Value>, rest: Bytes)
    requires forall g <- fs :: Proper(g)
    requires DecodeFields(fs, from) == Success((vs, rest))
    ensures |fs| == |vs| && forall i | 0 <= i < |fs| :: Typed(fs[i], vs[i]) && Fits(fs[i], vs[i])
    ensures from == EncodeFields(fs, vs) + rest
    decreases fs, 1
  {
    hide DecodeField, EncodeField, FieldLength, Typed, Fits, Proper;
    if fs != [] {
      var (v, view) := DecodeField(fs[0], from).value;
      FieldCanonical(fs[0], from, v, view);
      FieldsCanonical(fs[1..], view, vs[1..], rest);
      assert vs == [v] + vs[1..];
    }
  }

  /** Decoding is exactly the inverse of encoding: it returns the value and leaves what follows,
      and it accepts nothing but encodings. */
  lemma FieldExact(f: Field, from: Bytes, v: Value, rest: Bytes)
    requires Proper(f)
    ensures DecodeField(f, from) == Success((v, rest)) <==>
            Typed(f, v) && Fits(f, v) && from == EncodeField(f, v) + rest
  {
    hide DecodeField, EncodeField, Fits, Typed, Proper;
    if DecodeField(f, from) == Success((v, rest)) {
      FieldCanonical(f, from, v, rest);
    }
    if Typed(f, v) && Fits(f, v) && from == EncodeField(f, v) + rest {
      FieldRoundTrip(f, v, rest);
    }
  }

  // --- structures, item by item ---

  function Concat(parts: seq<Bytes>): (s: Bytes)
  {
    if parts == [] then [] else parts[0] + Concat(parts[1..])
  }

  /** The fields of a structure are written one after the other. */
  lemma {:induction false} FieldsAre(fs: seq<Field>, vs: seq<Value>, parts: seq<Bytes>)
    requires TypedAll(fs, vs) && |parts| == |fs| && forall i | 0 <= i < |fs| :: EncodeField(fs[i], vs[i]) == parts[i]
    ensures EncodeFields(fs, vs) == Concat(parts)
    decreases |fs|
  {
    hide EncodeField, Typed;
    if fs != [] { FieldsAre(fs[1..], vs[1..], parts[1..]); }
  }

  lemma {:induction false} ItemsAre(g: Field, vs: seq<Value>, parts: seq<Bytes>)
    requires Typed(ListOf(g), Items(vs)) && |parts| == |vs| && forall i | 0 <= i < |vs| :: EncodeField(g, vs[i]) == parts[i]
    ensures EncodeItems(g, vs) == Concat(parts)
    decreases |vs|
  {
    hide EncodeField, Typed;
    if vs != [] {
      assert Typed(ListOf(g), Items(vs[1..])) by { TailTyped(g, vs); }
      assert forall i | 0 <= i < |vs| :: Typed(g, vs[i]) by { AllTyped(g, vs); }
      ItemsAre(g, vs[1..], parts[1..]);
    }
  }

  lemma TailTyped(g: Field, vs: seq<Value>)
    requires Typed(ListOf(g), Items(vs)) && vs != []
    ensures Typed(ListOf(g), Items(vs[1..]))
  {
  }

  lemma AllTyped(g: Field, vs: seq<Value>)
    requires Typed(ListOf(g), Items(vs))
    ensures forall i | 0 <= i < |vs| :: Typed(g, vs[i])
  {
  }

  /** A structure and a list are the RLP lists of their parts. */
  lemma RecordIs(fs: seq<Field>, vs: seq<Value>, parts: seq<Bytes>)
    requires TypedAll(fs, vs) && |parts| == |fs| && forall i | 0 <= i < |fs| :: EncodeField(fs[i], vs[i]) == parts[i]
    requires forall g <- fs :: Proper(g)
    ensures FieldsLength(fs, vs) == |Concat(parts)|
    ensures EncodeHeader(true, FieldsLength(fs, vs)) + EncodeFields(fs, vs) == EncodeList(Concat(parts))
  {
    hide EncodeField, Typed, Proper;
    FieldsAre(fs, vs, parts);
    FieldsLengthExact(fs, vs);
  }

  lemma ListIs(g: Field, vs: seq<Value>, parts: seq<Bytes>)
    requires Typed(ListOf(g), Items(vs)) && |parts| == |vs| && Proper(g)
    requires (forall i | 0 <= i < |vs| :: Typed(g, vs[i])) && forall i | 0 <= i < |vs| :: EncodeField(g, vs[i]) == parts[i]
    ensures EncodeField(ListOf(g), Items(vs)) == EncodeList(Concat(parts))
  {
    ItemsAre(g, vs, parts);
    ItemsLengthExact(g, vs);
  }

  /** Arrays are written as strings. */
  lemma ArrayIs(n: nat, s: Bytes)
    requires n > 1 && |s| == n
    ensures Typed(Fixed(n), Data(s)) && EncodeField(Fixed(n), Data(s)) == EncodeString(s)
  {
  }
}
