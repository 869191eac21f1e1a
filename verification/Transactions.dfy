/** Legacy and EIP-2930 transactions: core/silkworm/types/transaction.cpp and the two
    conversions of core/silkworm/crypto/ecdsa.cpp. */
module Transactions {
  import opened Basics
  import opened Rlp
  import opened RlpDecode
  import opened RlpSchema
  import RlpItems
  import opened Codecs

  // --- EIP-155: v against parity and chain id, modulo 2^256 ---

  const WORD: nat := Pow256(32)

  function Wrap(x: int): (r: nat)
    ensures r < WORD
  {
    x % WORD
  }

  function ToV(odd: bool, chainId: Option<nat>): (v: nat)
    ensures v < WORD
  {
    WordEven();
    if chainId.Some? then Wrap(chainId.value * 2 + 35 + if odd then 1 else 0)
    else if odd then 28 else 27
  }

  function FromV(v: nat): (r: (bool, Option<nat>))
  {
    if v == 27 || v == 28 then (v == 28, None)
    else
      var w := Wrap(v - 35);
      (w % 2 == 1, Some(w / 2))
  }

  /** The chain ids that survive: those below 2^255 save the one whose `v` wraps to 27 or 28. */
  predicate Signable(chainId: Option<nat>)
  {
    chainId.Some? ==> chainId.value < WORD / 2 && chainId.value != WORD / 2 - 4
  }

  lemma WordEven()
    ensures WORD % 2 == 0 && WORD >= 256
  {
    hide Pow256;
    PowEven(32);
  }

  lemma PowEven(k: nat)
    requires k > 0
    ensures Pow256(k) % 2 == 0 && Pow256(k) >= 256
  {
    var p := Pow256(k - 1);
    assert Pow256(k) == 256 * p == 2 * (128 * p);
  }

  lemma Wraps(x: int)
    requires 0 - WORD <= x < 3 * WORD
    ensures Wrap(x) == if x < 0 then x + WORD else if x < WORD then x else if x < 2 * WORD then x - WORD else x - 2 * WORD
  {
    var m := WORD;
    var q := if x < 0 then -1 else if x < m then 0 else if x < 2 * m then 1 else 2;
    Remainder(x, m, q);
  }

  lemma Multiple(d: int, m: nat)
    ensures d == 0 || d * m >= m || d * m <= 0 - m
  {
    if d > 0 { assert (d - 1) * m >= 0; }
    if d < 0 { assert (-1 - d) * m >= 0; }
  }

  lemma Remainder(x: int, m: nat, q: int)
    requires m > 0 && 0 <= x - q * m < m
    ensures x % m == x - q * m
  {
    var d := q - x / m;
    assert x == x / m * m + x % m;
    assert d * m == (q * m) - x / m * m;
    Multiple(d, m);
  }

  /** Parity and chain id are recovered from `v` exactly for the signable chain ids. */
  lemma VRoundTrip(odd: bool, chainId: Option<nat>)
    requires chainId.Some? ==> chainId.value < WORD
    ensures FromV(ToV(odd, chainId)) == (odd, chainId) <==> Signable(chainId)
  {
    hide Wrap, WORD;
    WordEven();
    if chainId.Some? {
      Wraps(chainId.value * 2 + 35 + if odd then 1 else 0);
      Wraps(ToV(odd, chainId) - 35);
    }
  }

  /** Every 256-bit `v`, also one that wraps around, is recovered from its parity and chain id. */
  lemma VInverse(v: nat)
    requires v < WORD
    ensures ToV(FromV(v).0, FromV(v).1) == v
    ensures Signable(FromV(v).1)
  {
    hide Wrap, WORD;
    WordEven();
    Wraps(v - 35);
    Wraps(Wrap(v - 35) + 35);
  }

  // --- access lists ---

  datatype AccessListEntry = AccessListEntry(account: Bytes20, storageKeys: seq<Bytes32>)

  const KEY: Field := Fixed(32)
  const ENTRY: Field := Record([Fixed(20), ListOf(KEY)])

  function KeyValues(keys: seq<Bytes32>): (vs: seq<Value>)
    ensures |vs| == |keys| && forall i | 0 <= i < |vs| :: vs[i] == Data(keys[i])
  {
    seq(|keys|, i requires 0 <= i < |keys| => Data(keys[i]))
  }

  function KeyOf(v: Value): (key: Bytes32)
    requires Typed(KEY, v)
    ensures v == Data(key)
  {
    assert KEY == Fixed(32);
    v.bytes
  }

  function KeysOf(vs: seq<Value>): (keys: seq<Bytes32>)
    requires forall i | 0 <= i < |vs| :: Typed(KEY, vs[i])
    ensures KeyValues(keys) == vs
  {
    seq(|vs|, i requires 0 <= i < |vs| => KeyOf(vs[i]))
  }

  function EntryValue(e: AccessListEntry): (v: Value)
    ensures Typed(ENTRY, v)
  {
    var v := Items([Data(e.account), Items(KeyValues(e.storageKeys))]);
    assert Typed(ListOf(KEY), v.items[1]);
    v
  }

  function EntryOf(v: Value): (e: AccessListEntry)
    requires Typed(ENTRY, v)
    ensures EntryValue(e) == v
  {
    assert Typed(Fixed(20), v.items[0]) && Typed(ListOf(KEY), v.items[1]);
    AccessListEntry(v.items[0].bytes, KeysOf(v.items[1].items))
  }

  function EntryValues(es: seq<AccessListEntry>): (vs: seq<Value>)
    ensures |vs| == |es| && forall i | 0 <= i < |vs| :: vs[i] == EntryValue(es[i])
    ensures Typed(ListOf(ENTRY), Items(vs))
  {
    seq(|es|, i requires 0 <= i < |es| => EntryValue(es[i]))
  }

  function EntriesOf(vs: seq<Value>): (es: seq<AccessListEntry>)
    requires forall i | 0 <= i < |vs| :: Typed(ENTRY, vs[i])
    ensures EntryValues(es) == vs
  {
    seq(|vs|, i requires 0 <= i < |vs| => EntryOf(vs[i]))
  }

  lemma EntryInjective(a: AccessListEntry, b: AccessListEntry)
    requires EntryValue(a) == EntryValue(b)
    ensures a == b
  {
    assert EntryValue(a).items[0] == EntryValue(b).items[0];
    assert EntryValue(a).items[1] == EntryValue(b).items[1];
    assert forall i | 0 <= i < |a.storageKeys| ::
      KeyValues(a.storageKeys)[i] == Data(a.storageKeys[i]) && KeyValues(b.storageKeys)[i] == Data(b.storageKeys[i]);
    assert a.storageKeys == b.storageKeys;
  }

  lemma EntriesInjective(a: seq<AccessListEntry>, b: seq<AccessListEntry>)
    requires EntryValues(a) == EntryValues(b)
    ensures a == b
  {
    forall i | 0 <= i < |a| ensures |a| == |b| && a[i] == b[i] {
      assert EntryValues(a)[i] == EntryValues(b)[i];
      EntryInjective(a[i], b[i]);
    }
    assert |a| == |EntryValues(a)| == |b|;
  }

  /** An access-list entry is decoded exactly from its encoding. */
  lemma EntryExact(from: Bytes, e: AccessListEntry, rest: Bytes)
    ensures DecodeField(ENTRY, from) == Success((EntryValue(e), rest)) <==>
            Fits(ENTRY, EntryValue(e)) && from == EncodeField(ENTRY, EntryValue(e)) + rest
    ensures FieldLength(ENTRY, EntryValue(e)) == |EncodeField(ENTRY, EntryValue(e))|
    ensures DecodeField(ENTRY, from).Success? ==> EntryValue(EntryOf(DecodeField(ENTRY, from).value.0)) == DecodeField(ENTRY, from).value.0
  {
    EntryProper();
    FieldExact(ENTRY, from, EntryValue(e), rest);
    FieldLengthExact(ENTRY, EntryValue(e));
  }

  lemma EntryProper()
    ensures Proper(KEY) && Proper(ENTRY)
  {
    WidthBound();
    assert Proper(Fixed(20)) && Proper(ListOf(KEY));
  }

  // --- transactions ---

  const EIP2930_TYPE: Byte := 1

  datatype Transaction = Transaction(
    typ: Option<Byte>, nonce: nat, gasPrice: nat, gasLimit: nat, to: Option<Bytes20>, value: nat, data: Bytes,
    oddYParity: bool, chainId: Option<nat>, r: nat, s: nat, accessList: seq<AccessListEntry>)

  const LEGACY_FIELDS: seq<Field> :=
    [Uint(8), Uint(32), Uint(8), Optional(20), Uint(32), Text, Uint(32), Uint(32), Uint(32)]

  const TYPED_FIELDS: seq<Field> :=
    [Uint(32), Uint(8), Uint(32), Uint(8), Optional(20), Uint(32), Text, ListOf(ENTRY), Flag, Uint(32), Uint(32)]

  function LegacyValues(t: Transaction): (vs: seq<Value>)
    ensures TypedAll(LEGACY_FIELDS, vs)
  {
    [Num(t.nonce), Num(t.gasPrice), Num(t.gasLimit), Maybe(t.to), Num(t.value), Data(t.data),
     Num(ToV(t.oddYParity, t.chainId)), Num(t.r), Num(t.s)]
  }

  function TypedValues(t: Transaction): (vs: seq<Value>)
    ensures TypedAll(TYPED_FIELDS, vs)
  {
    [Num(if t.chainId.Some? then t.chainId.value else 0),
     Num(t.nonce), Num(t.gasPrice), Num(t.gasLimit), Maybe(t.to), Num(t.value), Data(t.data),
     Items(EntryValues(t.accessList)), Bit(t.oddYParity), Num(t.r), Num(t.s)]
  }

  function AddressOf(v: Value): (a: Option<Bytes20>)
    requires Typed(Optional(20), v)
    ensures Maybe(a) == v
  {
    if v.opt.Some? then Some(v.opt.value) else None
  }

  function LegacyOf(vs: seq<Value>): (t: Transaction)
    requires TypedAll(LEGACY_FIELDS, vs)
  {
    LegacyTypes(vs);
    var (odd, chainId) := FromV(vs[6].n);
    Transaction(None, vs[0].n, vs[1].n, vs[2].n, AddressOf(vs[3]), vs[4].n, vs[5].bytes, odd, chainId, vs[7].n, vs[8].n, [])
  }

  function TypedOf(vs: seq<Value>): (t: Transaction)
    requires TypedAll(TYPED_FIELDS, vs)
    ensures TypedValues(t) == vs
  {
    TypedTypes(vs);
    Transaction(Some(EIP2930_TYPE), vs[1].n, vs[2].n, vs[3].n, AddressOf(vs[4]), vs[5].n, vs[6].bytes,
      vs[8].b, Some(vs[0].n), vs[9].n, vs[10].n, EntriesOf(vs[7].items))
  }

  lemma LegacyTypes(vs: seq<Value>)
    requires TypedAll(LEGACY_FIELDS, vs)
    ensures |vs| == 9
    ensures forall i | i in {0, 1, 2, 4, 6, 7, 8} :: vs[i].Num?
    ensures Typed(Optional(20), vs[3])
    ensures vs[5].Data?
  {
    forall i | 0 <= i < 9 ensures Typed(LEGACY_FIELDS[i], vs[i]) {}
  }

  lemma TypedTypes(vs: seq<Value>)
    requires TypedAll(TYPED_FIELDS, vs)
    ensures |vs| == 11
    ensures forall i | i in {0, 1, 2, 3, 5, 9, 10} :: vs[i].Num?
    ensures Typed(Optional(20), vs[4])
    ensures vs[6].Data? && vs[8].Bit?
    ensures vs[7].Items? && forall i | 0 <= i < |vs[7].items| :: Typed(ENTRY, vs[7].items[i])
  {
    forall i | 0 <= i < 11 ensures Typed(TYPED_FIELDS[i], vs[i]) {}
  }

  /** Only these types are supported. */
  predicate Supported(t: Transaction)
  {
    t.typ.None? || t.typ == Some(EIP2930_TYPE)
  }

  function PayloadLength(t: Transaction): (n: nat)
  {
    if t.typ.Some? then FieldsLength(TYPED_FIELDS, TypedValues(t)) else FieldsLength(LEGACY_FIELDS, LegacyValues(t))
  }

  function ListLength(t: Transaction): (n: nat)
  {
    LengthOfLength(PayloadLength(t)) + PayloadLength(t)
  }

  /** `length`, which counts the byte string that wraps a typed transaction. */
  function TransactionLength(t: Transaction): (n: nat)
  {
    if t.typ.Some? then LengthOfLength(ListLength(t) + 1) + ListLength(t) + 1 else ListLength(t)
  }

  /** `encode` with the signature, a typed transaction wrapped into a byte string. */
  function EncodeTransaction(t: Transaction): (r: Bytes)
    requires Supported(t)
  {
    if t.typ.Some? then
      EncodeHeader(false, ListLength(t) + 1) + [EIP2930_TYPE] + EncodeHeader(true, PayloadLength(t)) +
      EncodeFields(TYPED_FIELDS, TypedValues(t))
    else
      EncodeHeader(true, PayloadLength(t)) + EncodeFields(LEGACY_FIELDS, LegacyValues(t))
  }

  /** The list inside a typed transaction; its stated length is not compared with its content. */
  function DecodeInner(from: Bytes): (r: Decoded<Transaction>)
  {
    var (h, view) :- DecodeHeader(from);
    if !h.list then Failure(UnexpectedString)
    else
      var (vs, rest) :- DecodeFields(TYPED_FIELDS, view);
      Success((TypedOf(vs), rest))
  }

  function DecodeTransaction(from: Bytes): (r: Decoded<Transaction>)
  {
    var (h, view) :- DecodeHeader(from);
    if h.list then
      var leftover := |view| - h.payloadLength;
      var (vs, rest) :- DecodeFields(LEGACY_FIELDS, view);
      if |rest| == leftover then Success((LegacyOf(vs), rest)) else Failure(ListLengthMismatch)
    else if h.payloadLength == 0 then Failure(InputTooShort)
    else if view[0] != EIP2930_TYPE then Failure(UnsupportedEip2718Type)
    else
      var (t, rest) :- DecodeInner(view[1..h.payloadLength]);
      if rest != [] then Failure(ListLengthMismatch) else Success((t, view[h.payloadLength..]))
  }

  lemma FieldsProper()
    ensures forall g <- LEGACY_FIELDS :: Proper(g)
    ensures forall g <- TYPED_FIELDS :: Proper(g)
  {
    EntryProper();
  }

  /** The encoded size is the computed one. */
  lemma TransactionLengthExact(t: Transaction)
    requires Supported(t)
    ensures TransactionLength(t) == |EncodeTransaction(t)|
    ensures PayloadLength(t) ==
      if t.typ.Some? then |EncodeFields(TYPED_FIELDS, TypedValues(t))| else |EncodeFields(LEGACY_FIELDS, LegacyValues(t))|
    ensures ListLength(t) == |EncodeHeader(true, PayloadLength(t))| + PayloadLength(t)
  {
    hide EncodeFields, FieldsLength, EncodeHeader, LengthOfLength, Proper;
    FieldsProper();
    if t.typ.Some? {
      FieldsLengthExact(TYPED_FIELDS, TypedValues(t));
    } else {
      FieldsLengthExact(LEGACY_FIELDS, LegacyValues(t));
    }
    LengthsExact([], true, PayloadLength(t));
    LengthsExact([], false, ListLength(t) + 1);
  }

  /** The widths of the fields common to both types. */
  ghost predicate Widths(t: Transaction)
  {
    && t.nonce < Pow256(8) && t.gasPrice < WORD && t.gasLimit < Pow256(8) && t.value < WORD
    && (t.chainId.Some? ==> t.chainId.value < WORD) && t.r < WORD && t.s < WORD
    && |t.data| < Pow256(8)
  }

  ghost predicate FitsAll(fs: seq<Field>, vs: seq<Value>)
    requires TypedAll(fs, vs)
  {
    forall i | 0 <= i < |fs| :: Fits(fs[i], vs[i])
  }

  lemma FieldsExact(fs: seq<Field>, from: Bytes, vs: seq<Value>, rest: Bytes)
    requires forall g <- fs :: Proper(g)
    ensures DecodeFields(fs, from) == Success((vs, rest)) <==>
            TypedAll(fs, vs) && FitsAll(fs, vs) && from == EncodeFields(fs, vs) + rest
  {
    hide DecodeFields, EncodeFields, Typed, Fits, Proper;
    if DecodeFields(fs, from) == Success((vs, rest)) {
      FieldsCanonical(fs, from, vs, rest);
    }
    if TypedAll(fs, vs) && FitsAll(fs, vs) && from == EncodeFields(fs, vs) + rest {
      FieldsRoundTrip(fs, vs, rest);
    }
  }

  lemma FitsOther(d: Bytes, o: Option<Bytes20>, b: bool)
    ensures Fits(Text, Data(d)) <==> |d| < Pow256(8)
    ensures Fits(Optional(20), Maybe(o)) && Fits(Flag, Bit(b))
  {
  }

  lemma LegacyWidths(t: Transaction)
    requires t.chainId.Some? ==> t.chainId.value < WORD
    ensures FitsAll(LEGACY_FIELDS, LegacyValues(t)) <==> Widths(t)
  {
    hide Pow256, ToV, Fits, Typed;
    var fs, vs := LEGACY_FIELDS, LegacyValues(t);
    FitsUint(8, t.nonce);
    FitsUint(32, t.gasPrice);
    FitsUint(8, t.gasLimit);
    FitsUint(32, t.value);
    FitsUint(32, ToV(t.oddYParity, t.chainId));
    FitsUint(32, t.r);
    FitsUint(32, t.s);
    FitsOther(t.data, t.to, t.oddYParity);
    assert FitsAll(fs, vs) <==>
      && Fits(fs[0], vs[0]) && Fits(fs[1], vs[1]) && Fits(fs[2], vs[2]) && Fits(fs[3], vs[3]) && Fits(fs[4], vs[4])
      && Fits(fs[5], vs[5]) && Fits(fs[6], vs[6]) && Fits(fs[7], vs[7]) && Fits(fs[8], vs[8]);
  }

  lemma TypedWidths(t: Transaction)
    requires t.chainId.Some?
    ensures FitsAll(TYPED_FIELDS, TypedValues(t)) <==>
            Widths(t) && Fits(ListOf(ENTRY), Items(EntryValues(t.accessList)))
  {
    hide Pow256, EntryValue, EntryValues, Fits, Typed;
    var fs, vs := TYPED_FIELDS, TypedValues(t);
    FitsUint(32, t.chainId.value);
    FitsUint(8, t.nonce);
    FitsUint(32, t.gasPrice);
    FitsUint(8, t.gasLimit);
    FitsUint(32, t.value);
    FitsUint(32, t.r);
    FitsUint(32, t.s);
    FitsOther(t.data, t.to, t.oddYParity);
    assert FitsAll(fs, vs) <==>
      && Fits(fs[0], vs[0]) && Fits(fs[1], vs[1]) && Fits(fs[2], vs[2]) && Fits(fs[3], vs[3]) && Fits(fs[4], vs[4])
      && Fits(fs[5], vs[5]) && Fits(fs[6], vs[6]) && Fits(fs[7], vs[7]) && Fits(fs[8], vs[8]) && Fits(fs[9], vs[9])
      && Fits(fs[10], vs[10]);
  }

  lemma LegacyInverse(t: Transaction, vs: seq<Value>)
    requires TypedAll(LEGACY_FIELDS, vs) && vs[6].n < WORD
    requires t.chainId.Some? ==> t.chainId.value < WORD
    ensures LegacyOf(vs) == t <==>
      vs == LegacyValues(t) && t.typ.None? && t.accessList == [] && Signable(t.chainId)
    ensures LegacyOf(vs).chainId.Some? ==> LegacyOf(vs).chainId.value < WORD
  {
    hide ToV, FromV;
    LegacyTypes(vs);
    VInverse(vs[6].n);
    VRoundTrip(t.oddYParity, t.chainId);
    if LegacyOf(vs) == t {
      assert vs == LegacyValues(t);
    }
  }

  lemma TypedInverse(t: Transaction, vs: seq<Value>)
    requires TypedAll(TYPED_FIELDS, vs)
    ensures TypedOf(vs) == t <==> vs == TypedValues(t) && t.typ == Some(EIP2930_TYPE) && t.chainId.Some?
  {
    hide EntryValue, EntryValues, EntriesOf;
    TypedTypes(vs);
    if vs == TypedValues(t) && t.typ == Some(EIP2930_TYPE) && t.chainId.Some? {
      var u := TypedOf(vs);
      assert TypedValues(u)[7] == TypedValues(t)[7];
      EntriesInjective(u.accessList, t.accessList);
      assert Maybe(u.to) == vs[4] == Maybe(t.to);
    }
  }

  // --- legacy transactions ---

  ghost predicate LegacyFits(t: Transaction)
  {
    Widths(t) && PayloadLength(t) < Pow256(8)
  }

  lemma LegacyRoundTrip(t: Transaction, rest: Bytes)
    requires t.typ.None? && t.accessList == [] && Signable(t.chainId) && LegacyFits(t)
    ensures DecodeTransaction(EncodeTransaction(t) + rest) == Success((t, rest))
  {
    hide Pow256, DecodeHeader, EncodeHeader, DecodeFields, EncodeFields, Signable, LegacyValues, LegacyOf, FieldsLength, Typed, Fits, Proper;
    FieldsProper();
    TransactionLengthExact(t);
    var payload := EncodeFields(LEGACY_FIELDS, LegacyValues(t));
    LegacyWidths(t);
    FieldsExact(LEGACY_FIELDS, payload + rest, LegacyValues(t), rest);
    ListHeaderExact(EncodeTransaction(t) + rest, payload, rest);
    LegacyV(t);
    LegacyInverse(t, LegacyValues(t));
  }

  lemma LegacyV(t: Transaction)
    ensures LegacyValues(t)[6].n < WORD
  {
  }

  lemma LegacyCanonical(from: Bytes, t: Transaction, rest: Bytes)
    requires DecodeTransaction(from) == Success((t, rest)) && t.typ.None?
    ensures t.accessList == [] && Signable(t.chainId) && LegacyFits(t) && from == EncodeTransaction(t) + rest
  {
    hide Pow256, DecodeHeader, EncodeHeader, DecodeFields, EncodeFields, Signable, LegacyValues, LegacyOf, TypedOf,
      FieldsLength, Typed, Fits, Proper;
    FieldsProper();
    var (h, view) := DecodeHeader(from).value;
    DecodeHeaderExact(from, h, view);
    LegacyIsList(from, t, rest);
    var vs := DecodeFields(LEGACY_FIELDS, view).value.0;
    Pairing(DecodeFields(LEGACY_FIELDS, view));
    FieldsExact(LEGACY_FIELDS, view, vs, rest);
    DecodedV(vs);
    LegacyChain(vs);
    LegacyInverse(t, vs);
    LegacyWidths(t);
    TransactionLengthExact(t);
    var payload := EncodeFields(LEGACY_FIELDS, vs);
    ListHeaderExact(from, payload, rest);
  }

  lemma LegacyIsList(from: Bytes, t: Transaction, rest: Bytes)
    requires DecodeTransaction(from) == Success((t, rest))
    ensures t.typ.None? <==> DecodeHeader(from).value.0.list
    ensures t.typ.None? || t.typ == Some(EIP2930_TYPE)
  {
  }

  lemma DecodedV(vs: seq<Value>)
    requires TypedAll(LEGACY_FIELDS, vs) && FitsAll(LEGACY_FIELDS, vs)
    ensures vs[6].Num? && vs[6].n < WORD
  {
    LegacyTypes(vs);
    assert Fits(LEGACY_FIELDS[6], vs[6]);
    FitsUint(32, vs[6].n);
  }

  lemma LegacyChain(vs: seq<Value>)
    requires TypedAll(LEGACY_FIELDS, vs) && vs[6].n < WORD
    ensures LegacyOf(vs).chainId.Some? ==> LegacyOf(vs).chainId.value < WORD
  {
    LegacyTypes(vs);
    VInverse(vs[6].n);
  }

  /** Legacy transactions are decoded exactly from their encodings: those of a signable chain id
      and an empty access list survive, and nothing but an encoding is accepted. */
  lemma LegacyExact(from: Bytes, t: Transaction, rest: Bytes)
    requires t.typ.None?
    ensures DecodeTransaction(from) == Success((t, rest)) <==>
      t.accessList == [] && Signable(t.chainId) && LegacyFits(t) && from == EncodeTransaction(t) + rest
  {
    hide DecodeTransaction, EncodeTransaction, LegacyFits, Signable;
    if DecodeTransaction(from) == Success((t, rest)) {
      LegacyCanonical(from, t, rest);
    }
    if t.accessList == [] && Signable(t.chainId) && LegacyFits(t) && from == EncodeTransaction(t) + rest {
      LegacyRoundTrip(t, rest);
    }
  }

  // --- EIP-2930 transactions ---

  function TypedPayload(t: Transaction): (r: Bytes)
  {
    EncodeFields(TYPED_FIELDS, TypedValues(t))
  }

  /** The inside of the wrapping byte string, the list header stating the length `m`. */
  function TypedBody(t: Transaction, m: nat): (r: Bytes)
  {
    [EIP2930_TYPE] + EncodeHeader(true, m) + TypedPayload(t)
  }

  ghost predicate TypedFits(t: Transaction)
  {
    Widths(t) && Fits(ListOf(ENTRY), Items(EntryValues(t.accessList)))
  }

  /** The list header inside a typed transaction may state any length up to the true one. */
  ghost predicate Stated(t: Transaction, m: nat)
  {
    m <= |TypedPayload(t)| && m < Pow256(8) && |TypedBody(t, m)| < Pow256(8)
  }

  lemma InnerExact(t: Transaction, m: nat, from: Bytes)
    requires t.typ == Some(EIP2930_TYPE) && t.chainId.Some?
    ensures DecodeInner(from) == Success((t, [])) && DecodeHeader(from).value.0.payloadLength == m <==>
      TypedFits(t) && m <= |TypedPayload(t)| && m < Pow256(8) && from == EncodeHeader(true, m) + TypedPayload(t)
  {
    hide Pow256, DecodeHeader, EncodeHeader, DecodeFields, EncodeFields, TypedValues, TypedOf, Typed, Fits, Proper;
    FieldsProper();
    TypedWidths(t);
    var payload := TypedPayload(t);
    DecodeHeaderExact(from, Header(true, m), payload);
    FieldsExact(TYPED_FIELDS, payload, TypedValues(t), []);
    TypedInverse(t, TypedValues(t));
    assert payload + [] == payload;
    if DecodeInner(from) == Success((t, [])) {
      var view := DecodeHeader(from).value.1;
      var vs := DecodeFields(TYPED_FIELDS, view).value.0;
      Pairing(DecodeHeader(from));
      Pairing(DecodeFields(TYPED_FIELDS, view));
      TypedInverse(t, vs);
      FieldsExact(TYPED_FIELDS, view, vs, []);
      assert view == payload;
    }
  }

  /** The accepted forms of a typed transaction are its encodings with the inner list header
      stating any length up to the true one. */
  lemma TypedExact(from: Bytes, t: Transaction, rest: Bytes)
    requires t.typ.Some?
    ensures DecodeTransaction(from) == Success((t, rest)) <==>
      && t.typ == Some(EIP2930_TYPE) && t.chainId.Some? && TypedFits(t)
      && exists m :: Stated(t, m) && from == EncodeString(TypedBody(t, m)) + rest
  {
    hide DecodeTransaction, TypedFits, Stated, EncodeString;
    if DecodeTransaction(from) == Success((t, rest)) {
      var m := TypedCanonical(from, t, rest);
    }
    if t.typ == Some(EIP2930_TYPE) && t.chainId.Some? && TypedFits(t) {
      forall m | Stated(t, m) && from == EncodeString(TypedBody(t, m)) + rest
        ensures DecodeTransaction(from) == Success((t, rest))
      {
        TypedAccepted(t, m, rest);
      }
    }
  }

  lemma TypedAccepted(t: Transaction, m: nat, rest: Bytes)
    requires t.typ == Some(EIP2930_TYPE) && t.chainId.Some? && TypedFits(t) && Stated(t, m)
    ensures DecodeTransaction(EncodeString(TypedBody(t, m)) + rest) == Success((t, rest))
  {
    hide Pow256, DecodeHeader, EncodeHeader, DecodeInner, TypedPayload, DecodeFields;
    var body := TypedBody(t, m);
    var from := EncodeString(body) + rest;
    var inner := EncodeHeader(true, m) + TypedPayload(t);
    HeaderLonger(m);
    assert body == [EIP2930_TYPE] + inner;
    DecodeHeaderExact(from, Header(false, |body|), body + rest);
    assert from == EncodeHeader(false, |body|) + (body + rest);
    assert (body + rest)[1..|body|] == inner && (body + rest)[|body|..] == rest;
    InnerExact(t, m, inner);
  }

  lemma HeaderLonger(m: nat)
    ensures |EncodeHeader(true, m)| >= 1
  {
  }

  lemma TypedCanonical(from: Bytes, t: Transaction, rest: Bytes) returns (m: nat)
    requires DecodeTransaction(from) == Success((t, rest)) && t.typ.Some?
    ensures t.typ == Some(EIP2930_TYPE) && t.chainId.Some? && TypedFits(t) && Stated(t, m)
    ensures from == EncodeString(TypedBody(t, m)) + rest
  {
    hide Pow256, DecodeHeader, EncodeHeader, TypedPayload, DecodeFields, TypedOf, LegacyOf;
    LegacyIsList(from, t, rest);
    var (h, view) := DecodeHeader(from).value;
    DecodeHeaderExact(from, h, view);
    var inner := view[1..h.payloadLength];
    Pairing(DecodeInner(inner));
    InnerChain(inner);
    m := DecodeHeader(inner).value.0.payloadLength;
    InnerExact(t, m, inner);
    HeaderLonger(m);
    var body := TypedBody(t, m);
    assert body == [EIP2930_TYPE] + inner == view[..h.payloadLength];
    assert view == body + rest;
  }

  lemma InnerChain(from: Bytes)
    requires DecodeInner(from).Success?
    ensures DecodeInner(from).value.0.chainId.Some?
    ensures DecodeInner(from).value.0.typ == Some(EIP2930_TYPE)
    ensures DecodeHeader(from).Success?
  {
    hide DecodeHeader, DecodeFields;
  }

  /** `encode` states the true length, so every supported transaction survives. */
  lemma TypedRoundTrip(t: Transaction, rest: Bytes)
    requires t.typ == Some(EIP2930_TYPE) && t.chainId.Some? && TypedFits(t) && ListLength(t) + 1 < Pow256(8)
    ensures EncodeTransaction(t) == EncodeString(TypedBody(t, PayloadLength(t)))
    ensures DecodeTransaction(EncodeTransaction(t) + rest) == Success((t, rest))
  {
    hide Pow256, EncodeHeader, DecodeTransaction, EncodeFields, FieldsLength, LengthOfLength, TypedFits;
    TransactionLengthExact(t);
    var m := PayloadLength(t);
    HeaderLonger(m);
    assert EncodeTransaction(t) == EncodeHeader(false, |TypedBody(t, m)|) + TypedBody(t, m);
    TypedAccepted(t, m, rest);
  }

  /** Since the inner length is not compared, no typed transaction has a single accepted form. */
  lemma TypedFormsDiffer(t: Transaction)
    requires t.typ == Some(EIP2930_TYPE) && t.chainId.Some? && TypedFits(t) && ListLength(t) + 1 < Pow256(8)
    ensures DecodeTransaction(EncodeString(TypedBody(t, 0))) == Success((t, []))
    ensures EncodeString(TypedBody(t, 0)) != EncodeTransaction(t)
  {
    hide Pow256, EncodeHeader, DecodeTransaction, EncodeFields, FieldsLength, LengthOfLength, TypedFits, EncodeString, EncodeTransaction;
    TransactionLengthExact(t);
    TypedRoundTrip(t, []);
    var m := PayloadLength(t);
    PayloadPositive(t);
    HeadersDiffer(m);
    TypedAccepted(t, 0, []);
    var a, b := TypedBody(t, 0), TypedBody(t, m);
    assert a[1] == EncodeHeader(true, 0)[0] && b[1] == EncodeHeader(true, m)[0];
    DecodeStringExact(EncodeString(a), a, []);
    DecodeStringExact(EncodeString(a), b, []);
    assert EncodeString(a) + [] == EncodeString(a) && EncodeString(b) + [] == EncodeString(b);
  }

  lemma PayloadPositive(t: Transaction)
    requires t.typ.Some?
    ensures PayloadLength(t) > 0
  {
    var fs, vs := TYPED_FIELDS, TypedValues(t);
    assert FieldsLength(fs, vs) >= FieldLength(fs[0], vs[0]) >= 1;
  }

  lemma HeadersDiffer(m: nat)
    requires 0 < m < Pow256(8)
    ensures 1 == |EncodeHeader(true, 0)| <= |EncodeHeader(true, m)|
    ensures EncodeHeader(true, 0)[0] != EncodeHeader(true, m)[0]
  {
    BigEndianBound(m, 8);
  }

  // --- the bytes, field by field ---

  /** EIP-155: without a chain id `v` is 27 or 28, with one it is `35 + 2 * chainId`, plus the parity. */
  lemma VForms(odd: bool, chainId: Option<nat>)
    ensures chainId.None? ==> ToV(odd, chainId) == 27 + if odd then 1 else 0
    ensures chainId.Some? && 2 * chainId.value + 36 < WORD ==>
      ToV(odd, chainId) == 35 + 2 * chainId.value + if odd then 1 else 0
  {
    hide Wrap, WORD;
    if chainId.Some? && 2 * chainId.value + 36 < WORD { Wraps(chainId.value * 2 + 35 + if odd then 1 else 0); }
  }

  function KeyParts(keys: seq<Bytes32>): (parts: seq<Bytes>)
    ensures |parts| == |keys| && forall i | 0 <= i < |parts| :: parts[i] == EncodeString(keys[i])
  {
    seq(|keys|, i requires 0 <= i < |keys| => EncodeString(keys[i]))
  }

  /** EIP-2930: an address and the list of its storage keys. */
  function EntryBytes(e: AccessListEntry): (s: Bytes)
  {
    EncodeList(EncodeString(e.account) + EncodeList(Concat(KeyParts(e.storageKeys))))
  }

  function EntryParts(es: seq<AccessListEntry>): (parts: seq<Bytes>)
    ensures |parts| == |es| && forall i | 0 <= i < |parts| :: parts[i] == EntryBytes(es[i])
  {
    seq(|es|, i requires 0 <= i < |es| => EntryBytes(es[i]))
  }

  lemma KeysAre(keys: seq<Bytes32>)
    ensures Typed(ListOf(KEY), Items(KeyValues(keys)))
    ensures EncodeField(ListOf(KEY), Items(KeyValues(keys))) == EncodeList(Concat(KeyParts(keys)))
  {
    hide EncodeString, EncodeList, Concat;
    EntryProper();
    forall i | 0 <= i < |keys|
      ensures Typed(KEY, KeyValues(keys)[i]) && EncodeField(KEY, KeyValues(keys)[i]) == KeyParts(keys)[i]
    {
      ArrayIs(32, keys[i]);
    }
    ListIs(KEY, KeyValues(keys), KeyParts(keys));
  }

  lemma ConcatTwo(x: Bytes, y: Bytes)
    ensures Concat([x, y]) == x + y
  {
    assert [x, y][1..] == [y] && [y][1..] == [] && Concat([]) == [];
    assert Concat([y]) == y + [] == y;
  }

  lemma EntryIs(e: AccessListEntry)
    ensures EncodeField(ENTRY, EntryValue(e)) == EntryBytes(e)
  {
    hide EncodeFields, FieldsLength, EncodeString, EncodeHeader, EncodeList, Concat, Proper;
    EntryProper();
    KeysAre(e.storageKeys);
    ArrayIs(20, e.account);
    var fs, parts := [Fixed(20), ListOf(KEY)], [EncodeString(e.account), EncodeList(Concat(KeyParts(e.storageKeys)))];
    RecordIs(fs, EntryValue(e).items, parts);
    ConcatTwo(parts[0], parts[1]);
  }

  lemma EntriesAre(es: seq<AccessListEntry>)
    ensures EncodeField(ListOf(ENTRY), Items(EntryValues(es))) == EncodeList(Concat(EntryParts(es)))
  {
    hide EncodeString, EncodeList, EncodeField, Concat, EntryValue, EntryBytes, Proper;
    EntryProper();
    forall i | 0 <= i < |es|
      ensures Typed(ENTRY, EntryValues(es)[i]) && EncodeField(ENTRY, EntryValues(es)[i]) == EntryParts(es)[i]
    {
      EntryIs(es[i]);
    }
    ListIs(ENTRY, EntryValues(es), EntryParts(es));
  }

  /** The address called, or the empty string for a creation. */
  function ToBytes(to: Option<Bytes20>): (s: Bytes)
  {
    EncodeString(if to.Some? then to.value else [])
  }

  function LegacyParts(t: Transaction): (parts: seq<Bytes>)
  {
    [EncodeUint(t.nonce), EncodeUint(t.gasPrice), EncodeUint(t.gasLimit), ToBytes(t.to), EncodeUint(t.value),
     EncodeString(t.data), EncodeUint(ToV(t.oddYParity, t.chainId)), EncodeUint(t.r), EncodeUint(t.s)]
  }

  function TypedParts(t: Transaction): (parts: seq<Bytes>)
  {
    [EncodeUint(if t.chainId.Some? then t.chainId.value else 0),
     EncodeUint(t.nonce), EncodeUint(t.gasPrice), EncodeUint(t.gasLimit), ToBytes(t.to), EncodeUint(t.value),
     EncodeString(t.data), EncodeList(Concat(EntryParts(t.accessList))),
     EncodeUint(if t.oddYParity then 1 else 0), EncodeUint(t.r), EncodeUint(t.s)]
  }

  lemma ToIs(to: Option<Bytes20>)
    ensures EncodeOptional(to) == ToBytes(to)
  {
  }

  /** A legacy transaction is the list of its nine fields. */
  lemma LegacyBytes(t: Transaction)
    requires t.typ.None?
    ensures EncodeTransaction(t) == EncodeList(Concat(LegacyParts(t)))
  {
    hide EncodeFields, FieldsLength, EncodeString, EncodeUint, EncodeOptional, ToBytes, EncodeHeader, EncodeList, Concat, Proper, ToV;
    FieldsProper();
    ToIs(t.to);
    RecordIs(LEGACY_FIELDS, LegacyValues(t), LegacyParts(t));
  }

  /** A typed transaction is the byte string of a one and the list of its eleven fields. */
  lemma TypedBytes(t: Transaction)
    requires t.typ == Some(EIP2930_TYPE)
    ensures EncodeTransaction(t) == EncodeString([1] + EncodeList(Concat(TypedParts(t))))
  {
    hide EncodeFields, FieldsLength, LengthOfLength, EncodeUint, EncodeOptional, ToBytes, EncodeHeader, Concat, Proper, EntryParts, EntryValues;
    FieldsProper();
    ToIs(t.to);
    EntriesAre(t.accessList);
    TypedPartsAre(t);
    RecordIs(TYPED_FIELDS, TypedValues(t), TypedParts(t));
    TransactionLengthExact(t);
    HeaderLonger(PayloadLength(t));
    var inner := EncodeList(Concat(TypedParts(t)));
    assert [EIP2930_TYPE] + EncodeHeader(true, PayloadLength(t)) + EncodeFields(TYPED_FIELDS, TypedValues(t)) == [1] + inner;
  }

  lemma TypedPartsAre(t: Transaction)
    ensures forall i | 0 <= i < 11 :: EncodeField(TYPED_FIELDS[i], TypedValues(t)[i]) == TypedParts(t)[i]
  {
    hide EncodeString, EncodeUint, EncodeOptional, ToBytes, EncodeList, Concat, EntryParts, EntryValues;
    ToIs(t.to);
    EntriesAre(t.accessList);
  }

  /** A byte string that does not begin with the type 1 is no transaction, whatever follows. */
  lemma TypeRefused(s: Bytes, rest: Bytes)
    requires |s| < Pow256(8)
    ensures var r := DecodeTransaction(EncodeString(s) + rest);
      && (s == [] ==> r == Failure(InputTooShort))
      && (s != [] && s[0] != 1 ==> r == Failure(UnsupportedEip2718Type))
  {
    hide Pow256, DecodeHeader, EncodeHeader, DecodeInner, DecodeFields;
    RlpItems.ItemHeader(false, s, rest);
  }
}
