/** Vectors (core/silkworm/rlp/{encode,decode}.hpp) and block headers (core/silkworm/types/block.cpp). */
module Codecs {
  import opened Basics
  import opened Rlp
  import opened RlpDecode
  import opened RlpSchema

  // --- vectors ---

  method EncodeVector(to: Bytes, g: Field, vs: seq<Value>) returns (out: Bytes)
    requires forall i | 0 <= i < |vs| :: Typed(g, vs[i])
    ensures out == to + EncodeField(ListOf(g), Items(vs))
  {
    hide EncodeField, FieldLength, EncodeHeader, Typed;
    var payloadLength := 0;
    for i := 0 to |vs|
      invariant payloadLength + ItemsLength(g, vs[i..]) == ItemsLength(g, vs)
    {
      assert vs[i..][1..] == vs[i + 1..];
      payloadLength := payloadLength + FieldLength(g, vs[i]);
    }
    assert payloadLength == ItemsLength(g, vs);
    out := to + EncodeHeader(true, payloadLength);
    for i := 0 to |vs|
      invariant out + EncodeItems(g, vs[i..]) == to + EncodeHeader(true, payloadLength) + EncodeItems(g, vs)
    {
      assert vs[i..][1..] == vs[i + 1..];
      assert EncodeItems(g, vs[i..]) == EncodeField(g, vs[i]) + EncodeItems(g, vs[i + 1..]);
      out := out + EncodeField(g, vs[i]);
    }
    assert out == out + EncodeItems(g, vs[|vs|..]);
    ListEncoding(g, vs);
  }

  lemma ListEncoding(g: Field, vs: seq<Value>)
    requires forall i | 0 <= i < |vs| :: Typed(g, vs[i])
    ensures Typed(ListOf(g), Items(vs))
    ensures EncodeField(ListOf(g), Items(vs)) == EncodeHeader(true, ItemsLength(g, vs)) + EncodeItems(g, vs)
  {
  }

  /** `decode_vector`; on success the items and the view past the list. */
  method DecodeVector(g: Field, from: Bytes) returns (r: Decoded<Value>)
    ensures r == DecodeField(ListOf(g), from)
  {
    hide DecodeHeader, Typed, DecodeItems, Prepend;
    var header := DecodeHeader(from);
    if header.Failure? { return Failure(header.error); }
    var (h, view) := header.value;
    if !h.list { return Failure(UnexpectedString); }
    var items := [];
    var payload := view[..h.payloadLength];
    ghost var all := DecodeItems(g, payload);
    PrependNothing(all);
    while payload != []
      invariant all == Prepend(items, DecodeItems(g, payload))
      decreases |payload|
    {
      PrependNext(g, items, payload);
      var d := DecodeField(g, payload);
      if d.Failure? {
        return Failure(d.error);
      }
      items := items + [d.value.0];
      payload := d.value.1;
    }
    PrependLast(g, items);
    r := Success((Items(items), view[h.payloadLength..]));
  }

  lemma PrependNext(g: Field, items: seq<Value>, payload: Bytes)
    requires payload != []
    ensures var d := DecodeField(g, payload);
      Prepend(items, DecodeItems(g, payload)) ==
      if d.Failure? then Failure(d.error) else Prepend(items + [d.value.0], DecodeItems(g, d.value.1))
  {
    hide DecodeField, Typed;
    var d := DecodeField(g, payload);
    if d.Success? && DecodeItems(g, d.value.1).Success? {
      var later := DecodeItems(g, d.value.1).value;
      assert items + ([d.value.0] + later) == items + [d.value.0] + later;
    }
  }

  lemma PrependLast(g: Field, items: seq<Value>)
    ensures Prepend(items, DecodeItems(g, [])) == Success(items)
  {
    assert items + [] == items;
  }

  lemma PrependNothing(d: Result<seq<Value>>)
    ensures Prepend([], d) == d
  {
    if d.Success? { assert [] + d.value == d.value; }
  }

  function Prepend(vs: seq<Value>, d: Result<seq<Value>>): (r: Result<seq<Value>>)
  {
    var tail :- d;
    Success(vs + tail)
  }

  /** Width in bytes against magnitude. */
  lemma WidthExact(n: nat, k: nat)
    ensures |BigEndian(n)| <= k <==> n < Pow256(k)
  {
    if |BigEndian(n)| <= k {
      BigEndianInverse(n);
      FromBigEndianInverse(BigEndian(n));
      Pow256Monotone(|BigEndian(n)|, k);
    } 
    if n < Pow256(k) {
      BigEndianBound(n, k);
    }
  }

  lemma FitsUint(k: nat, n: nat)
    ensures Fits(Uint(k), Num(n)) <==> n < Pow256(k)
  {
    WidthExact(n, k);
  }

  // --- block headers ---

  type Bytes256 = s: Bytes | |s| == 256 witness seq(256, _ => 0)
  type Bytes8 = s: Bytes | |s| == 8 witness seq(8, _ => 0)

  datatype BlockHeader = BlockHeader(
    parentHash: Bytes32, ommersHash: Bytes32, beneficiary: Bytes20,
    stateRoot: Bytes32, transactionsRoot: Bytes32, receiptsRoot: Bytes32, logsBloom: Bytes256,
    difficulty: nat, number: nat, gasLimit: nat, gasUsed: nat, timestamp: nat,
    extraData: Bytes, mixHash: Bytes32, nonce: Bytes8)

  const HEADER_FIELDS: seq<Field> :=
    [Fixed(32), Fixed(32), Fixed(20), Fixed(32), Fixed(32), Fixed(32), Fixed(256),
     Uint(32), Uint(8), Uint(8), Uint(8), Uint(8), Text, Fixed(32), Fixed(8)]

  function HeaderValues(h: BlockHeader): (vs: seq<Value>)
    ensures TypedAll(HEADER_FIELDS, vs)
  {
    [Data(h.parentHash), Data(h.ommersHash), Data(h.beneficiary),
     Data(h.stateRoot), Data(h.transactionsRoot), Data(h.receiptsRoot), Data(h.logsBloom),
     Num(h.difficulty), Num(h.number), Num(h.gasLimit), Num(h.gasUsed), Num(h.timestamp),
     Data(h.extraData), Data(h.mixHash), Data(h.nonce)]
  }

  function HeaderOf(vs: seq<Value>): (h: BlockHeader)
    requires TypedAll(HEADER_FIELDS, vs)
    ensures HeaderValues(h) == vs
  {
    HeaderTypes(vs);
    BlockHeader(
      vs[0].bytes, vs[1].bytes, vs[2].bytes, vs[3].bytes, vs[4].bytes, vs[5].bytes, vs[6].bytes,
      vs[7].n, vs[8].n, vs[9].n, vs[10].n, vs[11].n, vs[12].bytes, vs[13].bytes, vs[14].bytes)
  }

  lemma HeaderTypes(vs: seq<Value>)
    requires TypedAll(HEADER_FIELDS, vs)
    ensures |vs| == 15
    ensures forall i | i in {0, 1, 3, 4, 5, 13} :: vs[i].Data? && |vs[i].bytes| == 32
    ensures vs[2].Data? && |vs[2].bytes| == 20
    ensures vs[6].Data? && |vs[6].bytes| == 256
    ensures forall i | 7 <= i < 12 :: vs[i].Num?
    ensures vs[12].Data?
    ensures vs[14].Data? && |vs[14].bytes| == 8
  {
    forall i | 0 <= i < 15 ensures Typed(HEADER_FIELDS[i], vs[i]) {}
  }

  /** The integers have the widths of their fields and the length of the list is a 64-bit one. */
  ghost predicate HeaderFits(h: BlockHeader)
  {
    && h.difficulty < Pow256(32)
    && h.number < Pow256(8) && h.gasLimit < Pow256(8) && h.gasUsed < Pow256(8) && h.timestamp < Pow256(8)
    && |h.extraData| < Pow256(8) && FieldsLength(HEADER_FIELDS, HeaderValues(h)) < Pow256(8)
  }

  function EncodeBlockHeader(h: BlockHeader): (r: Bytes)
  {
    EncodeHeader(true, FieldsLength(HEADER_FIELDS, HeaderValues(h))) + EncodeFields(HEADER_FIELDS, HeaderValues(h))
  }

  /** `length` of a header. */
  function BlockHeaderLength(h: BlockHeader): (n: nat)
  {
    var payload := FieldsLength(HEADER_FIELDS, HeaderValues(h));
    LengthOfLength(payload) + payload
  }

  function DecodeBlockHeader(from: Bytes): (r: Decoded<BlockHeader>)
  {
    var (head, view) :- DecodeHeader(from);
    if !head.list then Failure(UnexpectedString)
    else
      var leftover := |view| - head.payloadLength;
      var (vs, rest) :- DecodeFields(HEADER_FIELDS, view);
      if |rest| == leftover then Success((HeaderOf(vs), rest)) else Failure(ListLengthMismatch)
  }

  lemma HeaderProper()
    ensures Proper(Record(HEADER_FIELDS))
    ensures forall g <- HEADER_FIELDS :: Proper(g)
  {
    WidthBound();
  }

  lemma WidthBound()
    ensures 256 < Pow256(8)
  {
    Pow256Monotone(2, 8);
    Pow256One();
    assert Pow256(2) == 256 * Pow256(1);
  }

  lemma HeaderFitsSchema(h: BlockHeader)
    ensures HeaderFits(h) <==>
      && (forall i | 0 <= i < |HEADER_FIELDS| :: Fits(HEADER_FIELDS[i], HeaderValues(h)[i]))
      && FieldsLength(HEADER_FIELDS, HeaderValues(h)) < Pow256(8)
  {
    hide Pow256, FieldsLength, Fits, Typed;
    FitsUint(32, h.difficulty);
    FitsUint(8, h.number);
    FitsUint(8, h.gasLimit);
    FitsUint(8, h.gasUsed);
    FitsUint(8, h.timestamp);
    FitsBytes(h);
    var fs, vs := HEADER_FIELDS, HeaderValues(h);
    assert (forall i | 0 <= i < 15 :: Fits(fs[i], vs[i])) <==>
      && Fits(fs[0], vs[0]) && Fits(fs[1], vs[1]) && Fits(fs[2], vs[2]) && Fits(fs[3], vs[3]) && Fits(fs[4], vs[4])
      && Fits(fs[5], vs[5]) && Fits(fs[6], vs[6]) && Fits(fs[7], vs[7]) && Fits(fs[8], vs[8]) && Fits(fs[9], vs[9])
      && Fits(fs[10], vs[10]) && Fits(fs[11], vs[11]) && Fits(fs[12], vs[12]) && Fits(fs[13], vs[13]) && Fits(fs[14], vs[14]);
  }

  lemma FitsBytes(h: BlockHeader)
    ensures Fits(Fixed(32), Data(h.parentHash)) && Fits(Fixed(32), Data(h.ommersHash)) && Fits(Fixed(20), Data(h.beneficiary))
    ensures Fits(Fixed(32), Data(h.stateRoot)) && Fits(Fixed(32), Data(h.transactionsRoot)) && Fits(Fixed(32), Data(h.receiptsRoot))
    ensures Fits(Fixed(256), Data(h.logsBloom)) && Fits(Fixed(32), Data(h.mixHash)) && Fits(Fixed(8), Data(h.nonce))
    ensures Fits(Text, Data(h.extraData)) <==> |h.extraData| < Pow256(8)
  {
  }

  lemma HeaderAsRecord(h: BlockHeader, from: Bytes, rest: Bytes)
    ensures Typed(Record(HEADER_FIELDS), Items(HeaderValues(h)))
    ensures EncodeBlockHeader(h) == EncodeField(Record(HEADER_FIELDS), Items(HeaderValues(h)))
    ensures DecodeBlockHeader(from) == Success((h, rest)) <==>
            DecodeField(Record(HEADER_FIELDS), from) == Success((Items(HeaderValues(h)), rest))
  {
    hide DecodeFields, DecodeHeader, EncodeFields, EncodeHeader, FieldsLength;
    if DecodeHeader(from).Success? {
      var (head, view) := DecodeHeader(from).value;
      Pairing(DecodeFields(HEADER_FIELDS, view));
    }
  }

  /** A block header is decoded exactly from its encoding: nothing else is accepted, and
      what follows is left alone. */
  lemma BlockHeaderExact(from: Bytes, h: BlockHeader, rest: Bytes)
    ensures DecodeBlockHeader(from) == Success((h, rest)) <==> HeaderFits(h) && from == EncodeBlockHeader(h) + rest
    ensures |EncodeBlockHeader(h)| == BlockHeaderLength(h)
  {
    hide HeaderFits, EncodeBlockHeader, DecodeBlockHeader, HeaderValues, DecodeField, EncodeField, Pow256, FieldLength, FieldsLength,
      Proper, Typed;
    HeaderProper();
    HeaderAsRecord(h, from, rest);
    HeaderFitsSchema(h);
    FieldExact(Record(HEADER_FIELDS), from, Items(HeaderValues(h)), rest);
    HeaderSize(h);
    assert Fits(Record(HEADER_FIELDS), Items(HeaderValues(h))) <==> HeaderFits(h);
  }

  lemma HeaderSize(h: BlockHeader)
    ensures |EncodeBlockHeader(h)| == BlockHeaderLength(h)
  {
    hide EncodeFields, FieldsLength, EncodeHeader, LengthOfLength, HeaderValues, Proper, Typed;
    HeaderProper();
    FieldsLengthExact(HEADER_FIELDS, HeaderValues(h));
    LengthsExact([], true, FieldsLength(HEADER_FIELDS, HeaderValues(h)));
  }

  /** The fifteen fields in the order of section 4.3 of the Yellow Paper: arrays as strings, integers in their shortest form. */
  function HeaderParts(h: BlockHeader): (parts: seq<Bytes>)
  {
    [EncodeString(h.parentHash),
     EncodeString(h.ommersHash),
     EncodeString(h.beneficiary),
     EncodeString(h.stateRoot),
     EncodeString(h.transactionsRoot),
     EncodeString(h.receiptsRoot),
     EncodeString(h.logsBloom),
     EncodeUint(h.difficulty),
     EncodeUint(h.number),
     EncodeUint(h.gasLimit),
     EncodeUint(h.gasUsed),
     EncodeUint(h.timestamp),
     EncodeString(h.extraData),
     EncodeString(h.mixHash),
     EncodeString(h.nonce)]
  }

  lemma HeaderBytes(h: BlockHeader)
    ensures EncodeBlockHeader(h) == EncodeList(Concat(HeaderParts(h)))
  {
    hide EncodeFields, EncodeString, EncodeUint, EncodeHeader, FieldsLength, Concat, Proper;
    HeaderProper();
    ArrayIs(32, h.parentHash);
    ArrayIs(32, h.ommersHash);
    ArrayIs(20, h.beneficiary);
    ArrayIs(32, h.stateRoot);
    ArrayIs(32, h.transactionsRoot);
    ArrayIs(32, h.receiptsRoot);
    ArrayIs(256, h.logsBloom);
    ArrayIs(32, h.mixHash);
    ArrayIs(8, h.nonce);
    RecordIs(HEADER_FIELDS, HeaderValues(h), HeaderParts(h));
  }
}
