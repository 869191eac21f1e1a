/** The modified Merkle Patricia trie of Appendix D of the Yellow Paper, as a
    recursive function of a finite map, with hex-prefix paths (Appendix C). */
module Trie {
  import opened Basics
  import Rlp

  type Entries = map<Path, Bytes>
  type Keccak = Bytes -> Bytes32

  /** Root of the trie without entries. */
  const EMPTY_ROOT: Bytes32 := [
    0x56, 0xe8, 0x1f, 0x17, 0x1b, 0xcc, 0x55, 0xa6, 0xff, 0x83, 0x45, 0xe6, 0x92, 0xc0, 0xf8, 0x6e,
    0x5b, 0x48, 0xe0, 0x1b, 0x99, 0x6c, 0xad, 0xc0, 0x01, 0x62, 0x2f, 0xb5, 0xe3, 0x63, 0xb4, 0x21]

  function Join(high: Nibble, low: Nibble): (b: Byte)
  {
    16 * high + low
  }

  /** Two digits per byte, an even number of digits. */
  function Pack(x: Path): (s: Bytes)
    requires |x| % 2 == 0
    ensures |s| == |x| / 2
  {
    if x == [] then [] else Pack(x[..|x| - 2]) + [Join(x[|x| - 2], x[|x| - 1])]
  }

  /** Hex-prefix encoding (Appendix C). */
  function HexPrefix(x: Path, terminating: bool): (s: Bytes)
  {
    var flag := if terminating then 2 else 0;
    if |x| % 2 == 0 then [Join(flag, 0)] + Pack(x)
    else [Join(flag + 1, x[0])] + Pack(x[1..])
  }

  function LeafRlp(path: Path, value: Bytes): (s: Bytes)
  {
    Rlp.EncodeList(Rlp.EncodeString(HexPrefix(path, true)) + Rlp.EncodeString(value))
  }

  function ExtensionRlp(path: Path, childRef: Bytes): (s: Bytes)
  {
    Rlp.EncodeList(Rlp.EncodeString(HexPrefix(path, false)) + childRef)
  }

  /** A node is embedded in its parent if short, otherwise referred to by its hash. */
  function NodeRef(keccak: Keccak, rlp: Bytes): (s: Bytes)
  {
    if |rlp| < 32 then rlp else [Rlp.EMPTY_STRING_CODE + 32] + keccak(rlp)
  }

  /** The entries whose key starts with `p`. */
  function Under(m: Entries, p: Path): (r: Entries)
  {
    map k | k in m && p <= k :: m[k]
  }

  ghost predicate AllUnder(m: Entries, p: Path)
  {
    forall k <- m :: p <= k
  }

  /** `p` is the longest common prefix of the keys. */
  ghost predicate Branches(m: Entries, p: Path)
  {
    m != map[] && AllUnder(m, p) && forall x: Nibble :: !AllUnder(m, p + [x])
  }

  ghost function AnyKey(m: Entries): (k: Path)
    requires m != map[]
    ensures k in m
  {
    assert m.Keys != {};
    var k :| k in m;
    k
  }

  /** The longest common prefix of the keys, known to extend `p`. */
  ghost function Stem(m: Entries, p: Path): (q: Path)
    requires m != map[] && AllUnder(m, p)
    ensures p <= q && Branches(m, q)
    decreases |AnyKey(m)| - |p|
  {
    var k := AnyKey(m);
    if |p| < |k| && AllUnder(m, k[..|p| + 1]) then
      Stem(m, k[..|p| + 1])
    else
      assert forall x: Nibble :: p + [x] <= k ==> k[..|p| + 1] == p + [x];
      p
  }

  lemma NoLongerStem(m: Entries, p: Path, q: Path)
    requires Branches(m, p) && AllUnder(m, q)
    ensures |q| <= |p|
  {
    var k := AnyKey(m);
    assert p <= k && q <= k;
    if |p| < |q| {
      var x := q[|p|];
      forall k | k in m
        ensures p + [x] <= k
      {
        assert q <= k;
      }
      assert false;
    }
  }

  lemma {:induction false} StemIs(m: Entries, p: Path, q: Path)
    requires m != map[] && AllUnder(m, p) && p <= q && Branches(m, q)
    ensures Stem(m, p) == q
  {
    var r := Stem(m, p);
    var k := AnyKey(m);
    assert q <= k && r <= k;
    NoLongerStem(m, q, r);
    NoLongerStem(m, r, q);
  }

  /** c(J, i) of Appendix D: the RLP of the node for the entries `m`, all of
      whose keys start with the `i` digits `p`. */
  ghost function NodeRlp(keccak: Keccak, m: Entries, p: Path): (s: Bytes)
    requires m != map[] && AllUnder(m, p)
    decreases m.Keys, |Stem(m, p)| - |p|, 17
  {
    var k := AnyKey(m);
    var q := Stem(m, p);
    if m.Keys == {k} then
      LeafRlp(k[|p|..], m[k])
    else if q != p then
      StemIs(m, q, q);
      ExtensionRlp(q[|p|..], NodeRef(keccak, NodeRlp(keccak, m, q)))
    else
      Rlp.EncodeList(ChildRefs(keccak, m, p, 16) +
                     (if p in m then Rlp.EncodeString(m[p]) else [Rlp.EMPTY_STRING_CODE]))
  }

  /** The references to the first `x` children of a branch, n(J, i + 1) of Appendix D. */
  ghost function ChildRefs(keccak: Keccak, m: Entries, p: Path, x: nat): (s: Bytes)
    requires Branches(m, p) && x <= 16
    decreases m.Keys, 0, x
  {
    if x == 0 then []
    else
      var digit: Nibble := x - 1;
      var child := Under(m, p + [digit]);
      assert child.Keys < m.Keys by {
        assert !AllUnder(m, p + [digit]);
        assert child.Keys <= m.Keys;
      }
      ChildRefs(keccak, m, p, x - 1) +
      if child == map[] then [Rlp.EMPTY_STRING_CODE]
      else NodeRef(keccak, NodeRlp(keccak, child, p + [digit]))
  }

  /** TRIE(J) of Appendix D. */
  ghost function Root(keccak: Keccak, m: Entries): (root: Bytes32)
  {
    if m == map[] then EMPTY_ROOT else keccak(NodeRlp(keccak, m, []))
  }

  // --- the three shapes of a node ---

  lemma LeafNode(keccak: Keccak, key: Path, value: Bytes, p: Path)
    requires p <= key
    ensures map[key := value] != map[] && AllUnder(map[key := value], p)
    ensures NodeRlp(keccak, map[key := value], p) == LeafRlp(key[|p|..], value)
  {
    var m := map[key := value];
    assert key in m;
    assert AnyKey(m) == key;
    assert m.Keys == {key};
  }

  lemma ExtensionNode(keccak: Keccak, m: Entries, p: Path, q: Path)
    requires Branches(m, q) && q !in m && p <= q && p != q
    ensures NodeRlp(keccak, m, p) == ExtensionRlp(q[|p|..], NodeRef(keccak, NodeRlp(keccak, m, q)))
  {
    assert AllUnder(m, p);
    StemIs(m, p, q);
    NotSingle(m, q);
  }

  lemma BranchNode(keccak: Keccak, m: Entries, p: Path)
    requires Branches(m, p) && p !in m
    ensures NodeRlp(keccak, m, p) ==
            Rlp.EncodeList(ChildRefs(keccak, m, p, 16) + [Rlp.EMPTY_STRING_CODE])
  {
    StemIs(m, p, p);
    NotSingle(m, p);
  }

  lemma TwoKeysFork(m: Entries, p: Path, k: Path, k': Path)
    requires AllUnder(m, p) && k in m && k' in m
    requires |p| < |k| && |p| < |k'| && k[|p|] != k'[|p|]
    ensures Branches(m, p)
  {
    forall x: Nibble
      ensures !AllUnder(m, p + [x])
    {
      if x == k[|p|] { assert !(p + [x] <= k'); } else { assert !(p + [x] <= k); }
    }
  }

  lemma NotSingle(m: Entries, q: Path)
    requires Branches(m, q) && q !in m
    ensures m.Keys != {AnyKey(m)}
  {
    var k := AnyKey(m);
    assert q <= k && q != k;
    assert q + [k[|q|]] <= k;
    assert !AllUnder(m, q + [k[|q|]]);
  }
}
