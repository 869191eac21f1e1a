/** Trie root of a list: core/silkworm/trie/vector_root.hpp. */
module VectorRoot {
  import opened Basics
  import opened Trie
  import opened HashBuilding
  import Rlp

  function AdjustIndexForRlp(i: nat, len: nat): (r: nat)
  {
    if i > 0x7f then i
    else if i == 0x7f || i + 1 == len then 0
    else i + 1
  }

  /** The step at which index `i` is added. */
  function StepOf(i: nat, len: nat): (j: nat)
  {
    if i > 0x7f then i
    else if i > 0 then i - 1
    else if len > 0x7f then 0x7f
    else if len == 0 then 0
    else len - 1
  }

  /** `adjust_index_for_rlp` permutes the indices of a list. */
  lemma AdjustIsPermutation(i: nat, len: nat)
    requires i < len
    ensures AdjustIndexForRlp(i, len) < len && StepOf(AdjustIndexForRlp(i, len), len) == i
    ensures StepOf(i, len) < len && AdjustIndexForRlp(StepOf(i, len), len) == i
  {
  }

  function Key(i: nat): (k: Path)
  {
    Unpack(Rlp.EncodeUint(i))
  }

  /** The indices come out in strictly increasing, prefix-free order of their encodings. */
  lemma AdjustedKeysIncrease(j: nat, len: nat)
    requires j + 1 < len < Rlp.Pow256(8)
    ensures Before(Key(AdjustIndexForRlp(j, len)), Key(AdjustIndexForRlp(j + 1, len)))
  {
    var a, b := AdjustIndexForRlp(j, len), AdjustIndexForRlp(j + 1, len);
    AdjustIsPermutation(j + 1, len);
    Rlp.EncodeUintOrder(a, b);
    UnpackBefore(Rlp.EncodeUint(a), Rlp.EncodeUint(b));
  }

  lemma KeyInjective(a: nat, b: nat)
    requires a != b && a < Rlp.Pow256(8) && b < Rlp.Pow256(8)
    ensures Key(a) != Key(b)
  {
    if Rlp.Rank(a) < Rlp.Rank(b) {
      Rlp.EncodeUintOrder(a, b);
    } else {
      Rlp.EncodeUintOrder(b, a);
    }
    if Key(a) == Key(b) {
      UnpackInjective(Rlp.EncodeUint(a), Rlp.EncodeUint(b));
      assert false;
    }
  }

  /** The first `n` elements, keyed by encoded index. */
  ghost function Table<T>(v: seq<T>, encoder: T -> Bytes, n: nat): (m: Entries)
    requires n <= |v|
  {
    if n == 0 then map[] else Table(v, encoder, n - 1)[Key(n - 1) := encoder(v[n - 1])]
  }

  lemma {:induction false} TableIs<T>(v: seq<T>, encoder: T -> Bytes, n: nat)
    requires n <= |v| < Rlp.Pow256(8)
    ensures forall i | 0 <= i < n :: Key(i) in Table(v, encoder, n) && Table(v, encoder, n)[Key(i)] == encoder(v[i])
    ensures forall k <- Table(v, encoder, n) :: exists i :: 0 <= i < n && k == Key(i)
  {
    hide Key;
    if n > 0 {
      TableIs(v, encoder, n - 1);
      forall i | 0 <= i < n - 1
        ensures Key(i) != Key(n - 1)
      {
        KeyInjective(i, n - 1);
      }
    }
  }

  /** The elements added by the first `n` steps of the loop. */
  ghost predicate Added<T>(m: Entries, v: seq<T>, encoder: T -> Bytes, n: nat)
    requires n <= |v|
  {
    && (forall i | 0 <= i < |v| && StepOf(i, |v|) < n :: Key(i) in m && m[Key(i)] == encoder(v[i]))
    && (forall k <- m :: exists i :: 0 <= i < |v| && k == Key(i))
  }

  lemma AddedStep<T>(m: Entries, v: seq<T>, encoder: T -> Bytes, j: nat)
    requires j < |v| < Rlp.Pow256(8) && Added(m, v, encoder, j)
    ensures var index := AdjustIndexForRlp(j, |v|);
      index < |v| && Added(m[Key(index) := encoder(v[index])], v, encoder, j + 1)
  {
    hide Key;
    AdjustIsPermutation(j, |v|);
    var index := AdjustIndexForRlp(j, |v|);
    var n := m[Key(index) := encoder(v[index])];
    forall i | 0 <= i < |v| && StepOf(i, |v|) < j + 1
      ensures Key(i) in n && n[Key(i)] == encoder(v[i])
    {
      AdjustIsPermutation(i, |v|);
      if i != index { KeyInjective(i, index); }
    }
  }

  lemma AddedAll<T>(m: Entries, v: seq<T>, encoder: T -> Bytes)
    requires |v| < Rlp.Pow256(8) && Added(m, v, encoder, |v|)
    ensures m == Table(v, encoder, |v|)
  {
    hide Key;
    TableIs(v, encoder, |v|);
    var t := Table(v, encoder, |v|);
    forall i | 0 <= i < |v|
      ensures Key(i) in m && m[Key(i)] == encoder(v[i])
    {
      AdjustIsPermutation(i, |v|);
    }
    assert forall k <- m :: k in t && m[k] == t[k];
    assert forall k <- t :: k in m;
  }

  /** `root_hash` of a list is the trie root of its table, for every list a `size_t` can index. */
  method RootHash<T>(keccak: Keccak, v: seq<T>, encoder: T -> Bytes) returns (root: Bytes32)
    requires |v| < Rlp.Pow256(8)
    ensures root == Root(keccak, Table(v, encoder, |v|))
  {
    var hb := new HashBuilder(keccak);
    for j := 0 to |v|
      invariant fresh(hb) && hb.Valid() && !hb.Finalized()
      invariant hb.key == if j == 0 then [] else Key(AdjustIndexForRlp(j - 1, |v|))
      invariant Added(hb.Contents(), v, encoder, j)
    {
      var index := AdjustIndexForRlp(j, |v|);
      AddedStep(hb.Contents(), v, encoder, j);
      if j > 0 {
        AdjustedKeysIncrease(j - 1, |v|);
      }
      var indexRlp := Rlp.EncodeUint(index);
      var valueRlp := encoder(v[index]);
      hb.Add(indexRlp, valueRlp);
    }
    AddedAll(hb.Contents(), v, encoder);
    root := hb.RootHash();
  }
}
