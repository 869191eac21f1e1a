/** The streaming trie root: core/silkworm/trie/hash_builder.cpp, without a node collector. */
module HashBuilding {
  import opened Basics
  import opened Trie
  import Rlp

  /** A 16-bit mask, as the set of its one-bits. */
  type Mask = set<Nibble>

  // --- helpers that return fresh bytes ---

  function Unpack(packed: Bytes): (path: Path)
    ensures |path| == 2 * |packed|
  {
    if packed == [] then []
    else Unpack(packed[..|packed| - 1]) + [packed[|packed| - 1] / 16, packed[|packed| - 1] % 16]
  }

  method UnpackNibbles(packed: Bytes) returns (out: Path)
    ensures out == Unpack(packed)
  {
    out := [];
    for i := 0 to |packed|
      invariant out == Unpack(packed[..i])
    {
      assert packed[..i + 1][..i] == packed[..i];
      out := out + [packed[i] / 16, packed[i] % 16];
    }
    assert packed[..|packed|] == packed;
  }

  lemma {:induction false} UnpackAt(packed: Bytes, i: nat)
    requires i < |packed|
    ensures Unpack(packed)[2 * i] == packed[i] / 16
    ensures Unpack(packed)[2 * i + 1] == packed[i] % 16
  {
    if i + 1 < |packed| {
      UnpackAt(packed[..|packed| - 1], i);
    }
  }

  lemma {:induction false} UnpackPrefix(packed: Bytes, d: nat)
    requires d <= |packed|
    ensures Unpack(packed)[..2 * d] == Unpack(packed[..d])
  {
    if d == |packed| {
      assert packed[..d] == packed;
    } else {
      var shorter := packed[..|packed| - 1];
      UnpackPrefix(shorter, d);
      assert shorter[..d] == packed[..d];
    }
  }

  /** Unpacking keeps the order and keeps keys prefix-free. */
  lemma UnpackBefore(a: Bytes, b: Bytes)
    requires Before(a, b)
    ensures Before(Unpack(a), Unpack(b))
  {
    hide Unpack;
    var d := CommonLen(a, b);
    UnpackPrefix(a, d);
    UnpackPrefix(b, d);
    UnpackAt(a, d);
    UnpackAt(b, d);
    var x, y := Unpack(a), Unpack(b);
    if x[2 * d] < y[2 * d] {
      BeforeAt(x, y, 2 * d);
    } else {
      PrefixExtend(x, y, 2 * d);
      BeforeAt(x, y, 2 * d + 1);
    }
  }

  lemma {:induction false} UnpackInjective(a: Bytes, b: Bytes)
    requires Unpack(a) == Unpack(b)
    ensures a == b
  {
    forall i | 0 <= i < |a|
      ensures a[i] == b[i]
    {
      UnpackAt(a, i);
      UnpackAt(b, i);
    }
  }

  lemma {:induction false} PackAt(x: Path, i: nat)
    requires |x| % 2 == 0 && i < |x| / 2
    ensures Pack(x)[i] == Join(x[2 * i], x[2 * i + 1])
  {
    if i < |x| / 2 - 1 {
      PackAt(x[..|x| - 2], i);
    }
  }

  /** Packing two digits per byte is undone by unpacking. */
  lemma PackUnpacks(x: Path)
    requires |x| % 2 == 0
    ensures Unpack(Pack(x)) == x
  {
    hide Unpack, Pack;
    forall i | 0 <= i < |x| / 2
      ensures Unpack(Pack(x))[2 * i] == x[2 * i] && Unpack(Pack(x))[2 * i + 1] == x[2 * i + 1]
    {
      PackAt(x, i);
      UnpackAt(Pack(x), i);
    }
    forall k | 0 <= k < |x| ensures Unpack(Pack(x))[k] == x[k] {
      assert k == 2 * (k / 2) || k == 2 * (k / 2) + 1;
    }
  }

  lemma UnpackOne(b: Byte)
    ensures Unpack([b]) == [b / 16, b % 16]
  {
    assert [b][..0] == [];
  }

  /** The digits in front of a path, Appendix C: 2 marks a terminating path, 1 more an odd one, which needs no padding. */
  function FlagDigits(odd: bool, terminating: bool): (flag: Path)
  {
    match (odd, terminating)
    case (false, false) => [0, 0]
    case (true, false) => [1]
    case (false, true) => [2, 0]
    case (true, true) => [3]
  }

  /** The hex-prefix encoding holds the flag and then the path, digit by digit. */
  lemma HexPrefixUnpacked(x: Path, terminating: bool)
    ensures Unpack(HexPrefix(x, terminating)) == FlagDigits(|x| % 2 != 0, terminating) + x
  {
    hide Unpack, Pack;
    var rest := if |x| % 2 == 0 then x else x[1..];
    var first := HexPrefix(x, terminating)[0];
    PackUnpacks(rest);
    UnpackConcat([first], Pack(rest));
    UnpackOne(first);
  }

  lemma {:induction false} UnpackConcat(a: Bytes, b: Bytes)
    ensures Unpack(a + b) == Unpack(a) + Unpack(b)
    decreases |b|
  {
    if b == [] {
      assert a + b == a;
    } else {
      assert (a + b)[..|a + b| - 1] == a + b[..|b| - 1];
      UnpackConcat(a, b[..|b| - 1]);
    }
  }

  /** Path and kind of node can be told from the encoding. */
  lemma HexPrefixInjective(x: Path, terminating: bool, y: Path, terminating': bool)
    requires HexPrefix(x, terminating) == HexPrefix(y, terminating')
    ensures x == y && terminating == terminating'
  {
    hide HexPrefix, Unpack;
    HexPrefixUnpacked(x, terminating);
    HexPrefixUnpacked(y, terminating');
    var u := Unpack(HexPrefix(x, terminating));
    var f, g := FlagDigits(|x| % 2 != 0, terminating), FlagDigits(|y| % 2 != 0, terminating');
    assert u[0] == f[0] == g[0];
    assert x == u[|f|..] && y == u[|g|..];
  }

  /** `encode_path` computes the hex-prefix encoding: the flag and then the path, two digits per byte. */
  method EncodePath(path: Path, terminating: bool) returns (res: Bytes)
    ensures res == HexPrefix(path, terminating)
    ensures Unpack(res) == FlagDigits(|path| % 2 != 0, terminating) + path
  {
    hide Pack, Unpack;
    HexPrefixUnpacked(path, terminating);
    var odd := |path| % 2 != 0;
    var first: Byte := if !terminating && !odd then 0x00
                       else if !terminating && odd then 0x10
                       else if terminating && !odd then 0x20
                       else 0x30;
    ghost var rest := if odd then path[1..] else path;
    if odd {
      // the low half of the first byte is still zero, so `|=` adds
      res := [first + path[0]];
      for i := 1 to |path| / 2 + 1
        invariant |res| == i
        invariant res[0] == first + path[0]
        invariant forall j | 1 <= j < i :: res[j] == Pack(rest)[j - 1]
      {
        PackAt(rest, i - 1);
        res := res + [Join(path[2 * i - 1], path[2 * i])];
      }
    } else {
      res := [first];
      for i := 1 to |path| / 2 + 1
        invariant |res| == i
        invariant res[0] == first
        invariant forall j | 1 <= j < i :: res[j] == Pack(rest)[j - 1]
      {
        PackAt(rest, i - 1);
        res := res + [Join(path[2 * i - 2], path[2 * i - 1])];
      }
    }
  }

  method LeafNodeRlp(path: Path, value: Bytes) returns (rlp: Bytes)
    ensures rlp == LeafRlp(path, value)
  {
    var encodedPath := EncodePath(path, true);
    var payloadLength := Rlp.StringLength(encodedPath) + Rlp.StringLength(value);
    Rlp.LengthsExact(encodedPath, true, 0);
    Rlp.LengthsExact(value, true, 0);
    rlp := Rlp.EncodeHeader(true, payloadLength);
    rlp := rlp + Rlp.EncodeString(encodedPath);
    rlp := rlp + Rlp.EncodeString(value);
  }

  method ExtensionNodeRlp(path: Path, childRef: Bytes) returns (rlp: Bytes)
    ensures rlp == ExtensionRlp(path, childRef)
  {
    var encodedPath := EncodePath(path, false);
    var payloadLength := Rlp.StringLength(encodedPath) + |childRef|;
    Rlp.LengthsExact(encodedPath, true, 0);
    rlp := Rlp.EncodeHeader(true, payloadLength);
    rlp := rlp + Rlp.EncodeString(encodedPath);
    rlp := rlp + childRef;
  }

  // --- what the groups and the stack stand for ---

  /** Number of one-bits below `x`. */
  function Count(mask: Mask, x: nat): (n: nat)
    ensures n <= x
  {
    if x == 0 then 0 else Count(mask, x - 1) + if x - 1 in mask then 1 else 0
  }

  lemma {:induction false} CountMonotone(mask: Mask, x: nat, y: nat)
    requires x <= y
    ensures Count(mask, x) <= Count(mask, y)
  {
    if x < y { CountMonotone(mask, x, y - 1); }
  }

  /** The first `x` slots of a branch: set bits take the next reference, others are empty. */
  function Fill(mask: Mask, refs: seq<Bytes>, x: nat): (s: Bytes)
    requires Count(mask, x) <= |refs|
  {
    if x == 0 then []
    else Fill(mask, refs, x - 1) +
         if x - 1 in mask then refs[Count(mask, x - 1)] else [Rlp.EMPTY_STRING_CODE]
  }

  /** Digits below `hi` that continue `p` in some key of `m`. */
  function Digits(m: Entries, p: Path, hi: nat): (mask: Mask)
  {
    set x: Nibble | x < hi && Under(m, p + [x]) != map[]
  }

  /** References of the children of `p` with digits below `hi`. */
  ghost function Refs(keccak: Keccak, m: Entries, p: Path, hi: nat): (refs: seq<Bytes>)
    requires hi <= 16
  {
    if hi == 0 then []
    else
      var digit: Nibble := hi - 1;
      var child := Under(m, p + [digit]);
      Refs(keccak, m, p, hi - 1) +
      if child == map[] then [] else [NodeRef(keccak, NodeRlp(keccak, child, p + [digit]))]
  }

  /** The stack below depth `d` when `key` comes next: at every depth, the finished
      siblings to the left of `key`. */
  ghost function Stacked(keccak: Keccak, m: Entries, key: Path, d: nat): (stack: seq<Bytes>)
    requires d <= |key|
  {
    if d == 0 then [] else Stacked(keccak, m, key, d - 1) + Refs(keccak, m, key[..d - 1], key[d - 1])
  }

  /** `groups` records the digits of those siblings, with no empty group on top. */
  ghost predicate Grouped(groups: seq<Mask>, m: Entries, key: Path, len: nat)
  {
    && |groups| <= len <= |key|
    && (groups != [] ==> groups[|groups| - 1] != {})
    && forall d | 0 <= d < len ::
         Digits(m, key[..d], key[d]) == if d < |groups| then groups[d] else {}
  }

  ghost predicate AllBefore(m: Entries, key: Path)
  {
    forall k <- m :: Before(k, key)
  }

  // --- lemmas ---

  lemma {:induction false} RefsCount(keccak: Keccak, m: Entries, p: Path, hi: nat, mask: Mask)
    requires hi <= 16
    requires forall x: Nibble | x < hi :: x in mask <==> Under(m, p + [x]) != map[]
    ensures |Refs(keccak, m, p, hi)| == Count(mask, hi)
  {
    hide NodeRlp, Stem, Under;
    if hi > 0 { RefsCount(keccak, m, p, hi - 1, mask); }
  }

  lemma {:induction false} RefsPrefix(keccak: Keccak, m: Entries, p: Path, lo: nat, hi: nat)
    requires lo <= hi <= 16
    ensures Refs(keccak, m, p, lo) <= Refs(keccak, m, p, hi)
  {
    hide NodeRlp, Stem, Under;
    if lo < hi { RefsPrefix(keccak, m, p, lo, hi - 1); }
  }

  lemma {:induction false} RefsFlat(keccak: Keccak, m: Entries, p: Path, lo: nat, hi: nat)
    requires lo <= hi <= 16
    requires forall x: Nibble | lo <= x < hi :: Under(m, p + [x]) == map[]
    ensures Refs(keccak, m, p, lo) == Refs(keccak, m, p, hi)
    ensures lo == 0 ==> Refs(keccak, m, p, hi) == []
  {
    hide NodeRlp, Stem, Under;
    if lo < hi { RefsFlat(keccak, m, p, lo, hi - 1); }
  }

  lemma {:induction false} RefsSame(keccak: Keccak, m: Entries, n: Entries, p: Path, hi: nat)
    requires hi <= 16
    requires forall x: Nibble | x < hi :: Under(m, p + [x]) == Under(n, p + [x])
    ensures Refs(keccak, m, p, hi) == Refs(keccak, n, p, hi)
  {
    hide NodeRlp, Stem, Under;
    if hi > 0 { RefsSame(keccak, m, n, p, hi - 1); }
  }

  /** A branch assembled from the group mask and the references on the stack is
      the node that Appendix D prescribes. */
  lemma {:induction false} FillIsChildren(keccak: Keccak, m: Entries, p: Path, x: nat)
    requires x <= 16 && Branches(Under(m, p), p)
    ensures Count(Digits(m, p, 16), x) <= |Refs(keccak, m, p, 16)|
    ensures Fill(Digits(m, p, 16), Refs(keccak, m, p, 16), x) == ChildRefs(keccak, Under(m, p), p, x)
  {
    hide NodeRlp, Stem, Under, Digits, Refs, Branches;
    var mask, refs := Digits(m, p, 16), Refs(keccak, m, p, 16);
    DigitsCount(keccak, m, p, x);
    RefsPrefix(keccak, m, p, x, 16);
    if x > 0 {
      FillIsChildren(keccak, m, p, x - 1);
      ChildSlot(keccak, m, p, x - 1, mask, refs);
    }
  }

  lemma DigitsCount(keccak: Keccak, m: Entries, p: Path, hi: nat)
    requires hi <= 16
    ensures |Refs(keccak, m, p, hi)| == Count(Digits(m, p, 16), hi)
  {
    hide NodeRlp, Stem, Under, Digits, Refs;
    forall x: Nibble | x < hi
      ensures x in Digits(m, p, 16) <==> Under(m, p + [x]) != map[]
    {
      DigitIn(m, p, 16, x);
    }
    RefsCount(keccak, m, p, hi, Digits(m, p, 16));
  }

  lemma ChildSlot(keccak: Keccak, m: Entries, p: Path, digit: Nibble, mask: Mask, refs: seq<Bytes>)
    requires mask == Digits(m, p, 16) && refs == Refs(keccak, m, p, 16)
    ensures Under(Under(m, p), p + [digit]) == Under(m, p + [digit])
    ensures digit in mask <==> Under(m, p + [digit]) != map[]
    ensures digit in mask ==>
              && Count(mask, digit) < |refs|
              && refs[Count(mask, digit)] == NodeRef(keccak, NodeRlp(keccak, Under(m, p + [digit]), p + [digit]))
  {
    hide NodeRlp, Stem, Under, Digits, Refs;
    UnderTwice(m, p, digit);
    DigitIn(m, p, 16, digit);
    DigitsCount(keccak, m, p, digit);
    if digit in mask { RefAt(keccak, m, p, digit); }
  }

  lemma UnderTwice(m: Entries, p: Path, digit: Nibble)
    ensures Under(Under(m, p), p + [digit]) == Under(m, p + [digit])
  {
  }

  lemma RefAt(keccak: Keccak, m: Entries, p: Path, digit: Nibble)
    requires Under(m, p + [digit]) != map[]
    ensures var n, refs := |Refs(keccak, m, p, digit)|, Refs(keccak, m, p, 16);
      n < |refs| && refs[n] == NodeRef(keccak, NodeRlp(keccak, Under(m, p + [digit]), p + [digit]))
  {
    hide NodeRlp, Stem, Under;
    var next: nat := digit as int + 1;
    RefsPrefix(keccak, m, p, next, 16);
    assert Refs(keccak, m, p, next)[|Refs(keccak, m, p, digit)|] == Refs(keccak, m, p, 16)[|Refs(keccak, m, p, digit)|];
  }

  /** Appending `key` to the entries changes nothing at a depth where `next` still agrees with it. */
  lemma SameLevel(keccak: Keccak, m: Entries, key: Path, value: Bytes, next: Path, d: nat)
    requires d < CommonLen(key, next)
    ensures Digits(m[key := value], next[..d], next[d]) == Digits(m, key[..d], key[d])
    ensures Refs(keccak, m[key := value], next[..d], next[d]) == Refs(keccak, m, key[..d], key[d])
  {
    var n := CommonLen(key, next);
    assert next[..d] == next[..n][..d] == key[..n][..d] == key[..d];
    assert next[d] == next[..n][d] == key[..n][d] == key[d];
    forall x: Nibble | x < key[d]
      ensures Under(m[key := value], key[..d] + [x]) == Under(m, key[..d] + [x])
    {
      assert !(key[..d] + [x] <= key);
    }
    RefsSame(keccak, m[key := value], m, key[..d], key[d]);
  }

  /** At the depth where the new node is attached, it comes last. */
  lemma NewDigit(m: Entries, key: Path, value: Bytes, d: nat)
    requires d < |key| && AllBefore(m, key)
    ensures forall x: Nibble | x < key[d] ::
              Under(m[key := value], key[..d] + [x]) == Under(m, key[..d] + [x])
    ensures forall x: Nibble | key[d] < x :: Under(m[key := value], key[..d] + [x]) == map[]
    ensures key[..d] + [key[d]] == key[..d + 1]
    ensures Under(m[key := value], key[..d + 1]) != map[]
  {
    var n, p := m[key := value], key[..d];
    forall x: Nibble | x < key[d]
      ensures Under(n, p + [x]) == Under(m, p + [x])
    {
      assert !(p + [x] <= key);
    }
    forall x: Nibble | key[d] < x
      ensures Under(n, p + [x]) == map[]
    {
      forall k | k in n
        ensures !(p + [x] <= k)
      {
        NoLaterDigit(k, key, d, x);
      }
    }
    assert key in Under(n, key[..d + 1]);
  }

  lemma NewDigits(m: Entries, key: Path, value: Bytes, d: nat, hi: nat)
    requires d < |key| && key[d] < hi && AllBefore(m, key)
    ensures Digits(m[key := value], key[..d], hi) == Digits(m, key[..d], key[d]) + {key[d]}
  {
    hide Under, Digits;
    NewDigit(m, key, value, d);
    var n, p := m[key := value], key[..d];
    forall x: Nibble
      ensures x in Digits(n, p, hi) <==> x in Digits(m, p, key[d]) + {key[d]}
    {
      DigitIn(n, p, hi, x);
      DigitIn(m, p, key[d], x);
    }
  }

  lemma DigitIn(m: Entries, p: Path, hi: nat, x: Nibble)
    ensures x in Digits(m, p, hi) <==> x < hi && Under(m, p + [x]) != map[]
  {
  }

  lemma NewChild(keccak: Keccak, m: Entries, key: Path, value: Bytes, d: nat, hi: nat)
    requires d < |key| && key[d] < hi <= 16 && AllBefore(m, key)
    ensures Under(m[key := value], key[..d + 1]) != map[]
    ensures Refs(keccak, m[key := value], key[..d], hi) ==
            Refs(keccak, m, key[..d], key[d]) +
            [NodeRef(keccak, NodeRlp(keccak, Under(m[key := value], key[..d + 1]), key[..d + 1]))]
  {
    hide NodeRlp, Stem;
    NewDigit(m, key, value, d);
    var n, p := m[key := value], key[..d];
    RefsSame(keccak, n, m, p, key[d]);
    var after: nat := key[d] as int + 1;
    RefsFlat(keccak, n, p, after, hi);
  }

  lemma NoLaterDigit(k: Path, key: Path, d: nat, x: Nibble)
    requires d < |key| && key[d] < x
    requires k == key || Before(k, key)
    ensures !(key[..d] + [x] <= k)
  {
    if k != key {
      var c := CommonLen(k, key);
      if c < d {
        assert (key[..d] + [x])[c] == key[c];
      } else if d < c {
        assert k[d] == k[..c][d] == key[..c][d] == key[d];
      }
    }
  }

  /** Below the point where `next` leaves `key`, nothing has been seen under `next`. */
  lemma EmptyLevel(m: Entries, key: Path, value: Bytes, next: Path, d: nat, x: Nibble)
    requires AllBefore(m, key) && Before(key, next)
    requires CommonLen(key, next) < d < |next|
    ensures Under(m[key := value], next[..d] + [x]) == map[]
  {
    var c := CommonLen(key, next);
    var n := m[key := value];
    NotUnder(key, next, c, d, x);
    forall k | k in n
      ensures !(next[..d] + [x] <= k)
    {
      NoLaterDigit(k, key, c, next[c]);
      PrefixShorter(key[..c] + [next[c]], next[..d] + [x], k);
    }
  }

  lemma NotUnder(key: Path, next: Path, c: nat, d: nat, x: Nibble)
    requires c < |key| && c < d < |next| && key[..c] == next[..c]
    ensures key[..c] + [next[c]] <= next[..d] + [x]
  {
    assert next[..d][..c + 1] == next[..c + 1] == next[..c] + [next[c]];
  }

  lemma PrefixShorter(a: Path, b: Path, k: Path)
    requires a <= b
    ensures b <= k ==> a <= k
  {
    assert b[..|a|] == a;
  }

  /** The invariant carries over from `key` to `next` once everything below their
      fork has been folded into one reference. */
  lemma {:induction false} StackedShared(keccak: Keccak, m: Entries, key: Path, value: Bytes, next: Path, d: nat)
    requires d <= CommonLen(key, next)
    ensures Stacked(keccak, m[key := value], next, d) == Stacked(keccak, m, key, d)
  {
    hide Refs;
    if d > 0 {
      StackedShared(keccak, m, key, value, next, d - 1);
      SameLevel(keccak, m, key, value, next, d - 1);
    }
  }

  lemma {:induction false} StackedNext(keccak: Keccak, m: Entries, key: Path, value: Bytes, next: Path, d: nat)
    requires AllBefore(m, key) && Before(key, next) && CommonLen(key, next) < d <= |next|
    ensures var n, c := m[key := value], CommonLen(key, next);
      && Under(n, key[..c + 1]) != map[]
      && Stacked(keccak, n, next, d) ==
         Stacked(keccak, m, key, c) + Refs(keccak, m, key[..c], key[c]) +
         [NodeRef(keccak, NodeRlp(keccak, Under(n, key[..c + 1]), key[..c + 1]))]
  {
    hide NodeRlp, Stem, Refs;
    var n, c := m[key := value], CommonLen(key, next);
    if d == c + 1 {
      NewChild(keccak, m, key, value, c, next[c]);
      StackedShared(keccak, m, key, value, next, c);
    } else {
      StackedNext(keccak, m, key, value, next, d - 1);
      forall x: Nibble
        ensures Under(n, next[..d - 1] + [x]) == map[]
      {
        EmptyLevel(m, key, value, next, d - 1, x);
      }
      RefsFlat(keccak, n, next[..d - 1], 0, next[d - 1]);
    }
  }

  ghost predicate MasksBelow(groups: seq<Mask>, m: Entries, key: Path, len: nat)
  {
    len <= |groups| && len <= |key| && forall d | 0 <= d < len :: groups[d] == Digits(m, key[..d], key[d])
  }

  ghost predicate NoSiblings(m: Entries, key: Path, r: nat, len: nat)
  {
    len <= |key| && forall d | r <= d < len :: Digits(m, key[..d], key[d]) == {}
  }

  /** The stack ends with the node for all entries under the first `r` digits of `key`,
      above the finished siblings at the depths before. */
  ghost predicate NodeOnTop(stack: seq<Bytes>, keccak: Keccak, m: Entries, key: Path, value: Bytes, r: nat)
  {
    r <= |key| && Under(m[key := value], key[..r]) != map[] &&
    stack == Stacked(keccak, m, key, r) +
             [NodeRef(keccak, NodeRlp(keccak, Under(m[key := value], key[..r]), key[..r]))]
  }

  /** ... and that node is a branch. */
  ghost predicate BranchOnTop(stack: seq<Bytes>, keccak: Keccak, m: Entries, key: Path, value: Bytes, r: nat)
  {
    && NodeOnTop(stack, keccak, m, key, value, r)
    && Branches(Under(m[key := value], key[..r]), key[..r])
    && key[..r] !in m[key := value]
  }

  // --- one iteration of `gen_struct_step` ---

  lemma NotPrefix(m: Entries, key: Path, d: nat)
    requires AllBefore(m, key) && d <= |key|
    ensures key[..d] !in m
  {
    CommonLenUnique(key[..d], key, d);
  }

  /** A key that agrees with `key` up to depth `r` leaves it at a deeper, non-empty level. */
  lemma LevelOf(m: Entries, k: Path, key: Path)
    requires k in m && Before(k, key)
    ensures var c := CommonLen(k, key); k[c] in Digits(m, key[..c], key[c])
  {
    var c := CommonLen(k, key);
    assert key[..c] + [k[c]] == k[..c + 1];
    assert k in Under(m, key[..c] + [k[c]]);
  }

  /** With no sibling between depths `r` and `len`, both prefixes cover the same entries. */
  lemma SkipUnder(m: Entries, key: Path, value: Bytes, r: nat, len: nat)
    requires r <= len <= |key| && AllBefore(m, key)
    requires forall d | r <= d < len :: Digits(m, key[..d], key[d]) == {}
    ensures Under(m[key := value], key[..r]) == Under(m[key := value], key[..len])
  {
    hide Before, Digits;
    var n := m[key := value];
    assert key[..r] <= key[..len];
    forall k | k in n && key[..r] <= k
      ensures key[..len] <= k
    {
      if k != key { SkipKey(m, key, k, r, len); }
    }
  }

  lemma SkipKey(m: Entries, key: Path, k: Path, r: nat, len: nat)
    requires r <= len <= |key| && AllBefore(m, key) && k in m && key[..r] <= k
    requires forall d | r <= d < len :: Digits(m, key[..d], key[d]) == {}
    ensures key[..len] <= k
  {
    hide Digits;
    LevelOf(m, k, key);
    var c := CommonLen(k, key);
    assert forall i | 0 <= i < r :: k[i] == key[..r][i];
    assert len <= c;
    assert k[..c][..len] == k[..len] && key[..c][..len] == key[..len];
  }

  lemma {:induction false} SkipStacked(keccak: Keccak, m: Entries, key: Path, r: nat, len: nat)
    requires r <= len <= |key|
    requires forall d | r <= d < len :: Digits(m, key[..d], key[d]) == {}
    ensures Stacked(keccak, m, key, r) == Stacked(keccak, m, key, len)
  {
    hide NodeRlp, Stem, Refs;
    if r < len {
      SkipStacked(keccak, m, key, r, len - 1);
      var p, hi := key[..len - 1], key[len - 1];
      assert Digits(m, p, hi) == {};
      forall x: Nibble | 0 <= x < hi
        ensures Under(m, p + [x]) == map[]
      {
        assert x !in Digits(m, p, hi);
      }
      RefsFlat(keccak, m, p, 0, hi);
    }
  }

  lemma LeafOnly(m: Entries, key: Path, value: Bytes)
    requires AllBefore(m, key)
    ensures Under(m[key := value], key) == map[key := value]
  {
    forall k | k in m
      ensures !(key <= k)
    {
      var c := CommonLen(k, key);
      assert Before(k, key) && k[c] != key[c];
    }
  }

  /** A non-empty group means that the entries fork at its depth. */
  lemma GroupForks(m: Entries, key: Path, value: Bytes, d: nat)
    requires d < |key| && AllBefore(m, key) && Digits(m, key[..d], key[d]) != {}
    ensures Branches(Under(m[key := value], key[..d]), key[..d])
    ensures key[..d] !in m[key := value]
  {
    var n, p := m[key := value], key[..d];
    var y :| y in Digits(m, p, key[d]);
    var k := AnyKey(Under(m, p + [y]));
    assert p + [y] <= k && p <= k && k[d] == y;
    TwoKeysFork(Under(n, p), p, k, key);
    NotPrefix(m, key, d);
  }

  /** Folding the top group gives the branch node of the trie. */
  lemma FoldedBranch(keccak: Keccak, m: Entries, key: Path, value: Bytes, d: nat, mask: Mask)
    requires d < |key| && AllBefore(m, key) && Digits(m, key[..d], key[d]) != {}
    requires mask == Digits(m, key[..d], key[d]) + {key[d]}
    ensures var n, p, q := m[key := value], key[..d], key[..d + 1];
      Under(n, p) != map[] && Under(n, q) != map[] &&
      var refs := Refs(keccak, m, p, key[d]) + [NodeRef(keccak, NodeRlp(keccak, Under(n, q), q))];
      |refs| == Count(mask, 16) &&
      Rlp.EncodeList(Fill(mask, refs, 16) + [Rlp.EMPTY_STRING_CODE]) == NodeRlp(keccak, Under(n, p), p)
  {
    hide NodeRlp, Stem, Refs, ChildRefs;
    var n, p := m[key := value], key[..d];
    GroupForks(m, key, value, d);
    NewDigits(m, key, value, d, 16);
    NewChild(keccak, m, key, value, d, 16);
    assert Under(n, p)[key] == value;
    RefsCount(keccak, n, p, 16, mask);
    FillIsChildren(keccak, n, p, 16);
    BranchNode(keccak, Under(n, p), p);
  }

  /** The groups carry over in the same way as the stack. */
  lemma GroupedNext(groups: seq<Mask>, m: Entries, key: Path, value: Bytes, next: Path)
    requires AllBefore(m, key) && Before(key, next)
    requires var c := CommonLen(key, next);
      && |groups| == c + 1
      && groups[c] == Digits(m, key[..c], key[c]) + {key[c]}
      && forall d | 0 <= d < c :: groups[d] == Digits(m, key[..d], key[d])
    ensures Grouped(groups, m[key := value], next, |next|)
  {
    var n, c := m[key := value], CommonLen(key, next);
    forall d | 0 <= d < |next|
      ensures Digits(n, next[..d], next[d]) == if d < |groups| then groups[d] else {}
    {
      if d < c {
        SameLevel(seq32 => seq(32, _ => 0), m, key, value, next, d);
      } else if d == c {
        NewDigits(m, key, value, c, next[c]);
      } else {
        forall x: Nibble
          ensures Under(n, next[..d] + [x]) == map[]
        {
          EmptyLevel(m, key, value, next, d, x);
        }
      }
    }
  }

  lemma StackedUnfold(keccak: Keccak, m: Entries, key: Path, d: nat)
    requires d < |key|
    ensures Stacked(keccak, m, key, 0) == []
    ensures Stacked(keccak, m, key, d + 1) == Stacked(keccak, m, key, d) + Refs(keccak, m, key[..d], key[d])
  {
  }

  lemma CommonLenSymmetric(a: seq<int>, b: seq<int>)
    ensures CommonLen(a, b) == CommonLen(b, a)
  {
    CommonLenUnique(b, a, CommonLen(a, b));
  }

  lemma SharedWithPrefix(succ: Path, full: Path, len: nat)
    requires CommonLen(succ, full) < len <= |full|
    ensures CommonLen(succ, full[..len]) == CommonLen(succ, full)
  {
    var c := CommonLen(succ, full);
    assert full[..len][..c] == full[..c];
    CommonLenUnique(succ, full[..len], c);
  }

  /** A leaf hung at depth `r` stands for everything under the first `r` digits. */
  lemma AttachedLeaf(keccak: Keccak, m: Entries, key: Path, value: Bytes, r: nat)
    requires r <= |key| && AllBefore(m, key)
    requires forall d | r <= d < |key| :: Digits(m, key[..d], key[d]) == {}
    ensures Stacked(keccak, m, key, r) == Stacked(keccak, m, key, |key|)
    ensures var under := Under(m[key := value], key[..r]);
      under != map[] && NodeRlp(keccak, under, key[..r]) == LeafRlp(key[r..], value)
  {
    hide NodeRlp, Stem, Stacked;
    SkipStacked(keccak, m, key, r, |key|);
    SkipUnder(m, key, value, r, |key|);
    assert key[..|key|] == key;
    LeafOnly(m, key, value);
    LeafNode(keccak, key, value, key[..r]);
  }

  /** An extension does the same for the branch node below it. */
  lemma AttachedExtension(keccak: Keccak, m: Entries, key: Path, value: Bytes, r: nat, len: nat)
    requires r <= len <= |key| && AllBefore(m, key)
    requires forall d | r <= d < len :: Digits(m, key[..d], key[d]) == {}
    requires Branches(Under(m[key := value], key[..len]), key[..len]) && key[..len] !in m[key := value]
    ensures Stacked(keccak, m, key, r) == Stacked(keccak, m, key, len)
    ensures var under := Under(m[key := value], key[..r]);
      && under != map[]
      && NodeRlp(keccak, under, key[..r]) ==
         var node := NodeRlp(keccak, Under(m[key := value], key[..len]), key[..len]);
         if r == len then node else ExtensionRlp(key[r..len], NodeRef(keccak, node))
  {
    hide NodeRlp, Stem, Stacked;
    SkipStacked(keccak, m, key, r, len);
    SkipUnder(m, key, value, r, len);
    if r < len {
      ExtensionNode(keccak, Under(m[key := value], key[..len]), key[..r], key[..len]);
      assert key[..len][r..] == key[r..len];
    }
  }

  lemma MasksShorter(groups: seq<Mask>, m: Entries, key: Path, len: nat)
    requires MasksBelow(groups, m, key, len)
    ensures MasksBelow(groups[..len], m, key, len)
  {
  }

  lemma NextKey(groups: seq<Mask>, stack: seq<Bytes>, keccak: Keccak, m: Entries, key: Path, value: Bytes, next: Path)
    requires AllBefore(m, key) && Before(key, next)
    requires var c := CommonLen(key, next);
      && |groups| == c + 1
      && groups[c] == Digits(m, key[..c], key[c]) + {key[c]}
      && MasksBelow(groups, m, key, c)
      && NodeOnTop(stack, keccak, m, key, value, c + 1)
    ensures Grouped(groups, m[key := value], next, |next|)
    ensures stack == Stacked(keccak, m[key := value], next, |next|)
  {
    hide NodeRlp, Stem, Stacked, Digits, Refs;
    GroupedNext(groups, m, key, value, next);
    StackedNext(keccak, m, key, value, next, |next|);
    StackedUnfold(keccak, m, key, CommonLen(key, next));
  }

  lemma WholeTrie(stack: seq<Bytes>, keccak: Keccak, m: Entries, key: Path, value: Bytes)
    requires key != [] && NodeOnTop(stack, keccak, m, key, value, 0)
    ensures m[key := value] != map[]
    ensures stack == [NodeRef(keccak, NodeRlp(keccak, m[key := value], []))]
  {
    hide NodeRlp, Stem;
    assert Under(m[key := value], []) == m[key := value];
    assert key in m[key := value];
  }

  lemma {:induction false} StackedEmpty(keccak: Keccak, key: Path, d: nat)
    requires d <= |key|
    ensures Stacked(keccak, map[], key, d) == []
  {
    hide NodeRlp, Stem, Refs;
    if d > 0 {
      StackedEmpty(keccak, key, d - 1);
      RefsFlat(keccak, map[], key[..d - 1], 0, key[d - 1]);
    }
  }

  class HashBuilder {
    const keccak: Keccak

    var key: Path
    var value: Bytes
    var groups: seq<Mask>
    var stack: seq<Bytes>

    /** The entries already folded into `groups` and `stack`. */
    ghost var folded: Entries

    ghost function Contents(): (m: Entries)
      reads this
    {
      if key == [] then folded else folded[key := value]
    }

    ghost predicate Finalized()
      reads this
    {
      key == [] && folded != map[]
    }

    ghost predicate Valid()
      reads this
    {
      if key != [] then
        && AllBefore(folded, key)
        && Grouped(groups, folded, key, |key|)
        && stack == Stacked(keccak, folded, key, |key|)
      else
        && groups == []
        && stack == if folded == map[] then [] else [NodeRef(keccak, NodeRlp(keccak, folded, []))]
    }

    constructor (keccak: Keccak)
      ensures Valid() && !Finalized() && Contents() == map[] && key == []
      ensures this.keccak == keccak
    {
      this.keccak := keccak;
      key, value, groups, stack, folded := [], [], [], [], map[];
    }

    method Add(packed: Bytes, value: Bytes)
      requires Valid() && !Finalized()
      requires if key == [] then packed != [] else Before(key, Unpack(packed))
      modifies this
      ensures Valid() && !Finalized()
      ensures key == Unpack(packed) && this.value == value
      ensures Contents() == old(Contents())[Unpack(packed) := value]
    {
      var newKey := UnpackNibbles(packed);
      if key != [] {
        GenStructStep(key, newKey, this.value, folded);
        folded := folded[key := this.value];
        forall k | k in folded
          ensures Before(k, newKey)
        {
          if k != key { BeforeTransitive(k, key, newKey); }
        }
      } else {
        StackedEmpty(keccak, newKey, |newKey|);
      }
      key := newKey;
      this.value := value;
    }

    method Finalize()
      requires Valid()
      modifies this
      ensures Valid() && key == []
      ensures Contents() == old(Contents())
    {
      hide NodeRlp, Stem, Stacked;
      if key != [] {
        GenStructStep(key, [], value, folded);
        WholeTrie(stack, keccak, folded, key, value);
        folded := folded[key := value];
        key, value := [], [];
      }
    }

    method RootHash() returns (root: Bytes32)
      requires Valid()
      modifies this
      ensures Valid()
      ensures Contents() == old(Contents())
      ensures root == Root(keccak, Contents())
    {
      hide NodeRlp, Stem;
      Finalize();
      if stack == [] {
        return EMPTY_ROOT;
      }
      var nodeRef := stack[|stack| - 1];
      if |nodeRef| == 33 {
        root := nodeRef[1..];
      } else {
        root := keccak(nodeRef);
      }
    }

    /** Takes the children from the stack and replaces them with the branch node's reference. */
    method BranchRef(stateMask: Mask)
      requires Count(stateMask, 16) <= |stack|
      modifies `stack
      ensures var first := |old(stack)| - Count(stateMask, 16);
        stack == old(stack)[..first] +
          [NodeRef(keccak, Rlp.EncodeList(Fill(stateMask, old(stack)[first..], 16) + [Rlp.EMPTY_STRING_CODE]))]
    {
      var first := |stack| - Count(stateMask, 16);
      ghost var refs := stack[first..];
      var payloadLength := 1;
      var i := first;
      for digit := 0 to 16
        invariant i == first + Count(stateMask, digit)
        invariant Count(stateMask, digit) <= |refs|
        invariant payloadLength == 1 + |Fill(stateMask, refs, digit)|
        invariant stack == old(stack)
      {
        CountMonotone(stateMask, digit + 1, 16);
        if digit in stateMask {
          payloadLength := payloadLength + |stack[i]|;
          i := i + 1;
        } else {
          payloadLength := payloadLength + 1;
        }
      }

      var rlp := Rlp.EncodeHeader(true, payloadLength);
      ghost var header := rlp;
      i := first;
      for digit := 0 to 16
        invariant i == first + Count(stateMask, digit)
        invariant Count(stateMask, digit) <= |refs|
        invariant rlp == header + Fill(stateMask, refs, digit)
        invariant stack == old(stack)
      {
        CountMonotone(stateMask, digit + 1, 16);
        if digit in stateMask {
          rlp := rlp + stack[i];
          i := i + 1;
        } else {
          rlp := rlp + [Rlp.EMPTY_STRING_CODE];
        }
      }
      rlp := rlp + [Rlp.EMPTY_STRING_CODE];
      assert rlp == header + (Fill(stateMask, refs, 16) + [Rlp.EMPTY_STRING_CODE]);
      stack := stack[..first] + [NodeRef(keccak, rlp)];
    }

    /** Records `digit` at depth `len`, widening the groups if needed. */
    method SetDigit(len: nat, digit: Nibble, ghost m: Entries, ghost full: Path, ghost depth: nat)
      requires Grouped(groups, m, full, depth) && |groups| - 1 <= len < depth && digit == full[len]
      modifies `groups
      ensures |groups| == len + 1 && groups[len] == Digits(m, full[..len], digit) + {digit}
      ensures MasksBelow(groups, m, full, len)
      ensures old(|groups|) == len + 1 ==> Digits(m, full[..len], digit) != {}
      ensures NoSiblings(m, full, len + 1, depth)
      ensures old(groups) == [] ==> NoSiblings(m, full, 0, depth)
    {
      if |groups| <= len {
        groups := groups + seq(len + 1 - |groups|, _ => {});
      }
      groups := groups[len := groups[len] + {digit}];
    }

    /** Drops empty groups from the top. */
    method DropEmptyGroups(ghost m: Entries, ghost full: Path)
      requires |groups| <= |full| && MasksBelow(groups, m, full, |groups|)
      modifies `groups
      ensures Grouped(groups, m, full, old(|groups|))
    {
      ghost var depth := |groups|;
      while groups != [] && groups[|groups| - 1] == {}
        invariant |groups| <= depth
        invariant forall d | 0 <= d < depth ::
          Digits(m, full[..d], full[d]) == if d < |groups| then groups[d] else {}
      {
        groups := groups[..|groups| - 1];
      }
    }

    /** Pushes the leaf of `full`, or hangs the branch on top of the stack from an
        extension, so that the top stands for all entries under the first `r` digits. */
    method PushShortNode(buildExtensions: bool, curr: Path, r: nat, val: Bytes, ghost m: Entries, ghost full: Path)
      requires |curr| <= |full| && curr == full[..|curr|] && r <= |curr|
      requires AllBefore(m, full) && NoSiblings(m, full, r, |curr|)
      requires !buildExtensions ==> curr == full && stack == Stacked(keccak, m, full, |full|)
      requires buildExtensions ==> BranchOnTop(stack, keccak, m, full, val, |curr|)
      modifies `stack
      ensures NodeOnTop(stack, keccak, m, full, val, r)
    {
      hide NodeRlp, Stem, Stacked, Digits;
      var shortNodeKey := curr[r..];
      if !buildExtensions {
        AttachedLeaf(keccak, m, full, val, r);
        var rlp := LeafNodeRlp(shortNodeKey, val);
        stack := stack + [NodeRef(keccak, rlp)];
      } else {
        AttachedExtension(keccak, m, full, val, r, |curr|);
        if shortNodeKey != [] {
          var rlp := ExtensionNodeRlp(shortNodeKey, stack[|stack| - 1]);
          stack := stack[..|stack| - 1] + [NodeRef(keccak, rlp)];
        }
      }
    }

    /** Folds the finished children at depth `len` into their branch node. */
    method CloseGroup(len: nat, mask: Mask, ghost val: Bytes, ghost m: Entries, ghost full: Path)
      requires len < |full| && AllBefore(m, full)
      requires Digits(m, full[..len], full[len]) != {}
      requires mask == Digits(m, full[..len], full[len]) + {full[len]}
      requires NodeOnTop(stack, keccak, m, full, val, len + 1)
      modifies `stack
      ensures BranchOnTop(stack, keccak, m, full, val, len)
      ensures NodeOnTop(stack, keccak, m, full, val, len)
    {
      hide NodeRlp, Stem, Stacked, Digits, Refs;
      FoldedBranch(keccak, m, full, val, len, mask);
      StackedUnfold(keccak, m, full, len);
      GroupForks(m, full, val, len);
      ghost var q := full[..len + 1];
      ghost var refs := Refs(keccak, m, full[..len], full[len]) +
                        [NodeRef(keccak, NodeRlp(keccak, Under(m[full := val], q), q))];
      assert stack == Stacked(keccak, m, full, len) + refs;
      BranchRef(mask);
    }

    method GenStructStep(full: Path, succ: Path, val: Bytes, ghost m: Entries)
      requires full != [] && AllBefore(m, full)
      requires succ == [] || Before(full, succ)
      requires Grouped(groups, m, full, |full|)
      requires stack == Stacked(keccak, m, full, |full|)
      modifies `groups, `stack
      ensures succ != [] ==> Grouped(groups, m[full := val], succ, |succ|)
      ensures succ != [] ==> stack == Stacked(keccak, m[full := val], succ, |succ|)
      ensures succ == [] ==> groups == [] && NodeOnTop(stack, keccak, m, full, val, 0)
    {
      hide Stacked, Digits, AllBefore, NodeOnTop, BranchOnTop, MasksBelow, NoSiblings;
      var curr := full;
      var buildExtensions := false;
      while true
        invariant 0 < |curr| <= |full| && curr == full[..|curr|]
        invariant CommonLen(succ, full) < |curr|
        invariant Grouped(groups, m, full, |curr|)
        invariant !buildExtensions ==> curr == full && stack == Stacked(keccak, m, full, |full|)
        invariant buildExtensions ==> BranchOnTop(stack, keccak, m, full, val, |curr|)
        decreases |curr|
      {
        var precExists := groups != [];
        var precLen := if groups == [] then 0 else |groups| - 1;
        SharedWithPrefix(succ, full, |curr|);
        var succLen := PrefixLength(succ, curr);
        var len := if precLen < succLen then succLen else precLen;

        SetDigit(len, curr[len], m, full, |curr|);
        var remainderStart := len;
        if succ != [] || precExists {
          remainderStart := remainderStart + 1;
        }
        PushShortNode(buildExtensions, curr, remainderStart, val, m, full);

        if precLen <= succLen && succ != [] {
          CommonLenSymmetric(full, succ);
          NextKey(groups, stack, keccak, m, full, val, succ);
          return;
        }

        if succ != [] || precExists {
          CloseGroup(len, groups[len], val, m, full);
        }
        MasksShorter(groups, m, full, len);
        groups := groups[..len];
        if precLen == 0 {
          return;
        }

        curr := curr[..precLen];
        DropEmptyGroups(m, full);
        buildExtensions := true;
      }
    }
  }
}
