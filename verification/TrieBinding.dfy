/** The root commits to the entries: maps with the same root are equal, or Keccak-256 has the same value for two
    different nodes of theirs. */
module TrieBinding {
  import opened Basics
  import opened Trie
  import opened HashBuilding
  import opened Rlp
  import opened RlpDecode
  import opened RlpItems
  import VectorRoot

  // --- items ---

  lemma StringUnique(a: Bytes, x: Bytes, b: Bytes, y: Bytes)
    requires |a| < Pow256(8) && |b| < Pow256(8) && EncodeString(a) + x == EncodeString(b) + y
    ensures a == b && x == y
  {
    hide EncodeString, EncodeList;
    ItemUnique(false, a, x, false, b, y);
  }

  /** A short node stands for itself, a long one for the string of its hash. */
  lemma RefForms(keccak: Keccak, rlp: Bytes)
    ensures NodeRef(keccak, rlp) == if |rlp| <= 31 then rlp else EncodeString(keccak(rlp))
    ensures |NodeRef(keccak, rlp)| <= 33
  {
  }

  /** The encoding is that of a list of less than 2^64 bytes. */
  ghost predicate IsList(s: Bytes, payload: Bytes)
  {
    s == EncodeList(payload) && |payload| < Pow256(8)
  }

  lemma Pow256Of8()
    ensures Pow256(8) == 0x1_0000_0000_0000_0000
  {
    assert Pow256(4) == 0x1_0000_0000;
  }

  lemma HashFits(keccak: Keccak, s: Bytes)
    ensures |keccak(s)| < Pow256(8)
  {
    Pow256Of8();
  }

  /** A reference, wherever it stands, tells the node or leaves two nodes with one hash. */
  lemma RefUnique(keccak: Keccak, s: Bytes, a: Bytes, x: Bytes, t: Bytes, b: Bytes, y: Bytes)
    requires IsList(s, a) && IsList(t, b) && NodeRef(keccak, s) + x == NodeRef(keccak, t) + y
    ensures x == y && (s == t || (s != t && keccak(s) == keccak(t)))
  {
    hide Pow256, EncodeList, EncodeString;
    RefForms(keccak, s);
    RefForms(keccak, t);
    HashFits(keccak, s);
    HashFits(keccak, t);
    ItemUnique(|s| <= 31, if |s| <= 31 then a else keccak(s), x, |t| <= 31, if |t| <= 31 then b else keccak(t), y);
  }

  lemma RefIsItem(keccak: Keccak, s: Bytes, a: Bytes)
    requires IsList(s, a)
    ensures exists list, c :: |c| < Pow256(8) && NodeRef(keccak, s) == Item(list, c)
    ensures NodeRef(keccak, s) != []
  {
    hide Pow256, EncodeList, EncodeString;
    RefForms(keccak, s);
    HashFits(keccak, s);
    var list, c := |s| <= 31, if |s| <= 31 then a else keccak(s);
    assert NodeRef(keccak, s) == Item(list, c);
    ItemSome(list, c);
  }

  lemma ItemSome(list: bool, c: Bytes)
    ensures Item(list, c) != []
  {
  }

  /** A reference is not the code of the empty string. */
  lemma RefNotEmpty(keccak: Keccak, s: Bytes, a: Bytes, x: Bytes, y: Bytes)
    requires IsList(s, a)
    ensures NodeRef(keccak, s) + x != [EMPTY_STRING_CODE] + y
  {
    hide Pow256, EncodeList;
    RefForms(keccak, s);
    HashFits(keccak, s);
    assert EncodeString([]) == [EMPTY_STRING_CODE];
    if NodeRef(keccak, s) + x == [EMPTY_STRING_CODE] + y {
      Pow256Of8();
      ItemUnique(|s| <= 31, if |s| <= 31 then a else keccak(s), x, false, [], y);
    }
  }

  // --- nodes ---

  /** No key is a proper prefix of another, and keys and values are shorter than 2^60 together. */
  ghost predicate Modest(m: Entries)
  {
    && (forall k, k' | k in m && k' in m && k <= k' :: k == k')
    && forall k <- m :: |k| + |m[k]| < 0x1000_0000_0000_0000
  }

  lemma ModestUnder(m: Entries, p: Path)
    requires Modest(m)
    ensures Modest(Under(m, p)) && AllUnder(Under(m, p), p)
  {
  }

  /** `s` encodes a node of the trie of `m` at or below path `p`: that of the entries under some longer path. */
  ghost predicate IsNode(keccak: Keccak, m: Entries, p: Path, s: Bytes)
  {
    exists q: Path :: p <= q && Under(m, q) != map[] && AllUnder(Under(m, q), q) && s == NodeRlp(keccak, Under(m, q), q)
  }

  /** Two different nodes, one of each trie, have the same hash. */
  ghost predicate Collide(keccak: Keccak, m: Entries, n: Entries, p: Path)
  {
    exists s, t :: s != t && keccak(s) == keccak(t) && IsNode(keccak, m, p, s) && IsNode(keccak, n, p, t)
  }

  lemma UnderAll(m: Entries, p: Path)
    requires AllUnder(m, p)
    ensures Under(m, p) == m
  {
  }

  lemma NodeOf(keccak: Keccak, m: Entries, p: Path, q: Path)
    requires m != map[] && AllUnder(m, q) && p <= q
    ensures IsNode(keccak, m, p, NodeRlp(keccak, m, q))
  {
    hide NodeRlp, Under;
    UnderAll(m, q);
  }

  lemma NodeUnder(keccak: Keccak, m: Entries, p: Path, q: Path, s: Bytes)
    requires p <= q && IsNode(keccak, Under(m, q), q, s)
    ensures IsNode(keccak, m, p, s)
  {
    hide NodeRlp;
    var r: Path :| q <= r && Under(Under(m, q), r) != map[] && AllUnder(Under(Under(m, q), r), r) && s == NodeRlp(keccak, Under(Under(m, q), r), r);
    assert Under(Under(m, q), r) == Under(m, r);
  }

  lemma CollideUnder(keccak: Keccak, m: Entries, n: Entries, p: Path, q: Path)
    requires p <= q && Collide(keccak, Under(m, q), Under(n, q), q)
    ensures Collide(keccak, m, n, p)
  {
    hide IsNode, Under;
    var s, t :| s != t && keccak(s) == keccak(t) && IsNode(keccak, Under(m, q), q, s) && IsNode(keccak, Under(n, q), q, t);
    NodeUnder(keccak, m, p, q, s);
    NodeUnder(keccak, n, p, q, t);
  }

  // --- the shapes of nodes ---

  datatype Shape = Leaf(key: Path) | Extension(stem: Path) | Fork

  ghost function ShapeOf(m: Entries, p: Path): (shape: Shape)
    requires m != map[] && AllUnder(m, p)
  {
    var k := AnyKey(m);
    if m.Keys == {k} then Leaf(k) else if Stem(m, p) != p then Extension(Stem(m, p)) else Fork
  }

  /** What is inside the list of a node. */
  ghost function Payload(keccak: Keccak, m: Entries, p: Path): (s: Bytes)
    requires m != map[] && AllUnder(m, p)
  {
    match ShapeOf(m, p)
    case Leaf(k) => EncodeString(HexPrefix(k[|p|..], true)) + EncodeString(m[k])
    case Extension(q) => EncodeString(HexPrefix(q[|p|..], false)) + NodeRef(keccak, NodeRlp(keccak, m, q))
    case Fork => Slots(keccak, m, p, 0)
  }

  /** The reference to the child of digit `d`, or the empty string. */
  ghost function Slot(keccak: Keccak, m: Entries, p: Path, d: Nibble): (s: Bytes)
  {
    var child := Under(m, p + [d]);
    if child == map[] then [EMPTY_STRING_CODE] else NodeRef(keccak, NodeRlp(keccak, child, p + [d]))
  }

  /** The slots of a branch from digit `d` on, and its value. */
  ghost function Slots(keccak: Keccak, m: Entries, p: Path, d: nat): (s: Bytes)
    requires d <= 16
    decreases 16 - d
  {
    if d == 16 then (if p in m then EncodeString(m[p]) else [EMPTY_STRING_CODE])
    else Slot(keccak, m, p, d) + Slots(keccak, m, p, d + 1)
  }

  lemma {:induction false} SlotsAre(keccak: Keccak, m: Entries, p: Path, d: nat)
    requires d <= 16 && Branches(m, p)
    ensures ChildRefs(keccak, m, p, d) + Slots(keccak, m, p, d) == Slots(keccak, m, p, 0)
  {
    hide ChildRefs, Slots, Slot, Branches;
    if d == 0 {
      NoChildren(keccak, m, p);
    } else {
      SlotsAre(keccak, m, p, d - 1);
      NextSlot(keccak, m, p, d - 1);
      Regroup(ChildRefs(keccak, m, p, d - 1), Slot(keccak, m, p, d - 1), Slots(keccak, m, p, d));
    }
  }

  lemma Regroup(x: Bytes, y: Bytes, z: Bytes)
    ensures x + (y + z) == x + y + z
  {
  }

  lemma NoChildren(keccak: Keccak, m: Entries, p: Path)
    requires Branches(m, p)
    ensures ChildRefs(keccak, m, p, 0) == []
  {
  }

  lemma NextSlot(keccak: Keccak, m: Entries, p: Path, d: nat)
    requires d < 16 && Branches(m, p)
    ensures Slots(keccak, m, p, d) == Slot(keccak, m, p, d) + Slots(keccak, m, p, d + 1)
    ensures ChildRefs(keccak, m, p, d + 1) == ChildRefs(keccak, m, p, d) + Slot(keccak, m, p, d)
  {
    hide NodeRlp, Under, NodeRef, Slots;
    OneSlot(keccak, m, p, d);
  }

  lemma OneSlot(keccak: Keccak, m: Entries, p: Path, d: nat)
    requires d < 16
    ensures Slots(keccak, m, p, d) == Slot(keccak, m, p, d) + Slots(keccak, m, p, d + 1)
  {
    hide Slot;
  }

  lemma NodeIsList(keccak: Keccak, m: Entries, p: Path)
    requires m != map[] && AllUnder(m, p)
    ensures NodeRlp(keccak, m, p) == EncodeList(Payload(keccak, m, p))
  {
    hide EncodeList, EncodeString, HexPrefix, NodeRef, Under;
    if ShapeOf(m, p).Fork? {
      SlotsAre(keccak, m, p, 16);
    }
  }

  /** Nodes are far from the largest length that a header can hold. */
  lemma {:induction false} PayloadFits(keccak: Keccak, m: Entries, p: Path)
    requires m != map[] && AllUnder(m, p) && Modest(m)
    ensures |Payload(keccak, m, p)| < Pow256(8)
  {
    hide Pow256, NodeRlp, NodeRef, EncodeString, Under;
    Pow256Of8();
    var k := AnyKey(m);
    match ShapeOf(m, p)
    case Leaf(_) =>
      StringFits(HexPrefix(k[|p|..], true));
      StringFits(m[k]);
    case Extension(q) =>
      assert q <= k;
      StringFits(HexPrefix(q[|p|..], false));
      RefForms(keccak, NodeRlp(keccak, m, q));
    case Fork =>
      SlotsFit(keccak, m, p, 0);
  }

  lemma StringFits(s: Bytes)
    ensures |s| < 0x4000_0000_0000_0000 ==> |EncodeString(s)| <= |s| + 9
  {
    Pow256Of8();
    BigEndianBound(|s|, if |s| < Pow256(8) then 8 else |s|) by { if |s| >= Pow256(8) { Enough(|s|); } }
  }

  lemma {:induction false} Enough(n: nat)
    ensures n < Pow256(n)
  {
    if n > 0 { Enough(n - 1); }
  }

  lemma {:induction false} SlotsFit(keccak: Keccak, m: Entries, p: Path, d: nat)
    requires d <= 16 && Modest(m)
    ensures |Slots(keccak, m, p, d)| <= 33 * (16 - d) + 0x2000_0000_0000_0000
    decreases 16 - d
  {
    hide EncodeString, Slot;
    if d == 16 {
      if p in m { StringFits(m[p]); }
    } else {
      SlotsFit(keccak, m, p, d + 1);
      SlotFits(keccak, m, p, d);
    }
  }

  lemma SlotFits(keccak: Keccak, m: Entries, p: Path, d: Nibble)
    ensures 0 < |Slot(keccak, m, p, d)| <= 33
  {
    hide NodeRlp, NodeRef;
    var child := Under(m, p + [d]);
    if child != map[] {
      var rlp := NodeRlp(keccak, child, p + [d]);
      RefForms(keccak, rlp);
      NodeIsList(keccak, child, p + [d]);
      assert NodeRef(keccak, rlp) != [] by { RefSome(keccak, Payload(keccak, child, p + [d])); }
    }
  }

  lemma RefSome(keccak: Keccak, payload: Bytes)
    ensures NodeRef(keccak, EncodeList(payload)) != []
  {
  }

  // --- nodes with the same encoding ---

  lemma SamePayload(keccak: Keccak, m: Entries, n: Entries, p: Path)
    requires m != map[] && n != map[] && AllUnder(m, p) && AllUnder(n, p) && Modest(m) && Modest(n)
    requires NodeRlp(keccak, m, p) == NodeRlp(keccak, n, p)
    ensures Payload(keccak, m, p) == Payload(keccak, n, p)
  {
    hide Pow256, EncodeList, EncodeString, Payload, NodeRlp, Modest;
    NodeIsList(keccak, m, p);
    NodeIsList(keccak, n, p);
    PayloadFits(keccak, m, p);
    PayloadFits(keccak, n, p);
    var a, b := Payload(keccak, m, p), Payload(keccak, n, p);
    assert Item(true, a) + [] == Item(true, b) + [];
    ItemUnique(true, a, [], true, b, []);
  }

  lemma PathFits(x: Path, terminating: bool)
    requires |x| < 0x1000_0000_0000_0000
    ensures |HexPrefix(x, terminating)| < Pow256(8)
  {
    hide Pack;
    Pow256Of8();
  }

  lemma Fits(s: Bytes)
    requires |s| < 0x1000_0000_0000_0000
    ensures |s| < Pow256(8)
  {
    Pow256Of8();
  }

  lemma LeavesBind(x: Path, v: Bytes, y: Path, w: Bytes)
    requires |x| + |v| < 0x1000_0000_0000_0000 && |y| + |w| < 0x1000_0000_0000_0000
    requires EncodeString(HexPrefix(x, true)) + EncodeString(v) == EncodeString(HexPrefix(y, true)) + EncodeString(w)
    ensures x == y && v == w
  {
    hide Pow256, EncodeString, HexPrefix;
    PathFits(x, true);
    PathFits(y, true);
    Fits(v);
    Fits(w);
    StringUnique(HexPrefix(x, true), EncodeString(v), HexPrefix(y, true), EncodeString(w));
    HexPrefixInjective(x, true, y, true);
    assert EncodeString(v) + [] == EncodeString(w) + [];
    StringUnique(v, [], w, []);
  }

  lemma LeafNoExtension(x: Path, v: Bytes, y: Path, ref: Bytes)
    requires |x| < 0x1000_0000_0000_0000 && |y| < 0x1000_0000_0000_0000
    ensures EncodeString(HexPrefix(x, true)) + EncodeString(v) != EncodeString(HexPrefix(y, false)) + ref
  {
    hide Pow256, EncodeString, HexPrefix;
    PathFits(x, true);
    PathFits(y, false);
    if EncodeString(HexPrefix(x, true)) + EncodeString(v) == EncodeString(HexPrefix(y, false)) + ref {
      StringUnique(HexPrefix(x, true), EncodeString(v), HexPrefix(y, false), ref);
      HexPrefixInjective(x, true, y, false);
    }
  }

  lemma SlotIsItem(keccak: Keccak, m: Entries, p: Path, d: Nibble) returns (list: bool, c: Bytes)
    requires Modest(m)
    ensures |c| < Pow256(8) && Slot(keccak, m, p, d) == Item(list, c)
  {
    hide Pow256, NodeRlp, NodeRef, EncodeList, EncodeString, Payload;
    var child := Under(m, p + [d]);
    if child == map[] {
      list, c := false, [];
      Pow256Of8();
      assert EncodeString([]) == [EMPTY_STRING_CODE] by { EmptyString(); }
    } else {
      ModestUnder(m, p + [d]);
      NodeIsList(keccak, child, p + [d]);
      PayloadFits(keccak, child, p + [d]);
      RefIsItem(keccak, NodeRlp(keccak, child, p + [d]), Payload(keccak, child, p + [d]));
      list, c :| |c| < Pow256(8) && NodeRef(keccak, NodeRlp(keccak, child, p + [d])) == Item(list, c);
    }
  }

  lemma EmptyString()
    ensures EncodeString([]) == [EMPTY_STRING_CODE]
  {
  }

  /** A branch has more than two items. */
  lemma TwoNoFork(keccak: Keccak, a: Bytes, list: bool, b: Bytes, m: Entries, p: Path)
    requires |a| < Pow256(8) && |b| < Pow256(8) && Modest(m)
    ensures EncodeString(a) + Item(list, b) != Slots(keccak, m, p, 0)
  {
    hide Pow256, EncodeString, EncodeList, Slots, Slot, Modest;
    var list0, c0 := SlotIsItem(keccak, m, p, 0);
    var list1, c1 := SlotIsItem(keccak, m, p, 1);
    OneSlot(keccak, m, p, 0);
    OneSlot(keccak, m, p, 1);
    if EncodeString(a) + Item(list, b) == Slots(keccak, m, p, 0) {
      assert EncodeString(a) == Item(false, a);
      ItemUnique(false, a, Item(list, b), list0, c0, Slots(keccak, m, p, 1));
      assert Item(list, b) + [] == Item(list1, c1) + Slots(keccak, m, p, 2);
      ItemUnique(list, b, [], list1, c1, Slots(keccak, m, p, 2));
      SlotsSome(keccak, m, p, 2);
    }
  }

  lemma {:induction false} SlotsSome(keccak: Keccak, m: Entries, p: Path, d: nat)
    requires d < 16
    ensures Slots(keccak, m, p, d) != []
  {
    hide Slots, Slot;
    OneSlot(keccak, m, p, d);
    SlotFits(keccak, m, p, d);
  }

  /** The first item of a node that is no branch. */
  ghost function FirstOf(m: Entries, p: Path): (s: Bytes)
    requires m != map[] && AllUnder(m, p) && !ShapeOf(m, p).Fork?
  {
    match ShapeOf(m, p)
    case Leaf(k) => HexPrefix(k[|p|..], true)
    case Extension(q) => HexPrefix(q[|p|..], false)
  }

  lemma TwoItems(keccak: Keccak, m: Entries, p: Path) returns (list: bool, b: Bytes)
    requires m != map[] && AllUnder(m, p) && Modest(m) && !ShapeOf(m, p).Fork?
    ensures |FirstOf(m, p)| < Pow256(8) && |b| < Pow256(8)
    ensures Payload(keccak, m, p) == EncodeString(FirstOf(m, p)) + Item(list, b)
  {
    hide Pow256, NodeRlp, NodeRef, EncodeString, EncodeList, HexPrefix, Under;
    var k := AnyKey(m);
    match ShapeOf(m, p)
    case Leaf(_) =>
      list, b := false, m[k];
      PathFits(k[|p|..], true);
      Fits(m[k]);
    case Extension(q) =>
      assert q <= k;
      PathFits(q[|p|..], false);
      NodeIsList(keccak, m, q);
      PayloadFits(keccak, m, q);
      RefIsItem(keccak, NodeRlp(keccak, m, q), Payload(keccak, m, q));
      list, b :| |b| < Pow256(8) && NodeRef(keccak, NodeRlp(keccak, m, q)) == Item(list, b);
  }

  lemma ForkOnly(keccak: Keccak, m: Entries, n: Entries, p: Path)
    requires m != map[] && n != map[] && AllUnder(m, p) && AllUnder(n, p) && Modest(m) && Modest(n)
    requires Payload(keccak, m, p) == Payload(keccak, n, p)
    ensures ShapeOf(m, p).Fork? <==> ShapeOf(n, p).Fork?
  {
    hide Pow256, EncodeString, EncodeList, Slots, Modest, ShapeOf, FirstOf, NodeRlp, NodeRef, HexPrefix;
    if !ShapeOf(m, p).Fork? && ShapeOf(n, p).Fork? {
      var list, b := TwoItems(keccak, m, p);
      TwoNoFork(keccak, FirstOf(m, p), list, b, n, p);
    }
    if ShapeOf(m, p).Fork? && !ShapeOf(n, p).Fork? {
      var list, b := TwoItems(keccak, n, p);
      TwoNoFork(keccak, FirstOf(n, p), list, b, m, p);
    }
  }

  /** Entries with the same node are the same, unless two of their nodes have the same hash. */
  lemma {:induction false} NodeBinds(keccak: Keccak, m: Entries, n: Entries, p: Path)
    requires m != map[] && n != map[] && AllUnder(m, p) && AllUnder(n, p) && Modest(m) && Modest(n)
    requires NodeRlp(keccak, m, p) == NodeRlp(keccak, n, p)
    ensures m == n || Collide(keccak, m, n, p)
    decreases m.Keys, |Stem(m, p)| - |p|, 17
  {
    hide Pow256, EncodeString, EncodeList, HexPrefix, NodeRlp, NodeRef, Slots, Collide, Modest, Under;
    SamePayload(keccak, m, n, p);
    ForkOnly(keccak, m, n, p);
    match (ShapeOf(m, p), ShapeOf(n, p))
    case (Leaf(k), Leaf(k')) => LeavesSame(m, n, p, k, k');
    case (Leaf(k), Extension(q)) =>
      ShortPaths(m, p);
      ShortPaths(n, p);
      LeafNoExtension(k[|p|..], m[k], q[|p|..], NodeRef(keccak, NodeRlp(keccak, n, q)));
    case (Extension(q), Leaf(k)) =>
      ShortPaths(m, p);
      ShortPaths(n, p);
      LeafNoExtension(k[|p|..], n[k], q[|p|..], NodeRef(keccak, NodeRlp(keccak, m, q)));
    case (Extension(q), Extension(q')) =>
      ExtensionsBind(keccak, m, n, p, q, q');
      if NodeRlp(keccak, m, q) == NodeRlp(keccak, n, q) {
        StemIs(m, q, q);
        NodeBinds(keccak, m, n, q);
        if Collide(keccak, m, n, q) { CollideAbove(keccak, m, n, p, q); }
      } else {
        NodeOf(keccak, m, p, q);
        NodeOf(keccak, n, p, q);
        Colliding(keccak, m, n, p, NodeRlp(keccak, m, q), NodeRlp(keccak, n, q));
      }
    case (Fork, Fork) =>
      ForksBranch(m, p);
      ForksBranch(n, p);
      SlotsBind(keccak, m, n, p, 0);
      if !Collide(keccak, m, n, p) { ChildrenSame(m, n, p); }
    case (_, _) =>
  }

  lemma Colliding(keccak: Keccak, m: Entries, n: Entries, p: Path, s: Bytes, t: Bytes)
    requires s != t && keccak(s) == keccak(t) && IsNode(keccak, m, p, s) && IsNode(keccak, n, p, t)
    ensures Collide(keccak, m, n, p)
  {
  }

  lemma CollideAbove(keccak: Keccak, m: Entries, n: Entries, p: Path, q: Path)
    requires p <= q && AllUnder(m, q) && AllUnder(n, q) && Collide(keccak, m, n, q)
    ensures Collide(keccak, m, n, p)
  {
    hide Collide;
    UnderAll(m, q);
    UnderAll(n, q);
    CollideUnder(keccak, m, n, p, q);
  }

  lemma ShortPaths(m: Entries, p: Path)
    requires m != map[] && AllUnder(m, p) && Modest(m)
    ensures match ShapeOf(m, p)
      case Leaf(k) => p <= k && k in m && |k[|p|..]| + |m[k]| < 0x1000_0000_0000_0000
      case Extension(q) => p <= q && |q[|p|..]| < 0x1000_0000_0000_0000
      case Fork => true
  {
    var k := AnyKey(m);
    assert p <= k && |k| + |m[k]| < 0x1000_0000_0000_0000;
    var q := Stem(m, p);
    assert q <= k;
  }

  lemma LeavesSame(m: Entries, n: Entries, p: Path, k: Path, k': Path)
    requires m != map[] && n != map[] && AllUnder(m, p) && AllUnder(n, p) && Modest(m) && Modest(n)
    requires ShapeOf(m, p) == Leaf(k) && ShapeOf(n, p) == Leaf(k')
    requires EncodeString(HexPrefix(k[|p|..], true)) + EncodeString(m[k]) == EncodeString(HexPrefix(k'[|p|..], true)) + EncodeString(n[k'])
    ensures m == n
  {
    hide EncodeString, HexPrefix, Modest;
    ShortPaths(m, p);
    ShortPaths(n, p);
    LeavesBind(k[|p|..], m[k], k'[|p|..], n[k']);
    assert k == p + k[|p|..] && k' == p + k'[|p|..];
    assert m == map[k := m[k]] && n == map[k := n[k]];
  }

  lemma ExtensionsBind(keccak: Keccak, m: Entries, n: Entries, p: Path, q: Path, q': Path)
    requires m != map[] && n != map[] && AllUnder(m, p) && AllUnder(n, p) && Modest(m) && Modest(n)
    requires ShapeOf(m, p) == Extension(q) && ShapeOf(n, p) == Extension(q')
    requires EncodeString(HexPrefix(q[|p|..], false)) + NodeRef(keccak, NodeRlp(keccak, m, q)) ==
             EncodeString(HexPrefix(q'[|p|..], false)) + NodeRef(keccak, NodeRlp(keccak, n, q'))
    ensures q == q' && p <= q && Branches(m, q) && Branches(n, q)
    ensures var s, t := NodeRlp(keccak, m, q), NodeRlp(keccak, n, q); s == t || keccak(s) == keccak(t)
  {
    hide Pow256, EncodeString, HexPrefix, NodeRlp, NodeRef, Modest, Payload, EncodeList;
    ShortPaths(m, p);
    ShortPaths(n, p);
    PathFits(q[|p|..], false);
    PathFits(q'[|p|..], false);
    var r, r' := NodeRef(keccak, NodeRlp(keccak, m, q)), NodeRef(keccak, NodeRlp(keccak, n, q'));
    StringUnique(HexPrefix(q[|p|..], false), r, HexPrefix(q'[|p|..], false), r');
    HexPrefixInjective(q[|p|..], false, q'[|p|..], false);
    assert q == p + q[|p|..] && q' == p + q'[|p|..];
    NodeIsList(keccak, m, q);
    NodeIsList(keccak, n, q);
    PayloadFits(keccak, m, q);
    PayloadFits(keccak, n, q);
    assert r + [] == r' + [];
    RefUnique(keccak, NodeRlp(keccak, m, q), Payload(keccak, m, q), [], NodeRlp(keccak, n, q), Payload(keccak, n, q), []);
  }

  lemma ForksBranch(m: Entries, p: Path)
    requires m != map[] && AllUnder(m, p) && ShapeOf(m, p).Fork? && Modest(m)
    ensures Branches(m, p) && p !in m
  {
    var k := AnyKey(m);
    if p in m { OnlyKey(m, p); }
  }

  lemma OnlyKey(m: Entries, p: Path)
    requires AllUnder(m, p) && p in m && Modest(m)
    ensures m.Keys == {p} && AnyKey(m) == p
  {
    forall k | k in m ensures k == p { assert p <= k; }
  }

  /** Branches with the same slots have the same children. */
  lemma {:induction false} SlotsBind(keccak: Keccak, m: Entries, n: Entries, p: Path, d: nat)
    requires d <= 16 && Branches(m, p) && Branches(n, p) && Modest(m) && Modest(n)
    requires Slots(keccak, m, p, d) == Slots(keccak, n, p, d)
    ensures Collide(keccak, m, n, p) || forall x: Nibble | d <= x :: Under(m, p + [x]) == Under(n, p + [x])
    decreases m.Keys, 0, 16 - d
  {
    hide Pow256, EncodeString, EncodeList, NodeRlp, NodeRef, Slots, Slot, Collide, Modest, Under, Branches;
    if d < 16 {
      OneSlot(keccak, m, p, d);
      OneSlot(keccak, n, p, d);
      var x, y := Slots(keccak, m, p, d + 1), Slots(keccak, n, p, d + 1);
      var child, child' := Under(m, p + [d]), Under(n, p + [d]);
      SlotBinds(keccak, m, n, p, d, x, y);
      SlotsBind(keccak, m, n, p, d + 1);
      if !Collide(keccak, m, n, p) && child != child' {
        ChildSmaller(m, p, d);
        UnderIs(m, p + [d]);
        UnderIs(n, p + [d]);
        ModestUnder(m, p + [d]);
        ModestUnder(n, p + [d]);
        NodeBinds(keccak, child, child', p + [d]);
        if Collide(keccak, child, child', p + [d]) { CollideUnder(keccak, m, n, p, p + [d]); }
      }
    }
  }

  lemma UnderIs(m: Entries, p: Path)
    ensures AllUnder(Under(m, p), p)
  {
  }

  lemma ChildSmaller(m: Entries, p: Path, d: Nibble)
    requires Branches(m, p)
    ensures Under(m, p + [d]).Keys < m.Keys
  {
    assert !AllUnder(m, p + [d]);
    assert Under(m, p + [d]).Keys <= m.Keys;
  }

  /** Equal slots have equal children, nodes that collide, or nodes that are equal. */
  lemma SlotBinds(keccak: Keccak, m: Entries, n: Entries, p: Path, d: Nibble, x: Bytes, y: Bytes)
    requires Modest(m) && Modest(n) && Slot(keccak, m, p, d) + x == Slot(keccak, n, p, d) + y
    ensures x == y
    ensures var child, child' := Under(m, p + [d]), Under(n, p + [d]);
      || child == child' || Collide(keccak, m, n, p)
      || (child != map[] && child' != map[] && AllUnder(child, p + [d]) && AllUnder(child', p + [d]) &&
          NodeRlp(keccak, child, p + [d]) == NodeRlp(keccak, child', p + [d]))
  {
    hide Pow256, EncodeString, EncodeList, NodeRlp, NodeRef, Collide, Modest, Under, Payload;
    var q := p + [d];
    var child, child' := Under(m, q), Under(n, q);
    UnderIs(m, q);
    UnderIs(n, q);
    ModestUnder(m, q);
    ModestUnder(n, q);
    if child != map[] {
      NodeIsList(keccak, child, q);
      PayloadFits(keccak, child, q);
    }
    if child' != map[] {
      NodeIsList(keccak, child', q);
      PayloadFits(keccak, child', q);
    }
    if child != map[] && child' != map[] {
      var s, t := NodeRlp(keccak, child, q), NodeRlp(keccak, child', q);
      RefUnique(keccak, s, Payload(keccak, child, q), x, t, Payload(keccak, child', q), y);
      if s != t {
        NodeOf(keccak, child, q, q);
        NodeOf(keccak, child', q, q);
        Colliding(keccak, child, child', q, s, t);
        CollideUnder(keccak, m, n, p, q);
      }
    } else if child != map[] {
      RefNotEmpty(keccak, NodeRlp(keccak, child, q), Payload(keccak, child, q), x, y);
    } else if child' != map[] {
      RefNotEmpty(keccak, NodeRlp(keccak, child', q), Payload(keccak, child', q), y, x);
    } else {
      assert x == ([EMPTY_STRING_CODE] + x)[1..] && y == ([EMPTY_STRING_CODE] + y)[1..];
    }
  }

  lemma ChildrenSame(m: Entries, n: Entries, p: Path)
    requires AllUnder(m, p) && AllUnder(n, p) && p !in m && p !in n
    requires forall x: Nibble :: Under(m, p + [x]) == Under(n, p + [x])
    ensures m == n
  {
    forall k | k in m ensures k in n && n[k] == m[k] { ChildHas(m, n, p, k); }
    forall k | k in n ensures k in m { ChildHas(n, m, p, k); }
  }

  lemma ChildHas(m: Entries, n: Entries, p: Path, k: Path)
    requires k in m && p <= k && p != k && forall x: Nibble :: Under(m, p + [x]) == Under(n, p + [x])
    ensures k in n && n[k] == m[k]
  {
    var x := k[|p|];
    assert p + [x] <= k;
    assert k in Under(m, p + [x]);
    assert k in Under(n, p + [x]);
  }

  /** The root commits to the entries. */
  lemma RootBinds(keccak: Keccak, m: Entries, n: Entries)
    requires m != map[] && n != map[] && Modest(m) && Modest(n) && Root(keccak, m) == Root(keccak, n)
    ensures m == n || Collide(keccak, m, n, [])
  {
    hide NodeRlp, Modest, Collide;
    var s, t := NodeRlp(keccak, m, []), NodeRlp(keccak, n, []);
    if s == t {
      NodeBinds(keccak, m, n, []);
    } else {
      NodeOf(keccak, m, [], []);
      NodeOf(keccak, n, [], []);
      Colliding(keccak, m, n, [], s, t);
    }
  }

  // --- lists ---

  lemma BeforeNoPrefix(a: Path, b: Path)
    requires Before(a, b)
    ensures !(a <= b) && !(b <= a)
  {
    var d := CommonLen(a, b);
    assert a[d] != b[d];
  }

  lemma KeysApart(a: nat, b: nat)
    requires a < Pow256(8) && b < Pow256(8) && VectorRoot.Key(a) <= VectorRoot.Key(b)
    ensures a == b
  {
    hide Pow256, EncodeUint, Unpack;
    if Rank(a) < Rank(b) {
      EncodeUintOrder(a, b);
      UnpackBefore(EncodeUint(a), EncodeUint(b));
      BeforeNoPrefix(VectorRoot.Key(a), VectorRoot.Key(b));
    } else if Rank(b) < Rank(a) {
      EncodeUintOrder(b, a);
      UnpackBefore(EncodeUint(b), EncodeUint(a));
      BeforeNoPrefix(VectorRoot.Key(b), VectorRoot.Key(a));
    }
  }

  lemma KeyShort(i: nat)
    requires i < Pow256(8)
    ensures |VectorRoot.Key(i)| <= 18
  {
    hide Pow256;
    BigEndianBound(i, 8);
  }

  lemma TableModest<T>(v: seq<T>, encoder: T -> Bytes)
    requires |v| < Pow256(8) && forall x <- v :: |encoder(x)| < 0x0800_0000_0000_0000
    ensures Modest(VectorRoot.Table(v, encoder, |v|))
  {
    hide Pow256, VectorRoot.Key, VectorRoot.Table;
    var m := VectorRoot.Table(v, encoder, |v|);
    VectorRoot.TableIs(v, encoder, |v|);
    forall k | k in m ensures |k| + |m[k]| < 0x1000_0000_0000_0000 {
      var i :| 0 <= i < |v| && k == VectorRoot.Key(i);
      KeyShort(i);
    }
    forall k, k' | k in m && k' in m && k <= k' ensures k == k' {
      var i :| 0 <= i < |v| && k == VectorRoot.Key(i);
      var j :| 0 <= j < |v| && k' == VectorRoot.Key(j);
      KeysApart(i, j);
    }
  }

  /** The root of a list commits to its length and its encoded elements. */
  lemma VectorBinds<T>(keccak: Keccak, v: seq<T>, w: seq<T>, encoder: T -> Bytes)
    requires 0 < |v| < Pow256(8) && 0 < |w| < Pow256(8)
    requires forall x | x in v || x in w :: |encoder(x)| < 0x0800_0000_0000_0000
    requires Root(keccak, VectorRoot.Table(v, encoder, |v|)) == Root(keccak, VectorRoot.Table(w, encoder, |w|))
    ensures || Collide(keccak, VectorRoot.Table(v, encoder, |v|), VectorRoot.Table(w, encoder, |w|), [])
            || (|v| == |w| && forall i | 0 <= i < |v| :: encoder(v[i]) == encoder(w[i]))
  {
    hide Pow256, VectorRoot.Key, VectorRoot.Table, Collide, Root, Modest;
    TableModest(v, encoder);
    TableModest(w, encoder);
    TableSome(v, encoder);
    TableSome(w, encoder);
    RootBinds(keccak, VectorRoot.Table(v, encoder, |v|), VectorRoot.Table(w, encoder, |w|));
    if VectorRoot.Table(v, encoder, |v|) == VectorRoot.Table(w, encoder, |w|) {
      TableWithin(v, w, encoder);
      TableWithin(w, v, encoder);
    }
  }

  lemma TableSome<T>(v: seq<T>, encoder: T -> Bytes)
    requires 0 < |v| < Pow256(8)
    ensures VectorRoot.Table(v, encoder, |v|) != map[]
  {
    hide Pow256, VectorRoot.Key, VectorRoot.Table;
    VectorRoot.TableIs(v, encoder, |v|);
    assert VectorRoot.Key(0) in VectorRoot.Table(v, encoder, |v|);
  }

  lemma TableIndex<T>(v: seq<T>, w: seq<T>, encoder: T -> Bytes, i: nat)
    requires |v| < Pow256(8) && |w| < Pow256(8) && i < |v|
    requires VectorRoot.Table(v, encoder, |v|) == VectorRoot.Table(w, encoder, |w|)
    ensures i < |w| && encoder(v[i]) == encoder(w[i])
  {
    hide Pow256, VectorRoot.Key, VectorRoot.Table;
    VectorRoot.TableIs(v, encoder, |v|);
    VectorRoot.TableIs(w, encoder, |w|);
    var k := VectorRoot.Key(i);
    assert k in VectorRoot.Table(v, encoder, |v|);
    var j :| 0 <= j < |w| && k == VectorRoot.Key(j);
    KeysApart(i, j);
  }

  lemma TableWithin<T>(v: seq<T>, w: seq<T>, encoder: T -> Bytes)
    requires |v| < Pow256(8) && |w| < Pow256(8)
    requires VectorRoot.Table(v, encoder, |v|) == VectorRoot.Table(w, encoder, |w|)
    ensures |v| <= |w| && forall i | 0 <= i < |v| :: encoder(v[i]) == encoder(w[i])
  {
    hide Pow256, VectorRoot.Key, VectorRoot.Table;
    forall i | 0 <= i < |v| ensures i < |w| && encoder(v[i]) == encoder(w[i]) {
      TableIndex(v, w, encoder, i);
    }
    if |w| < |v| { TableIndex(v, w, encoder, |w|); }
  }
}
