/** External merge sort: db/silkworm/etl/{util,buffer,file_provider,collector}.cpp. */
module Etl {
  import opened Basics

  datatype Entry = Entry(key: Bytes, value: Bytes)
  {
    function Size(): (n: nat) { |key| + |value| }
  }

  // --- the order of entries ---

  predicate LexLess(x: Bytes, y: Bytes)
  {
    y != [] && (x == [] || x[0] < y[0] || (x[0] == y[0] && LexLess(x[1..], y[1..])))
  }

  predicate Less(a: Entry, b: Entry)
  {
    LexLess(a.key, b.key) || (a.key == b.key && LexLess(a.value, b.value))
  }

  predicate AtMost(a: Entry, b: Entry)
  {
    !Less(b, a)
  }

  lemma LexTotal(x: Bytes, y: Bytes)
    ensures x == y ==> !LexLess(x, y)
    ensures x != y ==> (LexLess(x, y) <==> !LexLess(y, x))
  {
    if x != [] && y != [] && x[0] == y[0] {
      assert x == [x[0]] + x[1..] && y == [y[0]] + y[1..];
      LexTotal(x[1..], y[1..]);
    }
  }

  lemma LexTransitive(x: Bytes, y: Bytes, z: Bytes)
    requires LexLess(x, y) && LexLess(y, z)
    ensures LexLess(x, z)
  {
    if x != [] && x[0] == y[0] == z[0] { LexTransitive(x[1..], y[1..], z[1..]); }
  }

  /** `AtMost` is a total order. */
  lemma EntryOrder(a: Entry, b: Entry, c: Entry)
    ensures AtMost(a, a) && (AtMost(a, b) || AtMost(b, a))
    ensures AtMost(a, b) && AtMost(b, a) ==> a == b
    ensures AtMost(a, b) && AtMost(b, c) ==> AtMost(a, c)
  {
    LexTotal(a.key, a.key); LexTotal(a.value, a.value);
    LexTotal(a.key, b.key); LexTotal(a.value, b.value);
    LexTotal(b.key, c.key); LexTotal(b.value, c.value);
    LexTotal(a.key, c.key); LexTotal(a.value, c.value);
    if LexLess(a.key, b.key) && LexLess(b.key, c.key) { LexTransitive(a.key, b.key, c.key); }
    if LexLess(a.value, b.value) && LexLess(b.value, c.value) { LexTransitive(a.value, b.value, c.value); }
  }

  /** A proper prefix, or smaller at the first difference. */
  predicate Precedes(x: Bytes, y: Bytes)
  {
    x < y || Before(x, y)
  }

  lemma {:induction false} LexExact(x: Bytes, y: Bytes)
    ensures LexLess(x, y) <==> Precedes(x, y)
  {
    hide Before;
    if x != [] && y != [] {
      var x', y' := x[1..], y[1..];
      assert x == [x[0]] + x' && y == [y[0]] + y';
      if x[0] == y[0] { LexExact(x', y'); }
      BeforeStep(x, y);
    } else {
      BeforeNothing(x, y);
    }
  }

  lemma BeforeStep(x: Bytes, y: Bytes)
    requires x != [] && y != []
    ensures Before(x, y) <==> x[0] < y[0] || (x[0] == y[0] && Before(x[1..], y[1..]))
  {
    var d := CommonLen(x, y);
    if x[0] == y[0] {
      var e := CommonLen(x[1..], y[1..]);
      assert x[..e + 1] == [x[0]] + x[1..][..e] && y[..e + 1] == [y[0]] + y[1..][..e];
      CommonLenUnique(x, y, e + 1);
    } else {
      CommonLenUnique(x, y, 0);
    }
  }

  lemma BeforeNothing(x: Bytes, y: Bytes)
    requires x == [] || y == []
    ensures !Before(x, y)
  {
  }

  /** Sorted entries ascend by key, and for the same key by value. */
  lemma SortedAscends(s: seq<Entry>, i: nat, j: nat)
    requires Sorted(s) && i < j < |s| && s[i] != s[j]
    ensures Precedes(s[i].key, s[j].key) || (s[i].key == s[j].key && Precedes(s[i].value, s[j].value))
  {
    EntryOrder(s[i], s[j], s[i]);
    LexExact(s[i].key, s[j].key);
    LexExact(s[i].value, s[j].value);
    assert AtMost(s[i], s[j]) && !AtMost(s[j], s[i]);
  }

  ghost predicate Below(e: Entry, s: seq<Entry>)
  {
    forall x | x in s :: AtMost(e, x)
  }

  ghost predicate Sorted(s: seq<Entry>)
  {
    forall i, j | 0 <= i <= j < |s| :: AtMost(s[i], s[j])
  }

  lemma SortedCons(e: Entry, s: seq<Entry>)
    requires Sorted(s) && Below(e, s)
    ensures Sorted([e] + s)
  {
    EntryOrder(e, e, e);
    var t := [e] + s;
    forall i, j | 0 <= i <= j < |t|
      ensures AtMost(t[i], t[j])
    {
      if i == 0 && j > 0 { assert t[j] == s[j - 1] && s[j - 1] in s; }
      if i > 0 { assert t[i] == s[i - 1] && t[j] == s[j - 1]; }
    }
  }

  lemma SortedSnoc(s: seq<Entry>, e: Entry)
    requires Sorted(s) && forall x | x in s :: AtMost(x, e)
    ensures Sorted(s + [e])
  {
    EntryOrder(e, e, e);
    var t := s + [e];
    forall i, j | 0 <= i <= j < |t|
      ensures AtMost(t[i], t[j])
    {
      if j < |s| { assert t[i] == s[i] && t[j] == s[j]; }
      else if i < |s| { assert t[i] == s[i] && s[i] in s; }
    }
  }

  lemma SortedTail(s: seq<Entry>)
    requires Sorted(s) && s != []
    ensures Sorted(s[1..]) && Below(s[0], s)
  {
    forall i, j | 0 <= i <= j < |s[1..]|
      ensures AtMost(s[1..][i], s[1..][j])
    {
      assert AtMost(s[i + 1], s[j + 1]);
    }
  }

  /** A multiset has one sorted arrangement. */
  lemma {:induction false} SortedUnique(a: seq<Entry>, b: seq<Entry>)
    requires Sorted(a) && Sorted(b) && multiset(a) == multiset(b)
    ensures a == b
  {
    hide AtMost;
    assert |a| == |multiset(a)| == |multiset(b)| == |b|;
    if a != [] {
      SortedTail(a);
      SortedTail(b);
      assert a[0] in multiset(b) && b[0] in multiset(a);
      EntryOrder(a[0], b[0], a[0]);
      assert a == [a[0]] + a[1..] && b == [b[0]] + b[1..];
      assert multiset(a[1..]) == multiset(a) - multiset{a[0]};
      assert multiset(b[1..]) == multiset(b) - multiset{b[0]};
      SortedUnique(a[1..], b[1..]);
    }
  }

  // --- sorting ---

  function Inserted(e: Entry, s: seq<Entry>): (r: seq<Entry>)
  {
    if s == [] || AtMost(e, s[0]) then [e] + s else [s[0]] + Inserted(e, s[1..])
  }

  lemma {:induction false} InsertedSorted(e: Entry, s: seq<Entry>)
    requires Sorted(s)
    ensures Sorted(Inserted(e, s)) && multiset(Inserted(e, s)) == multiset(s) + multiset{e}
  {
    if s == [] {
      SortedCons(e, s);
    } else {
      SortedTail(s);
      assert s == [s[0]] + s[1..];
      EntryOrder(e, s[0], e);
      if AtMost(e, s[0]) {
        forall x | x in s ensures AtMost(e, x) { EntryOrder(e, s[0], x); }
        SortedCons(e, s);
      } else {
        InsertedSorted(e, s[1..]);
        var t := Inserted(e, s[1..]);
        forall x | x in t ensures AtMost(s[0], x) { assert x in multiset(t); }
        SortedCons(s[0], t);
      }
    }
  }

  lemma SortedNothing()
    ensures Sorted([])
  {
  }

  /** What `std::sort` leaves in a range. */
  function Arranged(s: seq<Entry>): (r: seq<Entry>)
  {
    if s == [] then [] else Inserted(s[0], Arranged(s[1..]))
  }

  lemma {:induction false} ArrangedSorted(s: seq<Entry>)
    ensures Sorted(Arranged(s)) && multiset(Arranged(s)) == multiset(s) && |Arranged(s)| == |s|
  {
    hide Sorted, Inserted;
    if s == [] {
      SortedNothing();
    } else {
      ArrangedSorted(s[1..]);
      InsertedSorted(s[0], Arranged(s[1..]));
      assert s == [s[0]] + s[1..];
    }
    assert |multiset(Arranged(s))| == |Arranged(s)| && |multiset(s)| == |s|;
  }

  // --- files ---

  const TWO_32: nat := 0x1_0000_0000

  /** The lengths in a head are 32-bit numbers, least significant byte first. */
  function Le32(n: nat): (b: Bytes)
    ensures |b| == 4
  {
    [n % 256, n / 256 % 256, n / 65536 % 256, n / 16777216 % 256]
  }

  function FromLe32(b: Bytes): (n: nat)
    requires |b| == 4
  {
    b[0] as int + 256 * (b[1] as int + 256 * (b[2] as int + 256 * b[3] as int))
  }

  lemma Le32RoundTrip(n: nat)
    requires n < TWO_32
    ensures FromLe32(Le32(n)) == n
    ensures var b := Le32(n); n == b[0] as nat + 0x100 * (b[1] as nat) + 0x1_0000 * (b[2] as nat) + 0x100_0000 * (b[3] as nat)
  {
    var n1 := n / 256;
    var n2 := n1 / 256;
    var n3 := n2 / 256;
    assert n / 65536 == n2 && n / 16777216 == n3;
    assert n == n % 256 + 256 * n1 && n1 == n1 % 256 + 256 * n2 && n2 == n2 % 256 + 256 * n3;
  }

  predicate Short(e: Entry)
  {
    |e.key| < TWO_32 && |e.value| < TWO_32
  }

  function Written(e: Entry): (b: Bytes)
    ensures |b| == 8 + e.Size()
  {
    Le32(|e.key|) + Le32(|e.value|) + e.key + e.value
  }

  /** The size of a file is that of its bytes. */
  lemma {:induction false} WrittenSize(s: seq<Entry>)
    ensures |WrittenAll(s)| == TotalSize(s) + 8 * |s|
  {
    hide Written;
    if s != [] {
      WrittenSize(s[1..]);
      SizeFirst(s);
    }
  }

  /** The head of an entry holds the length of the key and then that of the value; key and value follow. */
  lemma WrittenLayout(e: Entry)
    requires Short(e)
    ensures var b, k := Written(e), |e.key|;
      && k == b[0] as nat + 0x100 * (b[1] as nat) + 0x1_0000 * (b[2] as nat) + 0x100_0000 * (b[3] as nat)
      && |e.value| == b[4] as nat + 0x100 * (b[5] as nat) + 0x1_0000 * (b[6] as nat) + 0x100_0000 * (b[7] as nat)
      && b[8..8 + k] == e.key && b[8 + k..] == e.value
  {
    hide Le32, FromLe32;
    Le32RoundTrip(|e.key|);
    Le32RoundTrip(|e.value|);
    var b := Written(e);
    assert b[..4] == Le32(|e.key|) && b[4..8] == Le32(|e.value|);
    assert b[0] == b[..4][0] && b[1] == b[..4][1] && b[2] == b[..4][2] && b[3] == b[..4][3];
    assert b[4] == b[4..8][0] && b[5] == b[4..8][1] && b[6] == b[4..8][2] && b[7] == b[4..8][3];
  }

  function WrittenAll(s: seq<Entry>): (b: Bytes)
  {
    if s == [] then [] else Written(s[0]) + WrittenAll(s[1..])
  }

  /** A provider: its file, from the position of the next read on. */
  datatype File = File(id: nat, open: bool, size: nat, bytes: Bytes)

  datatype Read = Throws | End(closed: File) | Next(entry: Entry, file: File)

  function ReadEntry(f: File): (r: Read)
  {
    if !f.open || f.size == 0 then Throws
    else if |f.bytes| < 8 then End(File(f.id, false, 0, []))
    else
      var k, v := FromLe32(f.bytes[..4]), FromLe32(f.bytes[4..8]);
      if |f.bytes| < 8 + k + v then Throws
      else Next(Entry(f.bytes[8..8 + k], f.bytes[8 + k..8 + k + v]), f.(bytes := f.bytes[8 + k + v..]))
  }

  /** What is left to read are the entries `s`. */
  ghost predicate Holds(f: File, s: seq<Entry>)
  {
    f.open && f.size > 0 && f.bytes == WrittenAll(s) && forall e <- s :: Short(e)
  }

  /** A file is read back as it was written. */
  lemma ReadBack(f: File, s: seq<Entry>)
    requires Holds(f, s)
    ensures s == [] ==> ReadEntry(f).End?
    ensures s != [] ==> ReadEntry(f).Next? && ReadEntry(f).entry == s[0] && ReadEntry(f).file.id == f.id
    ensures s != [] ==> Holds(ReadEntry(f).file, s[1..])
  {
    if s != [] {
      var e := s[0];
      var b, rest := f.bytes, WrittenAll(s[1..]);
      var k, v := |e.key|, |e.value|;
      assert Short(e);
      assert b == Le32(k) + Le32(v) + e.key + e.value + rest;
      Le32RoundTrip(k);
      Le32RoundTrip(v);
      assert b[..4] == Le32(k) && b[4..8] == Le32(v);
      assert b[8..8 + k] == e.key && b[8 + k..8 + k + v] == e.value && b[8 + k + v..] == rest;
    }
  }

  method Flush(id: nat, entries: seq<Entry>, bufferSize: nat) returns (f: File)
    ensures f == File(id, true, bufferSize + |entries| * 8, WrittenAll(entries))
  {
    hide Written;
    var bytes := [];
    for i := 0 to |entries|
      invariant bytes + WrittenAll(entries[i..]) == WrittenAll(entries)
    {
      WrittenNext(bytes, entries, i);
      bytes := bytes + Written(entries[i]);
    }
    assert bytes + WrittenAll(entries[|entries|..]) == bytes;
    f := File(id, true, bufferSize + |entries| * 8, bytes);
  }

  lemma WrittenNext(bytes: Bytes, entries: seq<Entry>, i: nat)
    requires i < |entries|
    ensures bytes + WrittenAll(entries[i..]) == bytes + Written(entries[i]) + WrittenAll(entries[i + 1..])
  {
    hide Written;
    assert entries[i..][1..] == entries[i + 1..];
  }

  // --- sorted runs ---

  /** All entries of several runs together. */
  ghost function Union(runs: seq<seq<Entry>>): (m: multiset<Entry>)
  {
    if runs == [] then multiset{} else Union(runs[..|runs| - 1]) + multiset(runs[|runs| - 1])
  }

  lemma Swap(x: multiset<Entry>, y: multiset<Entry>, z: multiset<Entry>)
    ensures x + y + z == x + z + y
  {
  }

  lemma {:induction false} UnionUpdate(runs: seq<seq<Entry>>, p: nat, s: seq<Entry>)
    requires p < |runs|
    ensures Union(runs[p := s]) + multiset(runs[p]) == Union(runs) + multiset(s)
  {
    var n := |runs| - 1;
    if p < n {
      assert runs[p := s][..n] == runs[..n][p := s] && runs[p := s][n] == runs[n];
      UnionUpdate(runs[..n], p, s);
      assert Union(runs[p := s]) == Union(runs[..n][p := s]) + multiset(runs[n]);
      assert Union(runs) == Union(runs[..n]) + multiset(runs[n]) && runs[..n][p] == runs[p];
      Swap(Union(runs[..n][p := s]), multiset(runs[n]), multiset(runs[p]));
      Swap(Union(runs[..n]), multiset(runs[n]), multiset(s));
    } else {
      assert runs[p := s][..n] == runs[..n];
    }
  }

  lemma {:induction false} UnionEmpty(runs: seq<seq<Entry>>)
    requires forall i | 0 <= i < |runs| :: runs[i] == []
    ensures Union(runs) == multiset{}
  {
    if runs != [] { UnionEmpty(runs[..|runs| - 1]); }
  }

  // --- the merge ---

  type Item = (Entry, nat)

  function Firsts(queue: seq<Item>): (r: seq<Entry>)
    ensures |r| == |queue| && forall i | 0 <= i < |r| :: r[i] == queue[i].0
  {
    seq(|queue|, i requires 0 <= i < |queue| => queue[i].0)
  }

  predicate IsTop(queue: seq<Item>, i: nat)
  {
    i < |queue| && forall j | 0 <= j < |queue| :: !Less(queue[j].0, queue[i].0)
  }

  /** A priority queue has a top. */
  lemma {:induction false} TopExists(queue: seq<Item>) returns (i: nat)
    requires queue != []
    ensures IsTop(queue, i)
  {
    var n := |queue| - 1;
    EntryOrder(queue[n].0, queue[n].0, queue[n].0);
    if n == 0 {
      i := 0;
    } else {
      i := TopExists(queue[..n]);
      EntryOrder(queue[i].0, queue[n].0, queue[n].0);
      if Less(queue[n].0, queue[i].0) {
        forall j | 0 <= j < |queue|
          ensures !Less(queue[j].0, queue[n].0)
        {
          if j < n {
            assert queue[..n][j] == queue[j];
            EntryOrder(queue[n].0, queue[i].0, queue[j].0);
          }
        }
        i := n;
      } else {
        forall j | 0 <= j < |queue|
          ensures !Less(queue[j].0, queue[i].0)
        {
          if j < n { assert queue[..n][j] == queue[j]; }
        }
      }
    }
  }

  /** Provider `p` still has the run `rest` to give, after the item that is in the queue. */
  ghost predicate Serves(f: File, p: nat, rest: seq<Entry>)
  {
    f.id == p && Holds(f, rest) && Sorted(rest)
  }

  ghost predicate Queued(files: seq<File>, rest: seq<seq<Entry>>, queue: seq<Item>)
  {
    && |rest| == |files|
    && (forall i | 0 <= i < |queue| :: queue[i].1 < |files|)
    && (forall i | 0 <= i < |queue| :: Serves(files[queue[i].1], queue[i].1, rest[queue[i].1]))
    && (forall i | 0 <= i < |queue| :: Below(queue[i].0, rest[queue[i].1]))
    && (forall i, j | 0 <= i < j < |queue| :: queue[i].1 != queue[j].1)
  }

  /** What has been handed over precedes what is in the queue. */
  ghost predicate Ahead(out: seq<Entry>, queue: seq<Item>)
  {
    Sorted(out) && forall x, i | x in out && 0 <= i < |queue| :: AtMost(x, queue[i].0)
  }

  ghost predicate Waits(queue: seq<Item>, p: nat)
  {
    exists i :: 0 <= i < |queue| && queue[i].1 == p
  }

  lemma FirstsRemove(queue: seq<Item>, i: nat, added: seq<Item>)
    requires i < |queue|
    ensures var less := queue[..i] + queue[i + 1..] + added;
      multiset(Firsts(less)) + multiset{queue[i].0} == multiset(Firsts(queue)) + multiset(Firsts(added))
  {
    var less := queue[..i] + queue[i + 1..] + added;
    var f := Firsts(queue);
    assert f == f[..i] + [f[i]] + f[i + 1..];
    assert Firsts(less) == f[..i] + f[i + 1..] + Firsts(added);
  }

  /** The item taken is at most everything that stays. */
  lemma AheadStep(out: seq<Entry>, queue: seq<Item>, i: nat, added: seq<Item>)
    requires Ahead(out, queue) && IsTop(queue, i)
    requires forall j | 0 <= j < |added| :: AtMost(queue[i].0, added[j].0)
    ensures Ahead(out + [queue[i].0], queue[..i] + queue[i + 1..] + added)
  {
    var e, less := queue[i].0, queue[..i] + queue[i + 1..] + added;
    SortedSnoc(out, e);
    forall x, j | x in out + [e] && 0 <= j < |less|
      ensures AtMost(x, less[j].0)
    {
      assert AtMost(e, less[j].0) by {
        if j < |queue| - 1 {
          var k := if j < i then j else j + 1;
          assert less[j] == queue[k];
        } else {
          assert less[j] == added[j - |queue| + 1];
        }
      }
      if x in out {
        EntryOrder(x, e, less[j].0);
      }
    }
  }

  /** After one item of provider `p` is taken, `p` gives its next one or is done. */
  lemma QueuedStep(files: seq<File>, rest: seq<seq<Entry>>, queue: seq<Item>, i: nat)
    requires Queued(files, rest, queue) && i < |queue|
    ensures var p := queue[i].1;
      var less := queue[..i] + queue[i + 1..];
      var r := ReadEntry(files[p]);
      if rest[p] == [] then r.End? && Queued(files[p := r.closed], rest, less)
      else
        && r.Next? && r.entry == rest[p][0]
        && AtMost(queue[i].0, r.entry)
        && Queued(files[p := r.file], rest[p := rest[p][1..]], less + [(r.entry, p)])
  {
    hide ReadEntry, Serves;
    var p := queue[i].1;
    assert Serves(files[p], p, rest[p]) && Below(queue[i].0, rest[p]);
    ServesNext(files[p], p, rest[p]);
    if rest[p] == [] {
      QueuedDrop(files, rest, queue, i, ReadEntry(files[p]).closed, rest[p]);
    } else {
      assert rest[p][0] in rest[p];
      QueuedDrop(files, rest, queue, i, ReadEntry(files[p]).file, rest[p][1..]);
      QueuedAdd(files[p := ReadEntry(files[p]).file], rest[p := rest[p][1..]], queue[..i] + queue[i + 1..], ReadEntry(files[p]).entry, p);
    }
  }

  lemma ServesNext(f: File, p: nat, rest: seq<Entry>)
    requires Serves(f, p, rest)
    ensures rest == [] ==> ReadEntry(f).End?
    ensures rest != [] ==> ReadEntry(f).Next? && ReadEntry(f).entry == rest[0]
    ensures rest != [] ==> Serves(ReadEntry(f).file, p, rest[1..]) && Below(rest[0], rest[1..])
  {
    hide ReadEntry, Holds, Sorted, Below;
    ReadBack(f, rest);
    if rest != [] { TailServes(rest); }
  }

  lemma QueuedDrop(files: seq<File>, rest: seq<seq<Entry>>, queue: seq<Item>, i: nat, f: File, tail: seq<Entry>)
    requires Queued(files, rest, queue) && i < |queue|
    ensures var p, less := queue[i].1, queue[..i] + queue[i + 1..];
      && Queued(files[p := f], rest[p := tail], less)
      && (forall j | 0 <= j < |less| :: less[j].1 != p)
      && (tail == rest[p] ==> rest[p := tail] == rest)
  {
    hide Serves, Below;
    LessQueue(queue, i, queue[..i] + queue[i + 1..]);
  }

  lemma QueuedAdd(files: seq<File>, rest: seq<seq<Entry>>, queue: seq<Item>, e: Entry, p: nat)
    requires Queued(files, rest, queue) && p < |files| && (forall j | 0 <= j < |queue| :: queue[j].1 != p)
    requires Serves(files[p], p, rest[p]) && Below(e, rest[p])
    ensures Queued(files, rest, queue + [(e, p)])
  {
    hide Serves, Below;
  }

  lemma LessQueue(queue: seq<Item>, i: nat, less: seq<Item>)
    requires i < |queue| && less == queue[..i] + queue[i + 1..]
    requires forall i, j | 0 <= i < j < |queue| :: queue[i].1 != queue[j].1
    ensures forall j | 0 <= j < |less| :: less[j] == queue[if j < i then j else j + 1]
    ensures forall j | 0 <= j < |less| :: less[j].1 != queue[i].1
    ensures forall j, k | 0 <= j < k < |less| :: less[j].1 != less[k].1
  {
  }

  /** Every provider that still has entries waits in the queue with an earlier one. */
  ghost predicate Covered(rest: seq<seq<Entry>>, queue: seq<Item>)
  {
    forall p | 0 <= p < |rest| && rest[p] != [] :: Waits(queue, p)
  }

  lemma CoveredByNone(rest: seq<seq<Entry>>)
    requires Covered(rest, [])
    ensures forall p | 0 <= p < |rest| :: rest[p] == []
  {
    forall p | 0 <= p < |rest| ensures rest[p] == [] {
      assert !Waits([], p);
    }
  }

  lemma CoveredStep(rest: seq<seq<Entry>>, queue: seq<Item>, i: nat, rest': seq<seq<Entry>>, queue': seq<Item>)
    requires Covered(rest, queue) && i < |queue| && queue[i].1 < |rest| == |rest'|
    requires forall q | 0 <= q < |rest| && q != queue[i].1 :: rest'[q] == rest[q]
    requires queue[..i] + queue[i + 1..] <= queue'
    requires rest'[queue[i].1] == [] || Waits(queue', queue[i].1)
    ensures Covered(rest', queue')
  {
    var less := queue[..i] + queue[i + 1..];
    forall q | 0 <= q < |rest'| && rest'[q] != []
      ensures Waits(queue', q)
    {
      if q != queue[i].1 {
        assert Waits(queue, q);
        var j :| 0 <= j < |queue| && queue[j].1 == q;
        var k := if j < i then j else j - 1;
        assert less[k] == queue[j] && queue'[k] == less[k];
      }
    }
  }

  /** Reads one item from each provider. */
  method Prime(given: seq<File>, ghost runs: seq<seq<Entry>>)
    returns (files: seq<File>, queue: seq<Item>, ghost rest: seq<seq<Entry>>)
    requires Served(given, runs)
    ensures Queued(files, rest, queue) && Covered(rest, queue)
    ensures multiset(Firsts(queue)) + Union(rest) == Union(runs)
  {
    hide Holds, Sorted, ReadEntry;
    files, queue, rest := given, [], runs;
    for i := 0 to |given|
      invariant |files| == |rest| == |given|
      invariant forall j | i <= j < |given| :: files[j] == given[j] && rest[j] == runs[j]
      invariant Queued(files, rest, queue) && forall j | 0 <= j < |queue| :: queue[j].1 < i
      invariant Covered(rest[..i], queue)
      invariant multiset(Firsts(queue)) + Union(rest) == Union(runs)
    {
      ghost var before, was := queue, rest;
      assert Serves(given[i], i, runs[i]);
      assert files[i] == given[i];
      if rest[i] == [] { PrimeEnd(files, rest, queue, i); } else { PrimeNext(files, rest, queue, i); }
      var r := ReadEntry(files[i]);
      if r.Next? {
        queue := queue + [(r.entry, i)];
        files := files[i := r.file];
        rest := rest[i := rest[i][1..]];
      } else {
        assert r.End?;
        files := files[i := r.closed];
      }
    }
    assert rest[..|given|] == rest;
  }

  lemma PrimeEnd(files: seq<File>, rest: seq<seq<Entry>>, queue: seq<Item>, i: nat)
    requires Queued(files, rest, queue) && i < |files| == |rest| && Serves(files[i], i, rest[i]) && rest[i] == []
    requires Covered(rest[..i], queue) && forall j | 0 <= j < |queue| :: queue[j].1 < i
    ensures var r := ReadEntry(files[i]);
      r.End? && Queued(files[i := r.closed], rest, queue) && Covered(rest[..i + 1], queue)
  {
    hide Queued, Covered, Holds, Sorted, ReadEntry;
    ReadBack(files[i], rest[i]);
    QueuedElsewhere(files, rest, queue, i, ReadEntry(files[i]).closed);
    CoveredGrows(rest[..i], queue, rest[..i + 1], queue);
  }

  lemma PrimeNext(files: seq<File>, rest: seq<seq<Entry>>, queue: seq<Item>, i: nat)
    requires Queued(files, rest, queue) && i < |files| == |rest| && Serves(files[i], i, rest[i]) && rest[i] != []
    requires Covered(rest[..i], queue) && forall j | 0 <= j < |queue| :: queue[j].1 < i
    ensures var r := ReadEntry(files[i]);
      r.Next? &&
      var rest', queue' := rest[i := rest[i][1..]], queue + [(r.entry, i)];
      && Queued(files[i := r.file], rest', queue') && Covered(rest'[..i + 1], queue')
      && multiset(Firsts(queue')) + Union(rest') == multiset(Firsts(queue)) + Union(rest)
  {
    hide Queued, Covered, Below, Holds, Sorted, ReadEntry, Union;
    ReadBack(files[i], rest[i]);
    var r := ReadEntry(files[i]);
    var rest', queue' := rest[i := rest[i][1..]], queue + [(r.entry, i)];
    TailServes(rest[i]);
    QueuedPush(files, rest, queue, i, r.file, r.entry, rest[i][1..]);
    assert queue'[|queue|].1 == i;
    CoveredGrows(rest[..i], queue, rest'[..i + 1], queue');
    UnionTake(rest, i);
    assert Firsts(queue') == Firsts(queue) + [r.entry];
    Recount(multiset(Firsts(queue)), multiset{r.entry}, Union(rest'));
  }

  lemma Recount(q: multiset<Entry>, e: multiset<Entry>, u: multiset<Entry>)
    ensures q + e + u == q + (u + e)
  {
  }

  lemma Cancel(x: multiset<Entry>, y: multiset<Entry>, z: multiset<Entry>)
    requires x + z == y + z
    ensures x == y
  {
    forall e ensures x[e] == y[e] {
      assert (x + z)[e] == (y + z)[e];
    }
  }

  lemma UnionTake(rest: seq<seq<Entry>>, p: nat)
    requires p < |rest| && rest[p] != []
    ensures Union(rest) == Union(rest[p := rest[p][1..]]) + multiset{rest[p][0]}
  {
    UnionUpdate(rest, p, rest[p][1..]);
    assert rest[p] == [rest[p][0]] + rest[p][1..];
    var x, t := Union(rest[p := rest[p][1..]]), multiset(rest[p][1..]);
    var h := multiset{rest[p][0]};
    assert x + (h + t) == Union(rest) + t;
    assert x + h + t == x + (h + t);
    Cancel(x + h, Union(rest), t);
  }

  lemma QueuedElsewhere(files: seq<File>, rest: seq<seq<Entry>>, queue: seq<Item>, i: nat, f: File)
    requires Queued(files, rest, queue) && i < |files| && forall j | 0 <= j < |queue| :: queue[j].1 < i
    ensures Queued(files[i := f], rest, queue)
  {
    hide Serves, Below;
  }

  lemma QueuedPush(files: seq<File>, rest: seq<seq<Entry>>, queue: seq<Item>, i: nat, f: File, e: Entry, tail: seq<Entry>)
    requires Queued(files, rest, queue) && i < |files| && forall j | 0 <= j < |queue| :: queue[j].1 < i
    requires Serves(f, i, tail) && Below(e, tail)
    ensures Queued(files[i := f], rest[i := tail], queue + [(e, i)])
  {
    hide Serves, Below;
  }

  lemma TailServes(s: seq<Entry>)
    requires Sorted(s) && s != []
    ensures Sorted(s[1..]) && Below(s[0], s[1..])
  {
    SortedTail(s);
    forall x | x in s[1..] ensures AtMost(s[0], x) { assert x in s; }
  }

  lemma CoveredGrows(rest: seq<seq<Entry>>, queue: seq<Item>, rest': seq<seq<Entry>>, queue': seq<Item>)
    requires Covered(rest, queue) && queue <= queue' && |rest'| == |rest| + 1 && rest == rest'[..|rest|]
    requires rest'[|rest|] == [] || Waits(queue', |rest|)
    ensures Covered(rest', queue')
  {
    forall q | 0 <= q < |rest'| && rest'[q] != []
      ensures Waits(queue', q)
    {
      if q < |rest| {
        assert rest[q] == rest'[q];
        assert Waits(queue, q);
        var j :| 0 <= j < |queue| && queue[j].1 == q;
        assert queue'[j] == queue[j];
      }
    }
  }

  /** The k-way merge hands over all entries of all runs in order. */
  method Merge(given: seq<File>, ghost runs: seq<seq<Entry>>) returns (files: seq<File>, out: seq<Entry>)
    requires Served(given, runs)
    ensures Sorted(out) && multiset(out) == Union(runs)
  {
    var queue: seq<Item>;
    ghost var rest: seq<seq<Entry>>;
    files, queue, rest := Prime(given, runs);
    out := [];
    while queue != []
      invariant Queued(files, rest, queue) && Covered(rest, queue) && Ahead(out, queue)
      invariant multiset(out) + multiset(Firsts(queue)) + Union(rest) == Union(runs)
      decreases |queue| + 2 * |Union(rest)|
    {
      hide Queued, Covered, Ahead, ReadEntry, Union, IsTop;
      ghost var t := TopExists(queue);
      var i: nat :| IsTop(queue, i);
      ItemBounds(files, rest, queue, i);
      var (entry, p) := queue[i];
      if rest[p] != [] { MergeNext(files, rest, queue, out, i); } else { MergeEnd(files, rest, queue, out, i); }
      out := out + [entry];
      var r := ReadEntry(files[p]);
      queue := queue[..i] + queue[i + 1..];
      if r.Next? {
        queue := queue + [(r.entry, p)];
        files := files[p := r.file];
        rest := rest[p := rest[p][1..]];
      } else {
        files := files[p := r.closed];
      }
    }
    CoveredByNone(rest);
    UnionEmpty(rest);
  }

  /** The provider of the item has another one. */
  lemma MergeNext(files: seq<File>, rest: seq<seq<Entry>>, queue: seq<Item>, out: seq<Entry>, i: nat)
    requires Queued(files, rest, queue) && Covered(rest, queue) && Ahead(out, queue) && IsTop(queue, i)
    requires i < |queue| && queue[i].1 < |files| == |rest| && rest[queue[i].1] != []
    ensures var (entry, p) := queue[i];
      var r := ReadEntry(files[p]);
      r.Next? &&
      var rest', queue' := rest[p := rest[p][1..]], queue[..i] + queue[i + 1..] + [(r.entry, p)];
      && Queued(files[p := r.file], rest', queue') && Covered(rest', queue') && Ahead(out + [entry], queue')
      && multiset(out + [entry]) + multiset(Firsts(queue')) + Union(rest') == multiset(out) + multiset(Firsts(queue)) + Union(rest)
      && |Union(rest')| < |Union(rest)|
  {
    hide Queued, Covered, Ahead, ReadEntry, IsTop, Union, Firsts;
    var (entry, p) := queue[i];
    QueuedStep(files, rest, queue, i);
    var r := ReadEntry(files[p]);
    var added := [(r.entry, p)];
    var rest', queue' := rest[p := rest[p][1..]], queue[..i] + queue[i + 1..] + added;
    assert queue'[|queue| - 1].1 == p;
    CoveredStep(rest, queue, i, rest', queue');
    AheadStep(out, queue, i, added);
    FirstsRemove(queue, i, added);
    UnionTake(rest, p);
    assert Firsts(added) == [r.entry];
    assert multiset(out + [entry]) == multiset(out) + multiset{entry};
    Regroup(multiset(out), multiset{entry}, multiset(Firsts(queue')), Union(rest'), multiset(Firsts(queue)), multiset{r.entry});
  }

  /** The provider of the item is done. */
  lemma MergeEnd(files: seq<File>, rest: seq<seq<Entry>>, queue: seq<Item>, out: seq<Entry>, i: nat)
    requires Queued(files, rest, queue) && Covered(rest, queue) && Ahead(out, queue) && IsTop(queue, i)
    requires i < |queue| && queue[i].1 < |files| == |rest| && rest[queue[i].1] == []
    ensures var (entry, p) := queue[i];
      var r := ReadEntry(files[p]);
      var less := queue[..i] + queue[i + 1..];
      && r.End? && Queued(files[p := r.closed], rest, less) && Covered(rest, less) && Ahead(out + [entry], less)
      && multiset(out + [entry]) + multiset(Firsts(less)) == multiset(out) + multiset(Firsts(queue))
  {
    hide Queued, Covered, Ahead, ReadEntry, IsTop;
    var entry, less, none: seq<Item> := queue[i].0, queue[..i] + queue[i + 1..], [];
    QueuedStep(files, rest, queue, i);
    assert less + none == less;
    CoveredStep(rest, queue, i, rest, less);
    AheadStep(out, queue, i, none);
    FirstsRemove(queue, i, none);
    assert multiset(Firsts(none)) == multiset{} && multiset(out + [entry]) == multiset(out) + multiset{entry};
    assert multiset(Firsts(less)) + multiset{entry} == multiset(Firsts(queue));
    Swap(multiset(out), multiset{entry}, multiset(Firsts(less)));
    assert multiset(out) + multiset(Firsts(less)) + multiset{entry} == multiset(out) + (multiset(Firsts(less)) + multiset{entry});
  }

  lemma Regroup(o: multiset<Entry>, e: multiset<Entry>, q': multiset<Entry>, u: multiset<Entry>, q: multiset<Entry>, n: multiset<Entry>)
    requires q' + e == q + n
    ensures o + e + q' + u == o + q + (u + n)
  {
    assert o + e + q' + u == o + (q' + e) + u;
  }

  lemma ItemBounds(files: seq<File>, rest: seq<seq<Entry>>, queue: seq<Item>, i: nat)
    requires Queued(files, rest, queue) && IsTop(queue, i)
    ensures i < |queue| && queue[i].1 < |files| == |rest|
  {
  }

  // --- the buffer ---

  function TotalSize(s: seq<Entry>): (n: nat)
  {
    if s == [] then 0 else TotalSize(s[..|s| - 1]) + s[|s| - 1].Size()
  }

  /** A vector that keeps its capacity: only the first `length` entries count. */
  class Buffer {
    const optimalSize: nat
    var size: nat
    var length: nat
    var slots: seq<Entry>

    ghost predicate Valid()
      reads this
    {
      length <= |slots| && size == TotalSize(slots[..length])
    }

    function Entries(): (s: seq<Entry>)
      requires length <= |slots|
      reads this
    {
      slots[..length]
    }

    constructor (optimalSize: nat, capacity: nat)
      ensures Valid() && Entries() == [] && size == 0 && this.optimalSize == optimalSize
    {
      this.optimalSize, size, length := optimalSize, 0, 0;
      slots := seq(capacity, _ => Entry([], []));
    }

    method Put(e: Entry)
      requires Valid()
      modifies this
      ensures Valid() && Entries() == old(Entries()) + [e]
    {
      size := size + e.Size();
      if length == |slots| {
        slots := slots + [e];
      } else {
        slots := slots[length := e];
      }
      length := length + 1;
      assert slots[..length][..length - 1] == old(slots[..length]);
    }

    method Sort()
      requires Valid()
      modifies this
      ensures Valid() && size == old(size) && Entries() == Arranged(old(Entries()))
    {
      ArrangedSorted(slots[..length]);
      ArrangedSize(slots[..length]);
      slots := Arranged(slots[..length]) + slots[length..];
    }

    method Clear()
      modifies this
      ensures Valid() && Entries() == [] && size == 0
    {
      length, size := 0, 0;
    }

    predicate Overflows()
      reads this
    {
      size >= optimalSize
    }
  }

  lemma {:induction false} SizeConcat(s: seq<Entry>, t: seq<Entry>)
    ensures TotalSize(s + t) == TotalSize(s) + TotalSize(t)
    decreases |t|
  {
    if t == [] {
      assert s + t == s;
    } else {
      assert (s + t)[..|s + t| - 1] == s + t[..|t| - 1];
      SizeConcat(s, t[..|t| - 1]);
    }
  }

  lemma SizeFirst(s: seq<Entry>)
    requires s != []
    ensures TotalSize(s) == s[0].Size() + TotalSize(s[1..])
  {
    SizeConcat([s[0]], s[1..]);
    assert s == [s[0]] + s[1..];
    assert TotalSize([s[0]]) == TotalSize([]) + s[0].Size();
  }

  lemma {:induction false} InsertedSize(e: Entry, s: seq<Entry>)
    ensures TotalSize(Inserted(e, s)) == e.Size() + TotalSize(s)
  {
    hide AtMost;
    SizeFirst(Inserted(e, s));
    if s != [] && !AtMost(e, s[0]) {
      InsertedSize(e, s[1..]);
      SizeFirst(s);
    }
  }

  lemma {:induction false} ArrangedSize(s: seq<Entry>)
    ensures TotalSize(Arranged(s)) == TotalSize(s)
  {
    hide Inserted;
    if s != [] {
      ArrangedSize(s[1..]);
      InsertedSize(s[0], Arranged(s[1..]));
      SizeFirst(s);
    }
  }

  // --- the collector ---

  ghost predicate AllShort(s: seq<Entry>)
  {
    forall e | e in s :: Short(e)
  }

  /** Each file holds its run. */
  ghost predicate Served(files: seq<File>, runs: seq<seq<Entry>>)
  {
    |runs| == |files| && forall i | 0 <= i < |files| :: Serves(files[i], i, runs[i])
  }

  lemma ServedSnoc(files: seq<File>, runs: seq<seq<Entry>>, f: File, entries: seq<Entry>, size: nat)
    requires Served(files, runs) && AllShort(entries) && size > 0
    requires f == File(|files|, true, size + |Arranged(entries)| * 8, WrittenAll(Arranged(entries)))
    ensures Served(files + [f], runs + [Arranged(entries)])
    ensures Union(runs + [Arranged(entries)]) == Union(runs) + multiset(entries)
  {
    hide Serves, WrittenAll, Arranged, Union, AllShort;
    FlushedServes(f, |files|, entries, size);
    UnionSnoc(runs, Arranged(entries));
  }

  /** What the buffer still holds after `entries` have been collected: whenever at least
      `optimalSize` bytes have come together, and not none at all, they go to a file. */
  function Pending(optimalSize: nat, entries: seq<Entry>): (s: seq<Entry>)
    ensures |s| <= |entries|
  {
    if entries == [] then []
    else
      var s := Pending(optimalSize, entries[..|entries| - 1]) + [entries[|entries| - 1]];
      if TotalSize(s) > 0 && TotalSize(s) >= optimalSize then [] else s
  }

  lemma {:induction false} PendingSuffix(optimalSize: nat, entries: seq<Entry>)
    ensures var s := Pending(optimalSize, entries); entries[|entries| - |s|..] == s
  {
    hide TotalSize;
    if entries != [] {
      var front, last := entries[..|entries| - 1], entries[|entries| - 1];
      PendingSuffix(optimalSize, front);
      var p := Pending(optimalSize, front);
      SuffixSnoc(front, last, |front| - |p|);
      assert entries == front + [last];
      assert entries[|entries|..] == [];
    }
  }

  /** The buffer never keeps `optimalSize` bytes, and keeps all it is given while it stays below. */
  lemma PendingBelow(optimalSize: nat, entries: seq<Entry>)
    ensures var n := TotalSize(Pending(optimalSize, entries)); n == 0 || n < optimalSize
    ensures TotalSize(entries) < optimalSize ==> Pending(optimalSize, entries) == entries
  {
    hide TotalSize, Pending;
    PendingSmall(optimalSize, entries);
    if TotalSize(entries) < optimalSize { PendingEverything(optimalSize, entries); }
  }

  lemma PendingSmall(optimalSize: nat, entries: seq<Entry>)
    ensures var n := TotalSize(Pending(optimalSize, entries)); n == 0 || n < optimalSize
  {
    hide TotalSize;
    SizeNothing();
  }

  lemma SizeNothing()
    ensures TotalSize([]) == 0
  {
  }

  lemma {:induction false} PendingEverything(optimalSize: nat, entries: seq<Entry>)
    requires TotalSize(entries) < optimalSize
    ensures Pending(optimalSize, entries) == entries
  {
    if entries != [] {
      var front, last := entries[..|entries| - 1], entries[|entries| - 1];
      assert TotalSize(entries) == TotalSize(front) + last.Size();
      hide TotalSize;
      PendingEverything(optimalSize, front);
      assert entries == front + [last];
    }
  }

  lemma SuffixSnoc(front: seq<Entry>, last: Entry, k: nat)
    requires k <= |front|
    ensures (front + [last])[k..] == front[k..] + [last]
  {
  }

  /** What one `load` hands over of the entries collected before. */
  function Kept(optimalSize: nat, entries: seq<Entry>): (r: seq<Entry>)
  {
    var s := Pending(optimalSize, entries);
    if |s| < |entries| && TotalSize(s) == 0 then entries[..|entries| - |s|] else entries
  }

  /** Nothing is lost if and only if no flush was followed only by entries without bytes. */
  lemma KeptAll(optimalSize: nat, entries: seq<Entry>)
    ensures Kept(optimalSize, entries) == entries <==>
      var s := Pending(optimalSize, entries); s == [] || s == entries || TotalSize(s) > 0
  {
    hide TotalSize, Pending;
    PendingSuffix(optimalSize, entries);
  }

  lemma {:induction false} SizePositive(s: seq<Entry>)
    requires s != [] && s[|s| - 1].Size() > 0
    ensures TotalSize(s) > 0
  {
  }

  /** In particular nothing is lost if the last entry has a key. */
  lemma KeptWithKeys(optimalSize: nat, entries: seq<Entry>)
    requires entries != [] ==> entries[|entries| - 1].key != []
    ensures Kept(optimalSize, entries) == entries
  {
    KeptAll(optimalSize, entries);
    PendingSuffix(optimalSize, entries);
    var s := Pending(optimalSize, entries);
    if s != [] { SizePositive(s); }
  }

  lemma FlushedServes(f: File, id: nat, entries: seq<Entry>, size: nat)
    requires f == File(id, true, size + |Arranged(entries)| * 8, WrittenAll(Arranged(entries))) && size > 0
    requires AllShort(entries)
    ensures Serves(f, id, Arranged(entries)) && multiset(Arranged(entries)) == multiset(entries)
  {
    hide WrittenAll, Short;
    ArrangedSorted(entries);
    forall e | e in Arranged(entries) ensures Short(e) { assert e in multiset(entries); }
  }

  lemma UnionSnoc(runs: seq<seq<Entry>>, s: seq<Entry>)
    ensures Union(runs + [s]) == Union(runs) + multiset(s)
  {
    assert (runs + [s])[..|runs|] == runs;
  }

  class Collector {
    const buffer: Buffer
    var files: seq<File>
    var size: nat
    /** What each file holds, and everything flushed so far in the order of collection. */
    ghost var runs: seq<seq<Entry>>
    ghost var flushed: seq<Entry>

    ghost predicate Stored()
      reads this, buffer
    {
      && buffer.Valid() && AllShort(buffer.Entries()) && Served(files, runs)
      && Union(runs) == multiset(flushed) && (files == [] <==> flushed == [])
    }

    /** All entries collected, in order. */
    ghost function History(): (s: seq<Entry>)
      requires buffer.Valid()
      reads this, buffer
    {
      flushed + buffer.Entries()
    }

    ghost predicate Valid()
      reads this, buffer
    {
      && Stored() && size == |History()|
      && buffer.Entries() == Pending(buffer.optimalSize, History())
    }

    constructor (optimalSize: nat, capacity: nat)
      ensures Valid() && fresh(buffer) && History() == [] && buffer.optimalSize == optimalSize
    {
      buffer := new Buffer(optimalSize, capacity);
      files, size, runs, flushed := [], 0, [], [];
    }

    /** Moves the buffer into a new file, unless its entries have no bytes at all. */
    method FlushBuffer()
      requires Stored()
      modifies this`files, this`runs, this`flushed, buffer
      ensures Stored() && History() == old(History())
      ensures buffer.Entries() == if old(buffer.size) == 0 then old(buffer.Entries()) else []
    {
      if buffer.size != 0 {
        hide Served, WrittenAll, Union, Arranged, AllShort;
        ghost var entries := buffer.Entries();
        buffer.Sort();
        var f := Flush(|files|, buffer.Entries(), buffer.size);
        ServedSnoc(files, runs, f, entries, buffer.size);
        files := files + [f];
        runs := runs + [Arranged(entries)];
        flushed := flushed + entries;
        buffer.Clear();
        NothingShort(buffer.Entries());
      }
    }

    method Collect(e: Entry)
      requires Valid() && Short(e)
      modifies this, buffer
      ensures Valid() && History() == old(History()) + [e]
    {
      hide Served, Union, Pending;
      ghost var before := History();
      buffer.Put(e);
      size := size + 1;
      assert History() == before + [e];
      PendingNext(buffer.optimalSize, before, e);
      if buffer.Overflows() {
        FlushBuffer();
      }
    }

    /** Hands over the sorted arrangement of what is kept of all that was collected. */
    method Load() returns (out: seq<Entry>)
      requires Valid()
      modifies this, buffer
      ensures out == Arranged(Kept(buffer.optimalSize, old(History())))
    {
      hide Sorted, Union, Arranged, TotalSize, Served, Pending;
      ghost var all, pending := History(), buffer.Entries();
      ghost var kept := Kept(buffer.optimalSize, all);
      if size == 0 {
        ArrangedNothing();
        return [];
      }
      if files == [] {
        assert all == pending == kept;
        out := LoadBuffer();
        return;
      }
      FlushBuffer();
      assert all == flushed + buffer.Entries();
      assert flushed == kept;
      files, out := Merge(files, runs);
      ArrangedSorted(kept);
      SortedUnique(out, Arranged(kept));
      size := 0;
    }

    method LoadBuffer() returns (out: seq<Entry>)
      requires buffer.Valid()
      modifies buffer
      ensures out == Arranged(old(buffer.Entries()))
    {
      hide Arranged, TotalSize;
      buffer.Sort();
      var entries := buffer.Entries();
      out := [];
      for i := 0 to |entries|
        invariant out == entries[..i]
      {
        out := out + [entries[i]];
      }
      buffer.Clear();
    }
  }

  lemma NothingShort(s: seq<Entry>)
    requires s == []
    ensures AllShort(s)
  {
  }

  lemma ArrangedNothing()
    ensures Arranged([]) == []
  {
  }

  lemma PendingNext(optimalSize: nat, entries: seq<Entry>, e: Entry)
    ensures var s := Pending(optimalSize, entries) + [e];
      Pending(optimalSize, entries + [e]) == if TotalSize(s) > 0 && TotalSize(s) >= optimalSize then [] else s
  {
    hide TotalSize;
    assert (entries + [e])[..|entries|] == entries;
  }

  // --- from collection to load ---

  /** For every flush size, collecting entries and loading them hands over the sorted
      arrangement of what is kept, which is everything if the keys are not empty. */
  method CollectAndLoad(optimalSize: nat, capacity: nat, entries: seq<Entry>) returns (out: seq<Entry>)
    requires AllShort(entries)
    ensures out == Arranged(Kept(optimalSize, entries))
    ensures (forall e <- entries :: e.key != []) ==> out == Arranged(entries)
  {
    hide Arranged, Pending, Kept, Served, Union, TotalSize, Short;
    var collector := new Collector(optimalSize, capacity);
    for i := 0 to |entries|
      invariant collector.Valid() && fresh(collector) && fresh(collector.buffer)
      invariant collector.History() == entries[..i] && collector.buffer.optimalSize == optimalSize
    {
      assert entries[i] in entries;
      collector.Collect(entries[i]);
    }
    assert entries[..|entries|] == entries;
    out := collector.Load();
    if forall e <- entries :: e.key != [] { KeptWithKeys(optimalSize, entries); }
  }

  /** With a flush size of one byte, an entry without bytes that comes last is lost. */
  method LoseLastEntry() returns (out: seq<Entry>)
    ensures out == [Entry([1], [])]
  {
    var first, last := Entry([1], []), Entry([], []);
    out := CollectAndLoad(1, 0, [first, last]);
    LostInput(first, last);
  }

  lemma LostInput(first: Entry, last: Entry)
    requires first == Entry([1], []) && last == Entry([], [])
    ensures Kept(1, [first, last]) == [first] && Arranged([first]) == [first]
  {
    hide Pending, Arranged, TotalSize;
    PendingNothing(1);
    PendingNext(1, [], first);
    PendingNext(1, [first], last);
    SizeOne(first);
    SizeOne(last);
    assert [] + [first] == [first] && [] + [last] == [last] && [first] + [last] == [first, last];
    ArrangedOne(first);
    assert [first, last][..1] == [first];
  }

  lemma PendingNothing(optimalSize: nat)
    ensures Pending(optimalSize, []) == []
  {
  }

  lemma SizeOne(e: Entry)
    ensures TotalSize([e]) == e.Size()
  {
    assert [e][..0] == [];
  }

  lemma ArrangedOne(e: Entry)
    ensures Arranged([e]) == [e]
  {
    assert [e][1..] == [];
    assert Arranged([]) == [];
  }
}
