/** Refunds for clearing storage: `EvmHost::set_storage` (core/silkworm/execution/evm.cpp),
    EIP-1283, EIP-2200 and EIP-3529. */
module Refunds {
  import opened Basics
  import opened World
  import opened Journal
  import opened FlatState

  // --- the fee schedule ---

  type Revision = nat
  const HOMESTEAD: Revision := 1
  const SPURIOUS_DRAGON: Revision := 3
  const BYZANTIUM: Revision := 4
  const CONSTANTINOPLE: Revision := 5
  const ISTANBUL: Revision := 7
  const BERLIN: Revision := 8
  const LONDON: Revision := 9

  const SET_GAS: nat := 20_000
  const RESET_GAS: nat := 5_000
  const CLEAR_REFUND: nat := 15_000
  const COLD_LOAD: nat := 2_100
  const WARM_READ: nat := 100
  const LOAD_ISTANBUL: nat := 800
  const LOAD_TANGERINE_WHISTLE: nat := 200
  const ACCESS_LIST_KEY: nat := 1_900

  predicate NetMetered(rev: Revision)
  {
    rev >= ISTANBUL || rev == CONSTANTINOPLE
  }

  function LoadCost(rev: Revision): (n: nat)
  {
    if rev >= BERLIN then WARM_READ else if rev >= ISTANBUL then LOAD_ISTANBUL else LOAD_TANGERINE_WHISTLE
  }

  function ResetGas(rev: Revision): (n: nat)
  {
    if rev >= BERLIN then RESET_GAS - COLD_LOAD else RESET_GAS
  }

  function ClearRefund(rev: Revision): (n: nat)
  {
    if rev >= LONDON then ResetGas(rev) + ACCESS_LIST_KEY else CLEAR_REFUND
  }

  datatype StorageStatus = Unchanged | Modified | ModifiedAgain | Added | Deleted

  // --- one write ---

  /** The changes of the refund counter when a slot goes from `current` to a different `v`. */
  function RefundOps(rev: Revision, original: Word, current: Word, v: Word): (ops: seq<Op>)
  {
    if !NetMetered(rev) then
      if current != 0 && v == 0 then [AddRefund(CLEAR_REFUND)] else []
    else if original == current then
      if original != 0 && v == 0 then [AddRefund(ClearRefund(rev))] else []
    else
      (if original != 0 && current == 0 then [SubtractRefund(ClearRefund(rev))] else []) +
      (if original != 0 && v == 0 then [AddRefund(ClearRefund(rev))] else []) +
      (if original != v then []
       else if original == 0 then [AddRefund(SET_GAS - LoadCost(rev))]
       else [AddRefund(ResetGas(rev) - LoadCost(rev))])
  }

  function WriteStatus(rev: Revision, original: Word, current: Word, v: Word): (status: StorageStatus)
  {
    if current == v then Unchanged
    else if !NetMetered(rev) then
      if current == 0 then Added else if v == 0 then Deleted else Modified
    else if original != current then ModifiedAgain
    else if original == 0 then Added else Modified
  }

  /** The operations on the state that one SSTORE amounts to. */
  function WriteOps(db: Db, rev: Revision, s: State, a: Address, k: Word, v: Word): (ops: seq<Op>)
  {
    var current := CurrentStorage(db, s, a, k);
    if current == v then [ReadStorage(a, k, false)]
    else
      [ReadStorage(a, k, false), WriteStorage(a, k, v)] +
      (if NetMetered(rev) then [ReadStorage(a, k, true)] else []) +
      RefundOps(rev, OriginalStorage(db, s, a, k), current, v)
  }

  // --- the counter in unbounded arithmetic ---

  function Change(op: Op): (d: int)
  {
    match op
    case AddRefund(n) => n
    case SubtractRefund(n) => 0 - n
    case _ => 0
  }

  function Net(ops: seq<Op>): (d: int)
  {
    if ops == [] then 0 else Change(ops[0]) + Net(ops[1..])
  }

  /** No subtraction takes the counter below zero, starting from `r`. */
  predicate NeverNegative(r: int, ops: seq<Op>)
    decreases |ops|
  {
    ops == [] || (r + Change(ops[0]) >= 0 && NeverNegative(r + Change(ops[0]), ops[1..]))
  }

  /** The slots cleared in this transaction. */
  function Cleared(f: Flat): (r: set<Cell>)
  {
    set c | c in f.original.Keys && f.original[c] != 0 && At(f.current, c.a, c.k) == 0
  }

  predicate IsCleared(original: Word, current: Word)
  {
    original != 0 && current == 0
  }

  /** A write pays for the slots it clears and takes back what it gave for a slot it restores. */
  lemma NetCovers(rev: Revision, original: Word, current: Word, v: Word, r: int)
    requires current != v && r >= 0 && (IsCleared(original, current) ==> r >= ClearRefund(rev))
    ensures NeverNegative(r, RefundOps(rev, original, current, v))
    ensures Net(RefundOps(rev, original, current, v)) >=
      (if IsCleared(original, v) then ClearRefund(rev) else 0) - (if IsCleared(original, current) then ClearRefund(rev) else 0)
    ensures Net(RefundOps(rev, original, current, v)) <= 34_900
  {
    if NetMetered(rev) && original != current {
      var back := if original != 0 && current == 0 then [SubtractRefund(ClearRefund(rev))] else [];
      var clear := if original != 0 && v == 0 then [AddRefund(ClearRefund(rev))] else [];
      var restored := if original != v then []
        else if original == 0 then [AddRefund(SET_GAS - LoadCost(rev))] else [AddRefund(ResetGas(rev) - LoadCost(rev))];
      assert RefundOps(rev, original, current, v) == back + clear + restored;
      NetAppend(back + clear, restored);
      NetAppend(back, clear);
    }
  }

  lemma NetAppend(x: seq<Op>, y: seq<Op>)
    ensures Net(x + y) == Net(x) + Net(y)
  {
    if x == [] {
      assert x + y == y;
    } else {
      assert (x + y)[1..] == x[1..] + y;
      NetAppend(x[1..], y);
    }
  }

  /** What the status of a write tells: nothing new, a slot written before in this transaction, one that was empty, one that is
      emptied (net metering reports that as a modification), or one that holds another value. */
  lemma StatusMeaning(rev: Revision, original: Word, current: Word, v: Word)
    ensures var status, dirty := WriteStatus(rev, original, current, v), NetMetered(rev) && original != current;
      && (status == Unchanged <==> v == current)
      && (status == ModifiedAgain <==> v != current && dirty)
      && (status == Added <==> v != current && !dirty && current == 0)
      && (status == Deleted <==> v == 0 && current != 0 && !NetMetered(rev))
      && (status == Modified <==> v != current && !dirty && current != 0 && (NetMetered(rev) || v != 0))
  {
  }

  /** The refund of one write in one formula: a slot that is cleared is paid for, one that is no longer cleared takes that back, and
      with net metering a slot that gets its original value again returns what the first write cost beyond a load. */
  lemma RefundExact(rev: Revision, original: Word, current: Word, v: Word)
    requires current != v
    ensures Net(RefundOps(rev, original, current, v)) ==
      if !NetMetered(rev) then (if current != 0 && v == 0 then 15_000 else 0)
      else
        ClearRefund(rev) * ((if original != 0 && v == 0 then 1 else 0) - (if original != 0 && current == 0 then 1 else 0))
        + if v == original then (if original == 0 then SET_GAS else ResetGas(rev)) - LoadCost(rev) else 0
  {
    if NetMetered(rev) && original != current {
      var back := if original != 0 && current == 0 then [SubtractRefund(ClearRefund(rev))] else [];
      var clear := if original != 0 && v == 0 then [AddRefund(ClearRefund(rev))] else [];
      var restored := if original != v then []
        else if original == 0 then [AddRefund(SET_GAS - LoadCost(rev))] else [AddRefund(ResetGas(rev) - LoadCost(rev))];
      assert RefundOps(rev, original, current, v) == back + clear + restored;
      NetAppend(back + clear, restored);
      NetAppend(back, clear);
    }
  }

  /** The amounts of EIP-1283, EIP-2200, EIP-2929 and EIP-3529: for a cleared slot, and for one that is empty or not empty again. */
  lemma RefundAmounts(rev: Revision)
    ensures NetMetered(rev) <==> rev == CONSTANTINOPLE || rev >= ISTANBUL
    ensures rev == CONSTANTINOPLE ==> ClearRefund(rev) == 15_000 && SET_GAS - LoadCost(rev) == 19_800 && ResetGas(rev) - LoadCost(rev) == 4_800
    ensures rev == ISTANBUL ==> ClearRefund(rev) == 15_000 && SET_GAS - LoadCost(rev) == 19_200 && ResetGas(rev) - LoadCost(rev) == 4_200
    ensures rev == BERLIN ==> ClearRefund(rev) == 15_000 && SET_GAS - LoadCost(rev) == 19_900 && ResetGas(rev) - LoadCost(rev) == 2_800
    ensures rev >= LONDON ==> ClearRefund(rev) == 4_800 && SET_GAS - LoadCost(rev) == 19_900 && ResetGas(rev) - LoadCost(rev) == 2_800
  {
  }

  // --- the cleared slots ---

  lemma ClearedWrite(f: Flat, a: Address, k: Word, v: Word)
    ensures var g := f.(current := f.current[Cell(a, k) := v]);
      |Cleared(g)| == |Cleared(f)| + (if IsCleared(At(f.original, a, k), v) then 1 else 0)
                      - (if IsCleared(At(f.original, a, k), At(f.current, a, k)) then 1 else 0)
    ensures IsCleared(At(f.original, a, k), At(f.current, a, k)) ==> |Cleared(f)| > 0
  {
    var c := Cell(a, k);
    var g := f.(current := f.current[c := v]);
    var rest := Cleared(f) - {c};
    assert Cleared(f) == if IsCleared(At(f.original, a, k), At(f.current, a, k)) then rest + {c} else rest;
    assert Cleared(g) == if IsCleared(At(f.original, a, k), v) then rest + {c} else rest;
  }

  /** A created contract starts with no cleared slots, whatever storage it starts with. */
  lemma ClearedCreate(db: Db, f: Flat, a: Address)
    ensures |Cleared(FlatCreate(db, f, a))| <= |Cleared(f)|
  {
    hide Seed, Without, FlatIncarnation;
    var g, n := FlatCreate(db, f, a), FlatIncarnation(db, f, a);
    forall c | c in Cleared(g) ensures c in Cleared(f) {
      assert c == Cell(c.a, c.k);
      CreatedCells(f.original, db, a, n, c.a, c.k);
      CreatedCells(f.current, db, a, n, c.a, c.k);
      assert At(g.original, c.a, c.k) == g.original[c];
    }
    SubsetSize(Cleared(g), Cleared(f));
  }

  lemma SubsetSize<T>(x: set<T>, y: set<T>)
    requires x <= y
    ensures |x| <= |y|
  {
    assert y == x + (y - x);
  }

  lemma ClearedStart(f: Flat)
    requires f.original == f.current
    ensures Cleared(f) == {}
  {
    forall c | c in f.original.Keys ensures At(f.current, c.a, c.k) == f.original[c] {
      assert c == Cell(c.a, c.k);
    }
  }

  lemma ClearedOther(db: Db, keccak: Bytes -> Word, f: Flat, op: Op)
    requires !op.WriteStorage?
    ensures |Cleared(FlatApply(db, keccak, f, op))| <= |Cleared(f)|
  {
    hide FlatCreate, Edited;
    if op.MakeContract? {
      ClearedCreate(db, f, op.a);
    } else {
      assert Cleared(FlatApply(db, keccak, f, op)) == Cleared(f);
    }
  }

  // --- runs of a transaction ---

  /** What the interpreter does to the state, SSTORE being one step; the refund counter and storage
      are changed by nothing else. */
  datatype HostStep = Store(a: Address, k: Word, v: Word) | Other(op: Op) | Snap | Back(i: nat)

  function ApplyAll(db: Db, keccak: Bytes -> Word, s: State, ops: seq<Op>): (t: State)
    decreases |ops|
  {
    if ops == [] then s else ApplyAll(db, keccak, Apply(db, keccak, s, ops[0]), ops[1..])
  }

  function PlainStep(step: HostStep): (r: Step)
    requires !step.Store?
  {
    match step
    case Other(op) => Do(op)
    case Snap => Take
    case Back(i) => RevertTo(i)
  }

  /** The run never goes back to a snapshot it does not hold. */
  ghost predicate HostProper(marks: nat, steps: seq<HostStep>)
    decreases |steps|
  {
    steps == [] ||
    match steps[0]
    case Store(_, _, _) => HostProper(marks, steps[1..])
    case Other(_) => HostProper(marks, steps[1..])
    case Snap => HostProper(marks + 1, steps[1..])
    case Back(i) => i < marks && HostProper(i + 1, steps[1..])
  }

  ghost function HostNext(db: Db, keccak: Bytes -> Word, rev: Revision, m: Machine, step: HostStep): (n: Machine)
    requires Consistent(db, m) && (step.Back? ==> step.i < |m.marks|)
    ensures Consistent(db, n)
    ensures |n.marks| == match step case Snap => |m.marks| + 1 case Back(i) => i + 1 case _ => |m.marks|
  {
    if step.Store? then
      ApplyAllConsistent(db, keccak, m, WriteOps(db, rev, m.now, step.a, step.k, step.v));
      m.(now := ApplyAll(db, keccak, m.now, WriteOps(db, rev, m.now, step.a, step.k, step.v)))
    else
      NextConsistent(db, keccak, m, PlainStep(step));
      Next(db, keccak, m, PlainStep(step))
  }

  ghost function HostRun(db: Db, keccak: Bytes -> Word, rev: Revision, m: Machine, steps: seq<HostStep>): (n: Machine)
    requires Consistent(db, m) && HostProper(|m.marks|, steps)
    ensures Consistent(db, n)
    decreases |steps|
  {
    if steps == [] then m else HostRun(db, keccak, rev, HostNext(db, keccak, rev, m, steps[0]), steps[1..])
  }

  // --- the same on flat maps ---

  predicate LegalHostStep(f: Flat, saved: seq<Flat>, step: HostStep)
  {
    match step
    case Store(a, k, v) => Legal(f, WriteStorage(a, k, v))
    case Other(op) => !op.WriteStorage? && !op.AddRefund? && !op.SubtractRefund?
    case Snap => true
    case Back(i) => i < |saved|
  }

  function FlatHostNext(db: Db, keccak: Bytes -> Word, f: Flat, saved: seq<Flat>, step: HostStep): (r: (Flat, seq<Flat>))
    requires step.Back? ==> step.i < |saved|
  {
    if step.Store? then
      (if At(f.current, step.a, step.k) == step.v then f
       else f.(current := f.current[Cell(step.a, step.k) := step.v]), saved)
    else FlatNext(db, keccak, f, saved, PlainStep(step))
  }

  /** The refund that one SSTORE is worth. */
  function Worth(rev: Revision, f: Flat, a: Address, k: Word, v: Word): (d: int)
  {
    var original, current := At(f.original, a, k), At(f.current, a, k);
    if current == v then 0 else Net(RefundOps(rev, original, current, v))
  }

  lemma {:induction false} ApplyAllConsistent(db: Db, keccak: Bytes -> Word, m: Machine, ops: seq<Op>)
    requires Consistent(db, m)
    ensures Consistent(db, m.(now := ApplyAll(db, keccak, m.now, ops)))
    decreases |ops|
  {
    hide Consistent, Apply;
    if ops != [] {
      NextConsistent(db, keccak, m, Do(ops[0]));
      ApplyAllConsistent(db, keccak, m.(now := Apply(db, keccak, m.now, ops[0])), ops[1..]);
    }
  }

  /** The refund counter in unbounded arithmetic, with its values at the snapshots. */
  datatype Counter = Counter(r: int, marks: seq<int>)

  function Count(rev: Revision, f: Flat, c: Counter, step: HostStep): (d: Counter)
    requires step.Back? ==> step.i < |c.marks|
  {
    match step
    case Store(a, k, v) => c.(r := c.r + Worth(rev, f, a, k, v))
    case Other(_) => c
    case Snap => c.(marks := c.marks + [c.r])
    case Back(i) => Counter(c.marks[i], c.marks[..i + 1])
  }

  /** The counter of the state is the unbounded one modulo 2^64, which pays for every cleared slot. */
  ghost predicate Covers(rev: Revision, s: State, f: Flat, r: int)
  {
    s.refund == r % TWO_64 && r >= ClearRefund(rev) * |Cleared(f)|
  }

  ghost predicate Backed(db: Db, rev: Revision, m: Machine, f: Flat, saved: seq<Flat>, c: Counter)
  {
    && Linked(db, m, f, saved) && |c.marks| == |m.marks|
    && Covers(rev, m.now, f, c.r)
    && forall i | 0 <= i < |saved| :: Covers(rev, m.marks[i].saved, saved[i], c.marks[i])
  }

  lemma ApplyRefund(db: Db, keccak: Bytes -> Word, s: State, op: Op, r: int)
    requires s.refund == r % TWO_64
    ensures Apply(db, keccak, s, op).refund == (r + Change(op)) % TWO_64
  {
    hide Fetch, FetchCode, FetchStorage, Put, Touch, ChangeBalance, SetCode, CreateContract, SetStorage,
      RecordSuicide, AccessAccount, AccessStorage;
    match op
    case AddRefund(n) => Residue(r, n);
    case SubtractRefund(n) => Residue(r, 0 - n);
    case SelfDestruct(_) | WarmAccount(_) | WarmStorage(_, _) => SubstateRefund(db, keccak, s, op);
    case _ =>
  }

  lemma SubstateRefund(db: Db, keccak: Bytes -> Word, s: State, op: Op)
    requires op.SelfDestruct? || op.WarmAccount? || op.WarmStorage?
    ensures Apply(db, keccak, s, op).refund == s.refund
  {
  }

  lemma Residue(r: int, d: int)
    ensures (r % TWO_64 + d) % TWO_64 == (r + d) % TWO_64
  {
  }

  lemma {:induction false} ApplyAllRefund(db: Db, keccak: Bytes -> Word, s: State, ops: seq<Op>, r: int)
    requires s.refund == r % TWO_64
    ensures ApplyAll(db, keccak, s, ops).refund == (r + Net(ops)) % TWO_64
    decreases |ops|
  {
    if ops != [] {
      ApplyRefund(db, keccak, s, ops[0], r);
      ApplyAllRefund(db, keccak, Apply(db, keccak, s, ops[0]), ops[1..], r + Change(ops[0]));
    }
  }

  predicate Passive(op: Op)
  {
    op.ReadStorage? || op.AddRefund? || op.SubtractRefund?
  }

  /** Reads and changes of the counter leave the flat maps alone. */
  lemma {:induction false} PassiveLinked(db: Db, keccak: Bytes -> Word, m: Machine, ops: seq<Op>, f: Flat, saved: seq<Flat>)
    requires DbOk(db) && Linked(db, m, f, saved) && forall op <- ops :: Passive(op)
    ensures Linked(db, m.(now := ApplyAll(db, keccak, m.now, ops)), f, saved)
    decreases |ops|
  {
    hide Linked, Apply;
    if ops != [] {
      assert Passive(ops[0]);
      NextLinked(db, keccak, m, Do(ops[0]), f, saved);
      PassiveLinked(db, keccak, m.(now := Apply(db, keccak, m.now, ops[0])), ops[1..], f, saved);
    }
  }

  lemma {:induction false} ApplyAllAppend(db: Db, keccak: Bytes -> Word, s: State, x: seq<Op>, y: seq<Op>)
    ensures ApplyAll(db, keccak, s, x + y) == ApplyAll(db, keccak, ApplyAll(db, keccak, s, x), y)
    decreases |x|
  {
    hide Apply;
    if x == [] {
      assert x + y == y;
    } else {
      assert (x + y)[0] == x[0] && (x + y)[1..] == x[1..] + y;
      ApplyAllAppend(db, keccak, Apply(db, keccak, s, x[0]), x[1..], y);
    }
  }

  lemma RefundOpsPassive(rev: Revision, original: Word, current: Word, v: Word)
    ensures forall op <- RefundOps(rev, original, current, v) :: Passive(op)
  {
  }

  /** One SSTORE: the flat maps see a write, and the counter moves by what the write is worth. */
  lemma StoreLinked(db: Db, keccak: Bytes -> Word, rev: Revision, m: Machine, a: Address, k: Word, v: Word, f: Flat, saved: seq<Flat>)
    requires DbOk(db) && Linked(db, m, f, saved) && Legal(f, WriteStorage(a, k, v))
    requires CurrentStorage(db, m.now, a, k) != v
    ensures Linked(db, m.(now := ApplyAll(db, keccak, m.now, WriteOps(db, rev, m.now, a, k, v))),
                   f.(current := f.current[Cell(a, k) := v]), saved)
  {
    hide Linked, Apply, ApplyAll, RefundOps, CurrentStorage, OriginalStorage, Live, AccountOf;
    var read, write := [ReadStorage(a, k, false)], [WriteStorage(a, k, v)];
    var again := if NetMetered(rev) then [ReadStorage(a, k, true)] else [];
    var refunds := RefundOps(rev, OriginalStorage(db, m.now, a, k), CurrentStorage(db, m.now, a, k), v);
    RefundOpsPassive(rev, OriginalStorage(db, m.now, a, k), CurrentStorage(db, m.now, a, k), v);
    assert WriteOps(db, rev, m.now, a, k, v) == read + (write + (again + refunds));
    ApplyAllAppend(db, keccak, m.now, read, write + (again + refunds));
    PassiveLinked(db, keccak, m, read, f, saved);
    var m1 := m.(now := ApplyAll(db, keccak, m.now, read));
    ApplyAllAppend(db, keccak, m1.now, write, again + refunds);
    WriteLinked(db, keccak, m1, a, k, v, f, saved);
    var m2 := m.(now := ApplyAll(db, keccak, m1.now, write));
    PassiveLinked(db, keccak, m2, again + refunds, f.(current := f.current[Cell(a, k) := v]), saved);
  }

  lemma MatchesRefines(db: Db, s: State, f: Flat)
    requires Matches(db, s, f)
    ensures Refines(db, s, f)
  {
    ViewedRefines(db, s, f);
  }

  lemma WriteLinked(db: Db, keccak: Bytes -> Word, m: Machine, a: Address, k: Word, v: Word, f: Flat, saved: seq<Flat>)
    requires DbOk(db) && Linked(db, m, f, saved) && Legal(f, WriteStorage(a, k, v))
    ensures Linked(db, m.(now := ApplyAll(db, keccak, m.now, [WriteStorage(a, k, v)])),
                   f.(current := f.current[Cell(a, k) := v]), saved)
  {
    hide Linked, Apply, Legal;
    NextLinked(db, keccak, m, Do(WriteStorage(a, k, v)), f, saved);
  }

  lemma WriteNet(db: Db, rev: Revision, s: State, a: Address, k: Word, v: Word)
    ensures Net(WriteOps(db, rev, s, a, k, v)) ==
      if CurrentStorage(db, s, a, k) == v then 0
      else Net(RefundOps(rev, OriginalStorage(db, s, a, k), CurrentStorage(db, s, a, k), v))
  {
    hide RefundOps;
    var refunds := RefundOps(rev, OriginalStorage(db, s, a, k), CurrentStorage(db, s, a, k), v);
    var front := [ReadStorage(a, k, false), WriteStorage(a, k, v)] + (if NetMetered(rev) then [ReadStorage(a, k, true)] else []);
    NetAppend(front, refunds);
    NetZero(front);
  }

  lemma NetZero(ops: seq<Op>)
    requires forall op <- ops :: Change(op) == 0
    ensures Net(ops) == 0
  {
    if ops != [] { NetZero(ops[1..]); }
  }

  lemma StoreBacked(db: Db, keccak: Bytes -> Word, rev: Revision, m: Machine, f: Flat, saved: seq<Flat>, c: Counter,
                    a: Address, k: Word, v: Word)
    requires DbOk(db) && Backed(db, rev, m, f, saved, c) && Legal(f, WriteStorage(a, k, v))
    ensures Backed(db, rev, HostNext(db, keccak, rev, m, Store(a, k, v)),
                   FlatHostNext(db, keccak, f, saved, Store(a, k, v)).0, saved, Count(rev, f, c, Store(a, k, v)))
    ensures NeverNegative(c.r, WriteOps(db, rev, m.now, a, k, v))
  {
    hide Linked, RefundOps, Cleared, CurrentStorage, OriginalStorage, NeverNegative, Net, Covers, ClearRefund, ApplyAll, Legal;
    var s := m.now;
    var ops := WriteOps(db, rev, s, a, k, v);
    var original, current := OriginalStorage(db, s, a, k), CurrentStorage(db, s, a, k);
    assert original == At(f.original, a, k) && current == At(f.current, a, k) by { LinkedRefines(db, m, f, saved); }
    var t := ApplyAll(db, keccak, s, ops);
    assert s.refund == c.r % TWO_64 && c.r >= 0 by { CoversFacts(rev, s, f, c.r); }
    ApplyAllRefund(db, keccak, s, ops, c.r);
    WriteNet(db, rev, s, a, k, v);
    if current == v {
      PassiveLinked(db, keccak, m, ops, f, saved);
      CoversFewer(rev, s, f, c.r, t, f);
      NeverNegativeRead(c.r, a, k);
    } else {
      StoreLinked(db, keccak, rev, m, a, k, v, f, saved);
      CoversWrite(rev, s, f, c.r, t, a, k, v);
      NeverNegativeAfter(c.r, [ReadStorage(a, k, false), WriteStorage(a, k, v)] +
        (if NetMetered(rev) then [ReadStorage(a, k, true)] else []), RefundOps(rev, original, current, v));
    }
  }

  lemma NeverNegativeRead(r: int, a: Address, k: Word)
    requires r >= 0
    ensures NeverNegative(r, [ReadStorage(a, k, false)])
  {
  }

  lemma CoversFacts(rev: Revision, s: State, f: Flat, r: int)
    requires Covers(rev, s, f, r)
    ensures s.refund == r % TWO_64 && r >= 0
  {
    assert ClearRefund(rev) * |Cleared(f)| >= 0;
  }

  lemma CoversWrite(rev: Revision, s: State, f: Flat, r: int, t: State, a: Address, k: Word, v: Word)
    requires Covers(rev, s, f, r) && At(f.current, a, k) != v
    requires t.refund == (r + Net(RefundOps(rev, At(f.original, a, k), At(f.current, a, k), v))) % TWO_64
    ensures Covers(rev, t, f.(current := f.current[Cell(a, k) := v]),
                   r + Net(RefundOps(rev, At(f.original, a, k), At(f.current, a, k), v)))
    ensures NeverNegative(r, RefundOps(rev, At(f.original, a, k), At(f.current, a, k), v))
  {
    hide Cleared, RefundOps, NeverNegative, Net, ClearRefund;
    var n, clear := |Cleared(f)|, ClearRefund(rev);
    var original, current := At(f.original, a, k), At(f.current, a, k);
    ClearedWrite(f, a, k, v);
    CoversFacts(rev, s, f, r);
    if IsCleared(original, current) {
      assert clear * n == clear * (n - 1) + clear;
      assert clear * (n - 1) >= 0;
    }
    NetCovers(rev, original, current, v, r);
    var n' := |Cleared(f.(current := f.current[Cell(a, k) := v]))|;
    assert clear * n' == clear * n + clear * (n' - n);
  }

  lemma LinkedRefines(db: Db, m: Machine, f: Flat, saved: seq<Flat>)
    requires Linked(db, m, f, saved)
    ensures Refines(db, m.now, f)
  {
    hide Consistent, UndoTidy, Refines;
    MatchesRefines(db, m.now, f);
  }

  lemma NeverNegativeAfter(r: int, front: seq<Op>, ops: seq<Op>)
    requires NeverNegative(r, ops) && r >= 0 && forall op <- front :: Change(op) == 0
    ensures NeverNegative(r, front + ops)
    decreases |front|
  {
    if front == [] {
      assert front + ops == ops;
    } else {
      assert (front + ops)[1..] == front[1..] + ops && (front + ops)[0] == front[0];
      assert Change(front[0]) == 0;
      NeverNegativeAfter(r, front[1..], ops);
    }
  }

  /** Every step keeps the counter at or above what the cleared slots are worth. */
  lemma HostNextBacked(db: Db, keccak: Bytes -> Word, rev: Revision, m: Machine, f: Flat, saved: seq<Flat>, c: Counter, step: HostStep)
    requires DbOk(db) && Backed(db, rev, m, f, saved, c) && LegalHostStep(f, saved, step)
    ensures |saved| == |m.marks| && Consistent(db, m)
    ensures var (g, kept) := FlatHostNext(db, keccak, f, saved, step);
      Backed(db, rev, HostNext(db, keccak, rev, m, step), g, kept, Count(rev, f, c, step))
  {
    hide Linked, Cleared, FlatApply, Apply, Legal, FlatRevert;
    LinkedSizes(db, m, f, saved);
    if step.Store? {
      StoreBacked(db, keccak, rev, m, f, saved, c, step.a, step.k, step.v);
    } else {
      PlainLegal(f, saved, step);
      NextLinked(db, keccak, m, PlainStep(step), f, saved);
      match step
      case Other(op) =>
        ApplyRefund(db, keccak, m.now, op, c.r);
        ClearedOther(db, keccak, f, op);
        CoversFewer(rev, m.now, f, c.r, Apply(db, keccak, m.now, op), FlatApply(db, keccak, f, op));
      case Snap =>
      case Back(i) =>
        MarkRefund(db, m, f, saved, i);
        RevertCleared(f, saved[i]);
    }
  }

  lemma PlainLegal(f: Flat, saved: seq<Flat>, step: HostStep)
    requires !step.Store? && LegalHostStep(f, saved, step)
    ensures LegalStep(f, saved, PlainStep(step))
  {
  }

  lemma RevertCleared(f: Flat, g: Flat)
    ensures Cleared(FlatRevert(f, g)) == Cleared(g)
  {
  }

  lemma CoversFewer(rev: Revision, s: State, f: Flat, r: int, t: State, g: Flat)
    requires Covers(rev, s, f, r) && t.refund == s.refund && |Cleared(g)| <= |Cleared(f)|
    ensures Covers(rev, t, g, r)
  {
    assert ClearRefund(rev) * (|Cleared(f)| - |Cleared(g)|) >= 0;
  }

  lemma LinkedSizes(db: Db, m: Machine, f: Flat, saved: seq<Flat>)
    requires Linked(db, m, f, saved)
    ensures |saved| == |m.marks| && Consistent(db, m)
  {
  }

  lemma MarkRefund(db: Db, m: Machine, f: Flat, saved: seq<Flat>, i: nat)
    requires Linked(db, m, f, saved) && i < |m.marks|
    ensures m.marks[i].snapshot.refund == m.marks[i].saved.refund
  {
    hide Sound, UndoTidy, Descends;
  }

  // --- whole transactions ---

  predicate LegalHostRun(db: Db, keccak: Bytes -> Word, f: Flat, saved: seq<Flat>, steps: seq<HostStep>)
    decreases |steps|
  {
    steps == [] ||
    (LegalHostStep(f, saved, steps[0]) &&
     var (g, kept) := FlatHostNext(db, keccak, f, saved, steps[0]);
     LegalHostRun(db, keccak, g, kept, steps[1..]))
  }

  lemma {:induction false} LegalHostProper(db: Db, keccak: Bytes -> Word, f: Flat, saved: seq<Flat>, steps: seq<HostStep>)
    requires LegalHostRun(db, keccak, f, saved, steps)
    ensures HostProper(|saved|, steps)
    decreases |steps|
  {
    hide FlatApply, Legal;
    if steps != [] {
      var (g, kept) := FlatHostNext(db, keccak, f, saved, steps[0]);
      LegalHostProper(db, keccak, g, kept, steps[1..]);
    }
  }

  /** The flat maps after a run. */
  function FlatHostRun(db: Db, keccak: Bytes -> Word, f: Flat, saved: seq<Flat>, steps: seq<HostStep>): (g: Flat)
    requires LegalHostRun(db, keccak, f, saved, steps)
    decreases |steps|
  {
    if steps == [] then f
    else
      var (g, kept) := FlatHostNext(db, keccak, f, saved, steps[0]);
      FlatHostRun(db, keccak, g, kept, steps[1..])
  }

  function CountRun(db: Db, keccak: Bytes -> Word, rev: Revision, f: Flat, saved: seq<Flat>, c: Counter, steps: seq<HostStep>): (d: Counter)
    requires LegalHostRun(db, keccak, f, saved, steps) && |c.marks| == |saved|
    decreases |steps|
  {
    if steps == [] then c
    else
      var (g, kept) := FlatHostNext(db, keccak, f, saved, steps[0]);
      CountRun(db, keccak, rev, g, kept, Count(rev, f, c, steps[0]), steps[1..])
  }

  /** No SSTORE of the run takes the counter below zero at any point. */
  ghost predicate NeverWraps(db: Db, keccak: Bytes -> Word, rev: Revision, m: Machine, f: Flat, saved: seq<Flat>, c: Counter, steps: seq<HostStep>)
    requires Consistent(db, m) && HostProper(|m.marks|, steps) && |c.marks| == |m.marks| == |saved|
    decreases |steps|
  {
    if steps == [] then true
    else
      var step := steps[0];
      && (step.Store? ==> NeverNegative(c.r, WriteOps(db, rev, m.now, step.a, step.k, step.v)))
      && var (g, kept) := FlatHostNext(db, keccak, f, saved, step);
         NeverWraps(db, keccak, rev, HostNext(db, keccak, rev, m, step), g, kept, Count(rev, f, c, step), steps[1..])
  }

  lemma {:induction false} HostRunBacked(db: Db, keccak: Bytes -> Word, rev: Revision, m: Machine, steps: seq<HostStep>,
                                         f: Flat, saved: seq<Flat>, c: Counter)
    requires DbOk(db) && Backed(db, rev, m, f, saved, c)
    requires LegalHostRun(db, keccak, f, saved, steps)
    ensures Consistent(db, m) && HostProper(|m.marks|, steps) && |c.marks| == |m.marks| == |saved|
    ensures NeverWraps(db, keccak, rev, m, f, saved, c, steps)
    ensures var g := FlatHostRun(db, keccak, f, saved, steps);
      var n := HostRun(db, keccak, rev, m, steps).now;
      Matches(db, n, g) && Covers(rev, n, g, CountRun(db, keccak, rev, f, saved, c, steps).r)
    decreases |steps|
  {
    hide Linked, Covers, Consistent, Count, HostNext, FlatHostNext, Matches, NeverNegative, Legal;
    LinkedSizes(db, m, f, saved);
    LegalHostProper(db, keccak, f, saved, steps);
    if steps == [] {
      BackedMatches(db, rev, m, f, saved, c);
    } else {
      var step := steps[0];
      HostNextBacked(db, keccak, rev, m, f, saved, c, step);
      var (g, kept) := FlatHostNext(db, keccak, f, saved, step);
      HostRunBacked(db, keccak, rev, HostNext(db, keccak, rev, m, step), steps[1..], g, kept, Count(rev, f, c, step));
      if step.Store? {
        StoreBacked(db, keccak, rev, m, f, saved, c, step.a, step.k, step.v);
      }
    }
  }

  lemma BackedMatches(db: Db, rev: Revision, m: Machine, f: Flat, saved: seq<Flat>, c: Counter)
    requires Backed(db, rev, m, f, saved, c)
    ensures Matches(db, m.now, f)
  {
  }

  /** Where a transaction starts: nothing is journaled or pending, and original storage is current storage. */
  ghost predicate Starts(db: Db, s: State, f: Flat)
  {
    && DbOk(db) && Matches(db, s, f) && f.original == f.current
    && s.journal == [] && s.refund == 0
  }

  /** Over every transaction of storage writes, contract creations, snapshots and reverts, the
      refund counter pays for every slot that has been cleared, no subtraction underflows, and
      the state stands for the flat maps. */
  lemma RefundCoversCleared(db: Db, keccak: Bytes -> Word, rev: Revision, s: State, f: Flat, steps: seq<HostStep>)
    requires Starts(db, s, f) && LegalHostRun(db, keccak, f, [], steps)
    ensures Consistent(db, Machine(s, [])) && HostProper(0, steps)
    ensures NeverWraps(db, keccak, rev, Machine(s, []), f, [], Counter(0, []), steps)
    ensures var t := HostRun(db, keccak, rev, Machine(s, []), steps).now;
      var g := FlatHostRun(db, keccak, f, [], steps);
      var r := CountRun(db, keccak, rev, f, [], Counter(0, []), steps).r;
      && Matches(db, t, g)
      && r >= ClearRefund(rev) * |Cleared(g)|
      && t.refund == r % TWO_64
  {
    hide Linked, Consistent, LegalHostRun, Matches, NeverWraps, HostRun, FlatHostRun, CountRun, Cleared;
    StartLinked(db, s, f);
    ClearedStart(f);
    HostRunBacked(db, keccak, rev, Machine(s, []), steps, f, [], Counter(0, []));
  }

  /** No step adds more than the largest refund of one write. */
  lemma {:induction false} CountBound(db: Db, keccak: Bytes -> Word, rev: Revision, f: Flat, saved: seq<Flat>, c: Counter, steps: seq<HostStep>, bound: nat)
    requires LegalHostRun(db, keccak, f, saved, steps) && |c.marks| == |saved|
    requires c.r <= bound && forall i | 0 <= i < |c.marks| :: c.marks[i] <= bound
    ensures CountRun(db, keccak, rev, f, saved, c, steps).r <= bound + 34_900 * |steps|
    decreases |steps|
  {
    hide RefundOps, Legal, FlatApply, FlatRevert;
    if steps != [] {
      var step := steps[0];
      if step.Store? {
        var original, current := At(f.original, step.a, step.k), At(f.current, step.a, step.k);
        if current != step.v { NetCovers(rev, original, current, step.v, ClearRefund(rev)); }
      }
      var (g, kept) := FlatHostNext(db, keccak, f, saved, step);
      CountBound(db, keccak, rev, g, kept, Count(rev, f, c, step), steps[1..], bound + 34_900);
    }
  }

  /** As long as the counter cannot reach 2^64, the counter of the state itself covers the cleared slots. */
  lemma RefundNeverWraps(db: Db, keccak: Bytes -> Word, rev: Revision, s: State, f: Flat, steps: seq<HostStep>)
    requires Starts(db, s, f) && LegalHostRun(db, keccak, f, [], steps) && 34_900 * |steps| < TWO_64
    ensures Consistent(db, Machine(s, [])) && HostProper(0, steps)
    ensures HostRun(db, keccak, rev, Machine(s, []), steps).now.refund >=
            ClearRefund(rev) * |Cleared(FlatHostRun(db, keccak, f, [], steps))|
  {
    hide Consistent, LegalHostRun, Matches, NeverWraps, HostRun, FlatHostRun, CountRun, Cleared, ClearRefund, HostProper;
    RefundCoversCleared(db, keccak, rev, s, f, steps);
    CountBound(db, keccak, rev, f, [], Counter(0, []), steps, 0);
    var n := |Cleared(FlatHostRun(db, keccak, f, [], steps))|;
    assert ClearRefund(rev) * n >= 0;
  }
}
