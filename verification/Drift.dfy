/** Incarnation numbers depend on what was executed before: `prev_incarnations_` is not unwound
    (core/silkworm/state/memory_buffer.cpp), so re-execution restores the tables only up to them. */
module Drift {
  import opened Basics
  import opened World
  import opened Journal
  import opened FlatState
  import opened MemoryBuffers
  import opened IntraBlock
  import opened ChainStates
  import Numbering

  /** A block that creates contract `c` and writes one slot of it. */
  function Creation(db: Db, c: Address, k: Word, v: Word): (s: State)
  {
    Finalize(SetStorage(db, CreateContract(db, FRESH_STATE, c), c, k, v))
  }

  /** A block in which `c` destructs itself. */
  function Removal(db: Db, c: Address): (s: State)
  {
    Finalize(DestructAll(db, RecordSuicide(FRESH_STATE, c), {c}))
  }

  lemma CreationShape(db: Db, c: Address, k: Word, v: Word)
    requires c !in db.accounts && v != 0
    ensures var s, n := Creation(db, c, k, v), 1 + db.PreviousIncarnation(c);
      && s.objects == map[c := Object(None, Some(EMPTY_ACCOUNT.(incarnation := n)))]
      && s.storage == map[c := Storage(map[k := Committed(0, v)], map[])]
      && forall slot :: WrittenAt(s, slot) == if slot == Slot(c, n, k) then Some(Committed(0, v)) else None
  {
    var u := CreateContract(db, FRESH_STATE, c);
    var n := 1 + db.PreviousIncarnation(c);
    assert u.objects == map[c := Object(None, Some(EMPTY_ACCOUNT.(incarnation := n)))] && u.storage == map[];
    var w := SetStorage(db, u, c, k, v);
    assert w.objects == u.objects && w.storage == map[c := Storage(map[], map[k := v])];
    CommittedOne(k, v);
    var s := Creation(db, c, k, v);
    assert s.storage == map[c := Storage(map[k := Committed(0, v)], map[])];
  }

  lemma CommittedOne(k: Word, v: Word)
    ensures CommittedStorage(Storage(map[], map[k := v])) == Storage(map[k := Committed(0, v)], map[])
  {
  }

  lemma RemovalShape(db: Db, c: Address)
    requires c in db.accounts
    ensures var s := Removal(db, c);
      && s.objects == map[c := Object(Some(db.accounts[c]), None)] && s.storage == map[]
      && forall slot :: WrittenAt(s, slot) == None
  {
    var s := Removal(db, c);
    assert s.objects == map[c := Object(Some(db.accounts[c]), None)];
  }

  /** After a creation, `c` has the number after the remembered one, and its slot is under that number. */
  lemma CreationWritten(b: Buffer, c: Address, k: Word, v: Word, n: nat, r: Buffer)
    requires c !in b.db.accounts && v != 0 && Wrote(b, Creation(b.db, c, k, v), n, r)
    ensures var i := 1 + b.db.PreviousIncarnation(c);
      && r.db.accounts == b.db.accounts[c := EMPTY_ACCOUNT.(incarnation := i)]
      && (forall slot :: Get(r.db.storage, slot) == if slot == Slot(c, i, k) then Some(v) else Get(b.db.storage, slot))
      && r.db.prevIncarnations == b.db.prevIncarnations
      && r.AccountChangesAt(n) == map[c := None]
      && (forall slot :: Get(r.StorageChangesAt(n), slot) == if slot == Slot(c, i, k) then Some(0) else None)
  {
    hide Creation;
    CreationShape(b.db, c, k, v);
    var s := Creation(b.db, c, k, v);
    assert CurrentAccounts(s.objects) == map[c := s.objects[c].current];
    assert InitialAccounts(s.objects) == map[c := None];
    assert Removed(s.objects) == map[];
    assert b.db.prevIncarnations + map[] == b.db.prevIncarnations;
  }

  lemma RemovalWritten(b: Buffer, c: Address, n: nat, r: Buffer)
    requires c in b.db.accounts && Wrote(b, Removal(b.db, c), n, r)
    ensures r.db.accounts == b.db.accounts - {c} && r.db.storage == b.db.storage
    ensures r.db.prevIncarnations == b.db.prevIncarnations[c := b.db.accounts[c].incarnation]
    ensures r.AccountChangesAt(n) == map[c := Some(b.db.accounts[c])] && r.StorageChangesAt(n) == map[]
    ensures forall m | m != n :: r.AccountChangesAt(m) == b.AccountChangesAt(m) && r.StorageChangesAt(m) == b.StorageChangesAt(m)
  {
    hide Removal;
    RemovalShape(b.db, c);
    var s := Removal(b.db, c);
    assert CurrentAccounts(s.objects) == map[c := None];
    assert InitialAccounts(s.objects) == map[c := Some(b.db.accounts[c])];
    assert Removed(s.objects) == map[c := b.db.accounts[c].incarnation];
    forall slot ensures Get(r.db.storage, slot) == Get(b.db.storage, slot) {
      assert Get(r.db.storage, slot) == NewValue(b, WrittenAt(s, slot), slot);
    }
    SameByGet(r.db.storage, b.db.storage);
    forall slot ensures Get(r.StorageChangesAt(n), slot) == None {
      assert Get(r.StorageChangesAt(n), slot) == OldValue(WrittenAt(s, slot));
    }
    SameByGet(r.StorageChangesAt(n), map[]);
  }

  lemma Unwound(b: Buffer, c: Address, k: Word, v: Word, r1: Buffer, r2: Buffer)
    requires c !in b.db.accounts && v != 0 && c !in b.db.prevIncarnations
    requires forall slot <- b.db.storage :: slot.address != c
    requires Wrote(b, Creation(b.db, c, k, v), 1, r1) && Wrote(r1, Removal(r1.db, c), 2, r2)
    ensures var u := r2.Unwind(2).Unwind(1);
      && u.db.accounts == b.db.accounts && u.db.storage == b.db.storage
      && u.db.prevIncarnations == b.db.prevIncarnations[c := 1]
  {
    hide Wrote, Creation, Removal;
    CreationWritten(b, c, k, v, 1, r1);
    RemovalWritten(r1, c, 2, r2);
    var w := r2.Unwind(2);
    assert w.db.accounts == r1.db.accounts;
    assert NonZeros(map[]) == map[];
    OverlayNothing(r2.db.storage);
    var u := w.Unwind(1);
    assert u.db.accounts == b.db.accounts;
    SlotUnwound(b.db.storage, Slot(c, 1, k), v, r1.db.storage, r1.StorageChangesAt(1));
  }

  lemma SlotUnwound(before: map<Slot, Word>, s: Slot, v: Word, after: map<Slot, Word>, changes: map<Slot, Word>)
    requires s !in before
    requires forall slot :: Get(after, slot) == if slot == s then Some(v) else Get(before, slot)
    requires forall slot :: Get(changes, slot) == if slot == s then Some(0) else None
    ensures Overlay(after, NonZeros(changes)) == before
  {
    var x := Overlay(after, NonZeros(changes));
    forall slot ensures Get(x, slot) == Get(before, slot) {
      OverlayGet(after, NonZeros(changes), slot);
      assert Get(changes, slot) == if slot == s then Some(0) else None;
      assert Get(after, slot) == if slot == s then Some(v) else Get(before, slot);
    }
    SameByGet(x, before);
  }

  /** Block 1 creates a contract, block 2 removes it; both are unwound and block 1 is executed again:
      the contract comes back under incarnation 2 instead of 1, the tables differ, but only in that. */
  lemma ReexecutionDrifts(b: Buffer, c: Address, k: Word, v: Word, r1: Buffer, r2: Buffer, r3: Buffer)
    requires c !in b.db.accounts && v != 0 && c !in b.db.prevIncarnations
    requires forall slot <- b.db.storage :: slot.address != c
    requires Wrote(b, Creation(b.db, c, k, v), 1, r1) && Wrote(r1, Removal(r1.db, c), 2, r2)
    requires var u := r2.Unwind(2).Unwind(1); Wrote(u, Creation(u.db, c, k, v), 1, r3)
    ensures TablesOf(r2.Unwind(2).Unwind(1)) == TablesOf(b)
    ensures Get(r1.db.storage, Slot(c, 1, k)) == Some(v) && Get(r1.db.storage, Slot(c, 2, k)) == None
    ensures Get(r3.db.storage, Slot(c, 1, k)) == None && Get(r3.db.storage, Slot(c, 2, k)) == Some(v)
    ensures TablesOf(r3) != TablesOf(r1) && Same(TablesOf(r3), TablesOf(r1))
  {
    hide Wrote, Creation, Removal;
    Unwound(b, c, k, v, r1, r2);
    CreationWritten(b, c, k, v, 1, r1);
    CreationWritten(r2.Unwind(2).Unwind(1), c, k, v, 1, r3);
    assert Slot(c, 1, k) !in b.db.storage && Slot(c, 2, k) !in b.db.storage;
    SameAside(b, c, k, v, r1, r3);
  }

  lemma SameAside(b: Buffer, c: Address, k: Word, v: Word, r1: Buffer, r3: Buffer)
    requires c !in b.db.accounts && forall slot <- b.db.storage :: slot.address != c
    requires r1.db.accounts == b.db.accounts[c := EMPTY_ACCOUNT.(incarnation := 1)]
    requires r3.db.accounts == b.db.accounts[c := EMPTY_ACCOUNT.(incarnation := 2)]
    requires forall slot :: Get(r1.db.storage, slot) == if slot == Slot(c, 1, k) then Some(v) else Get(b.db.storage, slot)
    requires forall slot :: Get(r3.db.storage, slot) == if slot == Slot(c, 2, k) then Some(v) else Get(b.db.storage, slot)
    ensures Same(TablesOf(r3), TablesOf(r1))
  {
    var t, u := TablesOf(r3), TablesOf(r1);
    forall a, x | a in t.accounts && a in u.accounts
      ensures t.Read(a, x) == u.Read(a, x)
    {
      assert Get(r3.db.storage, Slot(a, t.Incarnation(a), x)) ==
        if Slot(a, t.Incarnation(a), x) == Slot(c, 2, k) then Some(v) else Get(b.db.storage, Slot(a, t.Incarnation(a), x));
      assert Get(r1.db.storage, Slot(a, u.Incarnation(a), x)) ==
        if Slot(a, u.Incarnation(a), x) == Slot(c, 1, k) then Some(v) else Get(b.db.storage, Slot(a, u.Incarnation(a), x));
    }
  }

  /** A block in which the dead account `c` is touched, and swept at the end of the transaction. */
  function Sweep(db: Db, c: Address): (s: State)
  {
    Finalize(ClearDead(db, Touch(FRESH_STATE, c)))
  }

  lemma SweepShape(db: Db, c: Address)
    requires c in db.accounts && db.accounts[c] == EMPTY_ACCOUNT
    ensures var s := Sweep(db, c); s.objects == map[c := Object(Some(EMPTY_ACCOUNT), None)] && s.storage == map[]
  {
    var t := Touch(FRESH_STATE, c);
    assert (set a | a in t.touched && Dead(db, t, a)) == {c};
    assert Load(db, t, {c}).objects == map[c := Object(Some(EMPTY_ACCOUNT), Some(EMPTY_ACCOUNT))];
    assert Sweep(db, c).objects == map[c := Object(Some(EMPTY_ACCOUNT), None)];
  }

  /** Nor is what is remembered safe: sweeping a dead account that is no contract, at an address whose contract
      was removed before, overwrites the remembered incarnation with 0, and the next contract gets 1 again. */
  lemma RemovalForgets(b: Buffer, c: Address, k: Word, v: Word, n: nat, r: Buffer, r2: Buffer)
    requires c in b.db.accounts && b.db.accounts[c] == EMPTY_ACCOUNT && b.db.PreviousIncarnation(c) > 0 && v != 0
    requires Wrote(b, Sweep(b.db, c), n, r) && Wrote(r, Creation(r.db, c, k, v), n + 1, r2)
    ensures r.db.PreviousIncarnation(c) == 0
    ensures TablesOf(r2).Incarnation(c) == 1 <= b.db.PreviousIncarnation(c)
  {
    hide Wrote, Creation, Sweep;
    SweepRemembers(b, c, n, r);
    CreationNumber(r, c, k, v, n + 1, r2);
  }

  lemma SweepRemembers(b: Buffer, c: Address, n: nat, r: Buffer)
    requires c in b.db.accounts && b.db.accounts[c] == EMPTY_ACCOUNT && Wrote(b, Sweep(b.db, c), n, r)
    ensures c !in r.db.accounts && r.db.PreviousIncarnation(c) == 0
  {
    hide Sweep;
    SweepShape(b.db, c);
    var s := Sweep(b.db, c);
    assert CurrentAccounts(s.objects) == map[c := None];
    assert Removed(s.objects) == map[c := 0];
  }

  lemma CreationNumber(b: Buffer, c: Address, k: Word, v: Word, n: nat, r: Buffer)
    requires c !in b.db.accounts && v != 0 && Wrote(b, Creation(b.db, c, k, v), n, r)
    ensures c in r.db.accounts && r.db.accounts[c].incarnation == 1 + b.db.PreviousIncarnation(c)
  {
    hide Wrote, Creation;
    CreationWritten(b, c, k, v, n, r);
  }

  // --- storage that comes back ---

  /** A block in which `c` destructs itself and is sent `x` afterwards. */
  function Credited(db: Db, c: Address, x: Word): (s: State)
  {
    Finalize(ChangeBalance(db, Removal(db, c), c, Credit(x)))
  }

  /** A block that creates contract `c` and does nothing else. */
  function Founding(db: Db, c: Address): (s: State)
  {
    Finalize(CreateContract(db, FRESH_STATE, c))
  }

  lemma CreditedShape(db: Db, c: Address, x: Word)
    requires c in db.accounts
    ensures var s := Credited(db, c, x);
      s.objects == map[c := Object(Some(db.accounts[c]), Some(EMPTY_ACCOUNT.(balance := x)))] && s.storage == map[]
  {
    hide Removal, Touch;
    RemovalShape(db, c);
    var s := Removal(db, c);
    var t := Put(db, s, c, Credit(x));
    assert t.objects == map[c := Object(Some(db.accounts[c]), Some(EMPTY_ACCOUNT.(balance := x)))] && t.storage == map[];
    TouchRest(t, c);
  }

  lemma FoundingShape(db: Db, c: Address)
    requires c in db.accounts && db.accounts[c].incarnation == 0
    ensures var s := Founding(db, c);
      var created := EMPTY_ACCOUNT.(balance := db.accounts[c].balance, incarnation := 1 + db.PreviousIncarnation(c));
      s.objects == map[c := Object(Some(db.accounts[c]), Some(created))] && s.storage == map[]
  {
    var created := EMPTY_ACCOUNT.(balance := db.accounts[c].balance, incarnation := 1 + db.PreviousIncarnation(c));
    var u := CreateContract(db, FRESH_STATE, c);
    assert u.objects == map[c := Object(Some(db.accounts[c]), Some(created))] && u.storage == map[];
  }

  /** A block that leaves one account changed and no storage. */
  lemma OneWritten(b: Buffer, s: State, c: Address, account: Account, n: nat, r: Buffer)
    requires Wrote(b, s, n, r) && c in b.db.accounts && s.storage == map[]
    requires s.objects == map[c := Object(Some(b.db.accounts[c]), Some(account))]
    ensures r.db.accounts == b.db.accounts[c := account] && r.db.storage == b.db.storage
    ensures r.db.prevIncarnations == b.db.prevIncarnations
  {
    assert CurrentAccounts(s.objects) == map[c := Some(account)];
    assert Removed(s.objects) == map[];
    assert b.db.prevIncarnations + map[] == b.db.prevIncarnations;
    forall slot ensures Get(r.db.storage, slot) == Get(b.db.storage, slot) {
      assert Get(r.db.storage, slot) == NewValue(b, WrittenAt(s, slot), slot);
    }
    SameByGet(r.db.storage, b.db.storage);
  }

  /** A contract destructs itself and is sent ether in the same block; its incarnation is not remembered. A later
      block creates it again under the old incarnation, where it starts empty; a block later the old storage is back. */
  lemma StorageResurfaces(b: Buffer, c: Address, k: Word, x: Word, n: nat, r: Buffer, r2: Buffer)
    requires c in b.db.accounts && b.db.accounts[c].incarnation == 1 + b.db.PreviousIncarnation(c)
    requires Slot(c, b.db.accounts[c].incarnation, k) in b.db.storage
    requires Wrote(b, Credited(b.db, c, x), n, r) && Wrote(r, Founding(r.db, c), n + 1, r2)
    ensures r.db.PreviousIncarnation(c) == b.db.PreviousIncarnation(c) && !Numbering.Intact(TablesOf(r), MemoryOf(r))
    ensures forall j :: CurrentStorage(r.db, CreateContract(r.db, FRESH_STATE, c), c, j) == 0
    ensures CurrentStorage(r2.db, FRESH_STATE, c, k) == b.db.storage[Slot(c, b.db.accounts[c].incarnation, k)]
  {
    hide Wrote, Credited, Founding, CreateContract, NewIncarnation;
    var slot := Slot(c, b.db.accounts[c].incarnation, k);
    CreditedShape(b.db, c, x);
    OneWritten(b, Credited(b.db, c, x), c, EMPTY_ACCOUNT.(balance := x), n, r);
    assert slot in TablesOf(r).storage && slot.incarnation > Numbering.Level(TablesOf(r), MemoryOf(r), c);
    FoundedEmpty(r.db, c);
    FoundingShape(r.db, c);
    OneWritten(r, Founding(r.db, c), c, EMPTY_ACCOUNT.(balance := x, incarnation := slot.incarnation), n + 1, r2);
  }

  lemma FoundedEmpty(db: Db, c: Address)
    requires c in db.accounts && db.accounts[c].incarnation == 0
    ensures forall j :: CurrentStorage(db, CreateContract(db, FRESH_STATE, c), c, j) == 0
  {
    CreatedStorageEmpty(db, FRESH_STATE, c);
  }
}
