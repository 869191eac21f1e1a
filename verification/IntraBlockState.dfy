/** `IntraBlockState` as an object over a `MemoryBuffer`:
    core/silkworm/state/intra_block_state.{hpp,cpp}. */
module IntraBlock {
  import opened Basics
  import opened World
  import opened Journal
  import opened MemoryBuffers
  import opened FlatState
  import opened Accounts

  // --- what `write_to_db` leaves in the buffer ---

  /** The committed entry with which slot `slot` is written at the end of a block. */
  function WrittenAt(s: State, slot: Slot): (w: Option<Committed>)
  {
    var a := slot.address;
    if a in s.storage && a in s.objects && s.objects[a].current.Some?
       && s.objects[a].current.value.incarnation == slot.incarnation then
      Get(s.storage[a].committed, slot.location)
    else None
  }

  function CurrentAccounts(objects: Objects): (r: map<Address, Option<Account>>)
  {
    map a | a in objects :: objects[a].current
  }

  function InitialAccounts(objects: Objects): (r: map<Address, Option<Account>>)
  {
    map a | a in objects :: objects[a].initial
  }

  function NewValue(b: Buffer, w: Option<Committed>, slot: Slot): (v: Option<Word>)
  {
    if w.Some? then NonZero(w.value.original) else Get(b.db.storage, slot)
  }

  function OldValue(w: Option<Committed>): (v: Option<Word>)
  {
    if w.Some? then Some(w.value.initial) else None
  }

  /** The incarnations of the accounts that a block removes. */
  function Removed(objects: Objects): (r: map<Address, nat>)
  {
    map a | a in objects && objects[a].current.None? && objects[a].initial.Some? :: objects[a].initial.value.incarnation
  }

  /** Code is written for contracts that the block has created. */
  predicate Deployed(o: Object)
  {
    && o.current.Some? && o.current.value.codeHash != EMPTY_HASH
    && (o.initial.None? || o.initial.value.incarnation != o.current.value.incarnation)
  }

  function NewHashes(objects: Objects): (r: set<Word>)
  {
    set a | a in objects && Deployed(objects[a]) :: objects[a].current.value.codeHash
  }

  function Cached(code: map<Word, Bytes>, h: Word): (r: Bytes)
  {
    if h in code then code[h] else []
  }

  ghost predicate CodeWritten(before: map<Word, Bytes>, cache: map<Word, Bytes>, objects: Objects, after: map<Word, Bytes>)
  {
    && after.Keys == before.Keys + NewHashes(objects)
    && forall h <- after :: after[h] == if h in NewHashes(objects) then Cached(cache, h) else before[h]
  }

  /** The new accounts and slots are in place, their initial values are the change set of block `n`,
      and other change sets are untouched; removed accounts are remembered and new code is added. */
  ghost predicate Wrote(b: Buffer, s: State, n: nat, r: Buffer)
  {
    && r.db.accounts == Overlay(b.db.accounts, CurrentAccounts(s.objects))
    && r.AccountChangesAt(n) == InitialAccounts(s.objects)
    && (forall slot :: Get(r.db.storage, slot) == NewValue(b, WrittenAt(s, slot), slot))
    && (forall slot :: Get(r.StorageChangesAt(n), slot) == OldValue(WrittenAt(s, slot)))
    && (forall m | m != n :: r.AccountChangesAt(m) == b.AccountChangesAt(m))
    && (forall m | m != n :: r.StorageChangesAt(m) == b.StorageChangesAt(m))
    && r.db.prevIncarnations == b.db.prevIncarnations + Removed(s.objects)
    && CodeWritten(b.db.code, s.code, s.objects, r.db.code)
  }

  lemma AnchoredObject(db: Db, s: State, f: Flat, a: Address)
    requires Sound(db, s, f) && a in s.objects
    ensures s.objects[a].initial == db.ReadAccount(a)
    ensures f.anchored ==> AnchoredAt(db, a, s.objects[a], StorageIn(s.storage, a))
  {
    assert ViewAt(db, a, ObjectIn(db, s.objects, a), StorageIn(s.storage, a), f);
  }

  lemma AnchoredSlot(db: Db, s: State, f: Flat, slot: Slot)
    requires Sound(db, s, f) && f.anchored && WrittenAt(s, slot).Some?
    ensures WrittenAt(s, slot).value.initial == db.ReadStorage(slot.address, slot.incarnation, slot.location)
  {
    var a, k := slot.address, slot.location;
    AnchoredObject(db, s, f, a);
    assert CommittedAt(db, a, Some(s.objects[a]), StorageIn(s.storage, a), k) == s.storage[a].committed[k];
  }

  /** Unwinding a block right after writing it restores the account and storage tables. */
  lemma UnwindRestores(b: Buffer, s: State, f: Flat, n: nat, r: Buffer)
    requires DbOk(b.db) && Sound(b.db, s, f) && f.anchored && Wrote(b, s, n, r)
    ensures r.Unwind(n).db.accounts == b.db.accounts
    ensures r.Unwind(n).db.storage == b.db.storage
  {
    hide Sound;
    var initials := InitialAccounts(s.objects);
    forall a | a in initials
      ensures initials[a] == Get(b.db.accounts, a)
    {
      AnchoredObject(b.db, s, f, a);
    }
    OverlayUndone(b.db.accounts, CurrentAccounts(s.objects), initials);
    var x, changes := r.Unwind(n).db.storage, NonZeros(r.StorageChangesAt(n));
    forall slot
      ensures Get(x, slot) == Get(b.db.storage, slot)
    {
      OverlayGet(r.db.storage, changes, slot);
      assert Get(r.StorageChangesAt(n), slot) == OldValue(WrittenAt(s, slot));
      if WrittenAt(s, slot).Some? {
        AnchoredSlot(b.db, s, f, slot);
      }
    }
    SameByGet(x, b.db.storage);
  }

  ghost predicate Settled(s: State)
  {
    forall a <- s.storage :: s.storage[a].current == map[]
  }

  /** After writing, the database holds what the interface showed: the next block starts
      from the flat maps that this one ended with. */
  lemma WriteThenRead(b: Buffer, s: State, f: Flat, n: nat, r: Buffer, a: Address, k: Word)
    requires DbOk(b.db) && Sound(b.db, s, f) && f.anchored && Settled(s) && Wrote(b, s, n, r)
    ensures r.db.ReadAccount(a) == Get(f.accounts, a)
    ensures a in f.accounts ==> r.db.ReadStorage(a, f.accounts[a].incarnation, k) == At(f.current, a, k)
  {
    var o, storage := ObjectIn(b.db, s.objects, a), StorageIn(s.storage, a);
    assert ViewAt(b.db, a, o, storage, f);
    OverlayGet(b.db.accounts, CurrentAccounts(s.objects), a);
    if a in f.accounts {
      var slot := Slot(a, f.accounts[a].incarnation, k);
      assert Get(r.db.storage, slot) == NewValue(b, WrittenAt(s, slot), slot);
      assert At(f.current, a, k) == CommittedAt(b.db, a, o, storage, k).original;
      if k in storage.committed {
        assert WrittenAt(s, slot) == Some(storage.committed[k]);
      } else {
        assert AnchoredAt(b.db, a, o.value, storage);
        assert CommittedAt(b.db, a, o, storage, k).initial == b.db.ReadStorage(a, f.accounts[a].incarnation, k);
      }
    }
  }

  lemma WrittenDbOk(b: Buffer, s: State, f: Flat, n: nat, r: Buffer)
    requires DbOk(b.db) && Sound(b.db, s, f) && Wrote(b, s, n, r)
    ensures DbOk(r.db)
  {
    forall slot | slot in r.db.storage
      ensures r.db.storage[slot] != 0 && slot.incarnation > 0
    {
      assert Get(r.db.storage, slot) == NewValue(b, WrittenAt(s, slot), slot);
      if WrittenAt(s, slot).Some? {
        assert TidyAt(ObjectIn(b.db, s.objects, slot.address), StorageIn(s.storage, slot.address));
      }
    }
  }

  /** Miner and ommer rewards, credited after the last transaction. */
  function AfterRewards(db: Db, s: State, rewards: seq<(Address, Word)>): (t: State)
    decreases |rewards|
  {
    if rewards == [] then s
    else AfterRewards(db, ChangeBalance(db, s, rewards[0].0, Credit(rewards[0].1)), rewards[1..])
  }

  function FlatRewards(f: Flat, rewards: seq<(Address, Word)>): (g: Flat)
    decreases |rewards|
  {
    if rewards == [] then f
    else FlatRewards(FlatTouch(FlatEdit(f, rewards[0].0, Credit(rewards[0].1)), rewards[0].0), rewards[1..])
  }

  lemma {:induction false} RewardsSound(db: Db, s: State, f: Flat, rewards: seq<(Address, Word)>)
    requires DbOk(db) && Sound(db, s, f) && Settled(s)
    ensures Sound(db, AfterRewards(db, s, rewards), FlatRewards(f, rewards))
    ensures Settled(AfterRewards(db, s, rewards)) && FlatRewards(f, rewards).anchored == f.anchored
    decreases |rewards|
  {
    hide Sound, Put, Edited;
    if rewards != [] {
      var a, e := rewards[0].0, Credit(rewards[0].1);
      ChangeBalanceSound(db, s, a, e, f);
      PutShape(db, s, a, e);
      RewardsSound(db, ChangeBalance(db, s, a, e), FlatTouch(FlatEdit(f, a, e), a), rewards[1..]);
    }
  }

  lemma {:induction false} BlockSettled(db: Db, keccak: Bytes -> Word, s: State, txns: seq<seq<Step>>, clearDead: bool)
    requires Settled(s) && forall txn <- txns :: Proper(0, txn)
    ensures Settled(AfterBlock(db, keccak, s, txns, clearDead))
    decreases |txns|
  {
    hide Consistent, Proper;
    if txns != [] {
      BlockSettled(db, keccak, AfterTransaction(db, keccak, s, txns[0], clearDead), txns[1..], clearDead);
    }
  }

  /** The database holds exactly the accounts and the storage of the flat maps. */
  ghost predicate Holds(db: Db, f: Flat)
  {
    && (forall a :: db.ReadAccount(a) == Get(f.accounts, a))
    && (forall a, k | a in f.accounts :: db.ReadStorage(a, f.accounts[a].incarnation, k) == At(f.current, a, k))
  }

  lemma WrittenHolds(b: Buffer, s: State, f: Flat, n: nat, r: Buffer)
    requires DbOk(b.db) && Sound(b.db, s, f) && f.anchored && Settled(s) && Wrote(b, s, n, r)
    ensures Holds(r.db, f) && DbOk(r.db)
    ensures r.Unwind(n).db.accounts == b.db.accounts && r.Unwind(n).db.storage == b.db.storage
  {
    hide Sound, Wrote;
    forall a
      ensures r.db.ReadAccount(a) == Get(f.accounts, a)
    {
      WriteThenRead(b, s, f, n, r, a, 0);
    }
    forall a, k | a in f.accounts
      ensures r.db.ReadStorage(a, f.accounts[a].incarnation, k) == At(f.current, a, k)
    {
      WriteThenRead(b, s, f, n, r, a, k);
    }
    UnwindRestores(b, s, f, n, r);
    WrittenDbOk(b, s, f, n, r);
  }

  /** Whatever a block does, once written the database holds exactly the accounts and the storage
      that the flat maps end with, and unwinding the block restores the tables before it. */
  lemma BlockWrittenAndUnwound(b: Buffer, keccak: Bytes -> Word, txns: seq<seq<Step>>, clearDead: bool,
                               rewards: seq<(Address, Word)>, n: nat, r: Buffer)
    requires DbOk(b.db) && LegalBlock(b.db, keccak, FlatOf(b.db), txns, clearDead)
    requires FlatBlock(b.db, keccak, FlatOf(b.db), txns, clearDead).anchored
    requires forall txn <- txns :: Proper(0, txn)
    requires Wrote(b, AfterRewards(b.db, AfterBlock(b.db, keccak, FRESH_STATE, txns, clearDead), rewards), n, r)
    ensures Holds(r.db, FlatRewards(FlatBlock(b.db, keccak, FlatOf(b.db), txns, clearDead), rewards))
    ensures r.Unwind(n).db.accounts == b.db.accounts && r.Unwind(n).db.storage == b.db.storage
    ensures DbOk(r.db)
  {
    hide Sound, Wrote, LegalBlock, Holds, DbOk, FlatOf, Proper;
    var s := AfterBlock(b.db, keccak, FRESH_STATE, txns, clearDead);
    var g := FlatBlock(b.db, keccak, FlatOf(b.db), txns, clearDead);
    FreshSound(b.db);
    BlockSound(b.db, keccak, FRESH_STATE, txns, clearDead, FlatOf(b.db));
    BlockSettled(b.db, keccak, FRESH_STATE, txns, clearDead);
    RewardsSound(b.db, s, g, rewards);
    WrittenHolds(b, AfterRewards(b.db, s, rewards), FlatRewards(g, rewards), n, r);
  }

  // --- the loops of `write_to_db` ---

  /** What is left to write: the accounts in `addresses` and the slots `keys` of `a`. */
  predicate Pending(addresses: set<Address>, a: Address, keys: set<Word>, slot: Slot)
  {
    slot.address in addresses || (slot.address == a && slot.location in keys)
  }

  /** All but the pending slots have been written in the block that was begun. */
  ghost predicate Stored(b: Buffer, s: State, r: Buffer, addresses: set<Address>, a: Address, keys: set<Word>)
  {
    && r.db == b.db.(storage := r.db.storage)
    && r.accountChanges == b.accountChanges && r.blockNumber == b.blockNumber
    && r.storageChanges - {b.blockNumber} == b.storageChanges - {b.blockNumber}
    && forall slot ::
         var w := if Pending(addresses, a, keys, slot) then None else WrittenAt(s, slot);
         && Get(r.db.storage, slot) == NewValue(b, w, slot)
         && Get(r.StorageChangesAt(b.blockNumber), slot) == OldValue(w)
  }

  lemma StoredStart(b: Buffer, s: State)
    requires b.blockNumber !in b.storageChanges
    ensures Stored(b, s, b, s.storage.Keys, 0, {})
  {
  }

  lemma StoredStep(b: Buffer, s: State, r: Buffer, addresses: set<Address>, a: Address, keys: set<Word>, slot: Slot, c: Committed)
    requires Stored(b, s, r, addresses, a, keys)
    requires slot.address == a && a !in addresses && slot.location in keys && WrittenAt(s, slot) == Some(c)
    ensures Stored(b, s, r.UpdateStorage(slot, c.initial, c.original), addresses, a, keys - {slot.location})
  {
    var t := r.UpdateStorage(slot, c.initial, c.original);
    forall x
      ensures var w := if Pending(addresses, a, keys - {slot.location}, x) then None else WrittenAt(s, x);
        && Get(t.db.storage, x) == NewValue(b, w, x)
        && Get(t.StorageChangesAt(b.blockNumber), x) == OldValue(w)
    {
      var w := if Pending(addresses, a, keys, x) then None else WrittenAt(s, x);
      assert Get(r.db.storage, x) == NewValue(b, w, x);
      if x != slot && x.address == a && x.location == slot.location {
        assert WrittenAt(s, x).None?;
      }
    }
  }

  /** Moving on to the next account. */
  lemma StoredNext(b: Buffer, s: State, r: Buffer, addresses: set<Address>, a: Address, a': Address, keys: set<Word>)
    requires Stored(b, s, r, addresses, a, {}) && a' in addresses
    requires forall slot: Slot | slot.address == a' && WrittenAt(s, slot).Some? :: slot.location in keys
    ensures Stored(b, s, r, addresses - {a'}, a', keys)
  {
    forall x
      ensures var w := if Pending(addresses - {a'}, a', keys, x) then None else WrittenAt(s, x);
        && Get(r.db.storage, x) == NewValue(b, w, x)
        && Get(r.StorageChangesAt(b.blockNumber), x) == OldValue(w)
    {
      var w := if Pending(addresses, a, {}, x) then None else WrittenAt(s, x);
      assert Get(r.db.storage, x) == NewValue(b, w, x);
    }
  }

  /** The accounts `done` have been written in the block that was begun. */
  ghost predicate Accounted(b: Buffer, code: map<Word, Bytes>, done: Objects, r: Buffer)
  {
    && r.db.accounts == Overlay(b.db.accounts, CurrentAccounts(done))
    && r.db.storage == b.db.storage && r.storageChanges == b.storageChanges && r.blockNumber == b.blockNumber
    && r.AccountChangesAt(b.blockNumber) == InitialAccounts(done)
    && r.accountChanges - {b.blockNumber} == b.accountChanges - {b.blockNumber}
    && r.db.prevIncarnations == b.db.prevIncarnations + Removed(done)
    && CodeWritten(b.db.code, code, done, r.db.code)
  }

  lemma AccountedStart(b: Buffer, code: map<Word, Bytes>)
    requires b.blockNumber !in b.accountChanges
    ensures Accounted(b, code, map[], b)
  {
    assert b.db.prevIncarnations + Removed(map[]) == b.db.prevIncarnations;
    assert NewHashes(map[]) == {};
    assert CurrentAccounts(map[]) == map[];
    OverlayNothing(b.db.accounts);
  }

  /** The account, and its code if the block has created it. */
  function WriteAccount(r: Buffer, code: map<Word, Bytes>, a: Address, o: Object): (t: Buffer)
  {
    var u := r.UpdateAccount(a, o.initial, o.current);
    if Deployed(o) then u.UpdateAccountCode(o.current.value.codeHash, Cached(code, o.current.value.codeHash)) else u
  }

  lemma AccountedStep(b: Buffer, code: map<Word, Bytes>, done: Objects, r: Buffer, a: Address, o: Object)
    requires Accounted(b, code, done, r) && a !in done
    ensures Accounted(b, code, done[a := o], WriteAccount(r, code, a, o))
  {
    hide CodeWritten, Overlay, CurrentAccounts, InitialAccounts, Removed;
    TablesStep(done, a, o);
    OverlayStep(b.db.accounts, CurrentAccounts(done), a, o.current);
    RemovedStep(b.db.prevIncarnations, done, a, o);
    CodeStep(b.db.code, code, done, r.db.code, a, o);
  }

  lemma TablesStep(done: Objects, a: Address, o: Object)
    ensures CurrentAccounts(done[a := o]) == CurrentAccounts(done)[a := o.current]
    ensures InitialAccounts(done[a := o]) == InitialAccounts(done)[a := o.initial]
  {
  }

  lemma RemovedStep(prev: map<Address, nat>, done: Objects, a: Address, o: Object)
    requires a !in done
    ensures prev + Removed(done[a := o]) ==
            if o.current.None? && o.initial.Some? then (prev + Removed(done))[a := o.initial.value.incarnation] else prev + Removed(done)
  {
  }

  lemma CodeStep(before: map<Word, Bytes>, cache: map<Word, Bytes>, done: Objects, after: map<Word, Bytes>, a: Address, o: Object)
    requires CodeWritten(before, cache, done, after) && a !in done
    ensures CodeWritten(before, cache, done[a := o],
      if Deployed(o) then after[o.current.value.codeHash := Cached(cache, o.current.value.codeHash)] else after)
  {
    HashesStep(done, a, o);
  }

  lemma HashesStep(done: Objects, a: Address, o: Object)
    requires a !in done
    ensures NewHashes(done[a := o]) == NewHashes(done) + if Deployed(o) then {o.current.value.codeHash} else {}
  {
    var x, y := NewHashes(done[a := o]), NewHashes(done) + if Deployed(o) then {o.current.value.codeHash} else {};
    forall h | h in y ensures h in x {
      if h in NewHashes(done) {
        var d :| d in done && Deployed(done[d]) && done[d].current.value.codeHash == h;
        assert done[a := o][d] == done[d];
      } else {
        assert done[a := o][a] == o;
      }
    }
    forall h | h in x ensures h in y {
      var d :| d in done[a := o] && Deployed(done[a := o][d]) && done[a := o][d].current.value.codeHash == h;
    }
  }

  lemma BothWritten(b: Buffer, begun: Buffer, stored: Buffer, r: Buffer, s: State, n: nat, a: Address)
    requires begun == b.BeginBlock(n)
    requires Stored(begun, s, stored, {}, a, {}) && Accounted(stored, s.code, s.objects, r)
    ensures Wrote(b, s, n, r)
  {
    hide CodeWritten;
    forall slot
      ensures Get(r.db.storage, slot) == NewValue(b, WrittenAt(s, slot), slot)
      ensures Get(r.StorageChangesAt(n), slot) == OldValue(WrittenAt(s, slot))
    {
      assert !Pending({}, a, {}, slot);
      assert Get(stored.db.storage, slot) == NewValue(begun, WrittenAt(s, slot), slot);
    }
    forall m | m != n
      ensures r.AccountChangesAt(m) == b.AccountChangesAt(m)
      ensures r.StorageChangesAt(m) == b.StorageChangesAt(m)
    {
      assert m in r.accountChanges <==> m in r.accountChanges - {n};
      assert m in b.accountChanges <==> m in b.accountChanges - {n};
      assert m in r.storageChanges <==> m in r.storageChanges - {n};
      assert m in b.storageChanges <==> m in b.storageChanges - {n};
    }
  }

  // --- the object ---

  class IntraBlockState {
    const db: MemoryBuffer
    const keccak: Bytes -> Word

    var objects: Objects
    var storage: Storages
    var code: map<Word, Bytes>
    var journal: seq<Delta>
    var selfDestructs: set<Address>
    var logs: seq<Bytes>
    var touched: set<Address>
    var refund: nat
    var accessedAddresses: set<Address>
    var accessedKeys: map<Address, set<Word>>

    function Model(): (s: State)
      reads this
    {
      State(objects, storage, code, journal, selfDestructs, logs, touched, refund, accessedAddresses, accessedKeys)
    }

    constructor (db: MemoryBuffer, keccak: Bytes -> Word)
      ensures this.db == db && this.keccak == keccak && Model() == FRESH_STATE
    {
      this.db, this.keccak := db, keccak;
      objects, storage, code, journal := map[], map[], map[], [];
      selfDestructs, logs, touched, refund := {}, [], {}, 0;
      accessedAddresses, accessedKeys := {}, map[];
    }

    method GetObject(a: Address) returns (o: Option<Object>)
      modifies `objects
      ensures Model() == Fetch(db.Tables(), old(Model()), a)
      ensures o == ObjectOf(db.Tables(), old(Model()), a)
      ensures o == Get(objects, a)
    {
      if a in objects {
        return Some(objects[a]);
      }
      var account := Get(db.accounts, a);
      if account.None? {
        return None;
      }
      o := Some(Object(account, account));
      objects := objects[a := o.value];
    }

    method GetOrCreateObject(a: Address)
      modifies `objects, `journal
      ensures Model() == Obtain(db.Tables(), old(Model()), a)
    {
      var o := GetObject(a);
      if o.None? {
        journal := journal + [Create(a)];
        objects := objects[a := Object(None, Some(EMPTY_ACCOUNT))];
      } else if o.value.current.None? {
        journal := journal + [Update(a, o.value)];
        objects := objects[a := o.value.(current := Some(EMPTY_ACCOUNT))];
      }
    }

    method Exists(a: Address) returns (r: bool)
      modifies `objects
      ensures Model() == Fetch(db.Tables(), old(Model()), a)
      ensures r <==> Live(db.Tables(), old(Model()), a)
    {
      var o := GetObject(a);
      r := o.Some? && o.value.current.Some?;
    }

    method IsDead(a: Address) returns (r: bool)
      modifies `objects
      ensures Model() == Fetch(db.Tables(), old(Model()), a)
      ensures r <==> Dead(db.Tables(), old(Model()), a)
    {
      var o := GetObject(a);
      if o.None? || o.value.current.None? {
        return true;
      }
      var c := o.value.current.value;
      r := c.codeHash == EMPTY_HASH && c.nonce == 0 && c.balance == 0;
    }

    method GetBalance(a: Address) returns (v: Word)
      modifies `objects
      ensures Model() == Fetch(db.Tables(), old(Model()), a)
      ensures v == FieldsOf(AccountOf(db.Tables(), old(Model()), a)).balance
    {
      var o := GetObject(a);
      v := if o.Some? && o.value.current.Some? then o.value.current.value.balance else 0;
    }

    method GetNonce(a: Address) returns (n: nat)
      modifies `objects
      ensures Model() == Fetch(db.Tables(), old(Model()), a)
      ensures n == FieldsOf(AccountOf(db.Tables(), old(Model()), a)).nonce
    {
      var o := GetObject(a);
      n := if o.Some? && o.value.current.Some? then o.value.current.value.nonce else 0;
    }

    method GetCodeHash(a: Address) returns (h: Word)
      modifies `objects
      ensures Model() == Fetch(db.Tables(), old(Model()), a)
      ensures h == FieldsOf(AccountOf(db.Tables(), old(Model()), a)).codeHash
    {
      var o := GetObject(a);
      h := if o.Some? && o.value.current.Some? then o.value.current.value.codeHash else EMPTY_HASH;
    }

    method CreateContract(a: Address)
      modifies `objects, `storage, `journal
      ensures Model() == Journal.CreateContract(db.Tables(), old(Model()), a)
    {
      var created := EMPTY_ACCOUNT;
      var initial: Option<Account> := None;
      var prevIncarnation: Option<nat> := None;
      var prev := GetObject(a);
      if prev.Some? {
        initial := prev.value.initial;
        if prev.value.current.Some? {
          created := created.(balance := prev.value.current.value.balance);
          prevIncarnation := Some(prev.value.current.value.incarnation);
        } else if prev.value.initial.Some? {
          prevIncarnation := Some(prev.value.initial.value.incarnation);
        }
        journal := journal + [Update(a, prev.value)];
      } else {
        journal := journal + [Create(a)];
      }
      if prevIncarnation.None? || prevIncarnation.value == 0 {
        prevIncarnation := Some(db.Tables().PreviousIncarnation(a));
      }
      created := created.(incarnation := prevIncarnation.value + 1);
      objects := objects[a := Object(initial, Some(created))];
      assert Model() == CreateObject(db.Tables(), old(Model()), a);

      if a !in storage {
        journal := journal + [StorageCreate(a)];
      } else {
        journal := journal + [StorageWipe(a, storage[a])];
        storage := storage - {a};
      }
    }

    method Touch(a: Address)
      modifies `touched, `journal
      ensures Model() == Journal.Touch(old(Model()), a)
    {
      var inserted := a !in touched;
      touched := touched + {a};
      if inserted && a != RIPEMD {
        journal := journal + [Touched(a)];
      }
    }

    method RecordSuicide(a: Address)
      modifies `selfDestructs, `journal
      ensures Model() == Journal.RecordSuicide(old(Model()), a)
    {
      var inserted := a !in selfDestructs;
      selfDestructs := selfDestructs + {a};
      if inserted {
        journal := journal + [Suicide(a)];
      }
    }

    method EditAccount(a: Address, e: Edit)
      modifies `objects, `journal
      ensures Model() == Put(db.Tables(), old(Model()), a, e)
    {
      GetOrCreateObject(a);
      var o := objects[a];
      journal := journal + [Update(a, o)];
      objects := objects[a := o.(current := Some(Edited(o.current.value, e)))];
    }

    method SetBalance(a: Address, v: Word)
      modifies `objects, `journal, `touched
      ensures Model() == Apply(db.Tables(), keccak, old(Model()), Op.SetBalance(a, v))
      ensures var was := FieldsOf(AccountOf(db.Tables(), old(Model()), a));
        OnlyAccount(db.Tables(), old(Model()), Model(), a, Account(was.nonce, v, was.codeHash, was.incarnation))
    {
      hide OnlyAccount, Put, Journal.Touch, Edited;
      BalanceIsSet(db.Tables(), keccak, Model(), a, v);
      EditAccount(a, ToBalance(v));
      Touch(a);
    }

    method AddToBalance(a: Address, v: Word)
      modifies `objects, `journal, `touched
      ensures Model() == Apply(db.Tables(), keccak, old(Model()), Op.AddToBalance(a, v))
      ensures var was := FieldsOf(AccountOf(db.Tables(), old(Model()), a));
        var sum := was.balance as int + v as int;
        OnlyAccount(db.Tables(), old(Model()), Model(), a,
                    Account(was.nonce, if sum < TWO_256 then sum else sum - TWO_256, was.codeHash, was.incarnation))
    {
      hide OnlyAccount, Put, Journal.Touch, Edited;
      BalanceIsMoved(db.Tables(), keccak, Model(), a, v);
      EditAccount(a, Credit(v));
      Touch(a);
    }

    method SubtractFromBalance(a: Address, v: Word)
      modifies `objects, `journal, `touched
      ensures Model() == Apply(db.Tables(), keccak, old(Model()), Op.SubtractFromBalance(a, v))
      ensures var was := FieldsOf(AccountOf(db.Tables(), old(Model()), a));
        var difference := was.balance as int - v as int;
        OnlyAccount(db.Tables(), old(Model()), Model(), a,
                    Account(was.nonce, if difference >= 0 then difference else difference + TWO_256, was.codeHash, was.incarnation))
    {
      hide OnlyAccount, Put, Journal.Touch, Edited;
      BalanceIsMoved(db.Tables(), keccak, Model(), a, v);
      EditAccount(a, Debit(v));
      Touch(a);
    }

    method SetNonce(a: Address, n: nat)
      modifies `objects, `journal
      ensures Model() == Apply(db.Tables(), keccak, old(Model()), Op.SetNonce(a, n))
      ensures var was := FieldsOf(AccountOf(db.Tables(), old(Model()), a));
        OnlyAccount(db.Tables(), old(Model()), Model(), a, Account(n, was.balance, was.codeHash, was.incarnation))
    {
      hide OnlyAccount, Put, Edited;
      NonceIsSet(db.Tables(), keccak, Model(), a, n);
      EditAccount(a, ToNonce(n));
    }

    method GetCode(a: Address) returns (c: Bytes)
      modifies `objects, `code
      ensures Model() == FetchCode(db.Tables(), old(Model()), a)
      ensures c == CodeOf(db.Tables(), old(Model()), a)
    {
      var o := GetObject(a);
      if o.None? || o.value.current.None? {
        return [];
      }
      var codeHash := o.value.current.value.codeHash;
      if codeHash == EMPTY_HASH {
        return [];
      }
      if codeHash in code {
        return code[codeHash];
      }
      code := code[codeHash := db.Tables().ReadCode(codeHash)];
      c := code[codeHash];
    }

    method SetCode(a: Address, c: Bytes)
      modifies `objects, `journal, `code
      ensures Model() == Apply(db.Tables(), keccak, old(Model()), DeployCode(a, c))
      ensures var was := FieldsOf(AccountOf(db.Tables(), old(Model()), a));
        OnlyAccount(db.Tables(), old(Model()), Model(), a, Account(was.nonce, was.balance, keccak(c), was.incarnation))
      ensures keccak(c) != EMPTY_HASH && (keccak(c) in old(code) ==> old(code)[keccak(c)] == c) ==>
        CodeOf(db.Tables(), Model(), a) == c
    {
      hide OnlyAccount, Put, Edited, CodeOf;
      CodeIsSet(db.Tables(), keccak, Model(), a, c);
      PutCode(db.Tables(), Model(), a, ToCodeHash(keccak(c)));
      EditAccount(a, ToCodeHash(keccak(c)));
      if keccak(c) !in code {
        code := code[keccak(c) := c];
      }
    }

    method AccessAccount(a: Address) returns (cold: bool)
      modifies `accessedAddresses, `journal
      ensures Model() == Journal.AccessAccount(old(Model()), a)
      ensures cold <==> a !in old(accessedAddresses)
    {
      cold := a !in accessedAddresses;
      accessedAddresses := accessedAddresses + {a};
      if cold {
        journal := journal + [AccountAccess(a)];
      }
    }

    method AccessStorage(a: Address, k: Word) returns (cold: bool)
      modifies `accessedKeys, `journal
      ensures Model() == Journal.AccessStorage(old(Model()), a, k)
      ensures cold <==> k !in AccessedKeys(old(Model()), a)
    {
      var keys := if a in accessedKeys then accessedKeys[a] else {};
      cold := k !in keys;
      accessedKeys := accessedKeys[a := keys + {k}];
      if cold {
        journal := journal + [StorageAccess(a, k)];
      }
    }

    method GetStorage(a: Address, k: Word, original: bool) returns (v: Word)
      modifies `objects, `storage
      ensures Model() == FetchStorage(db.Tables(), old(Model()), a, k, original)
      ensures v == if original then OriginalStorage(db.Tables(), old(Model()), a, k)
                   else CurrentStorage(db.Tables(), old(Model()), a, k)
    {
      hide Fetch;
      FetchRest(db.Tables(), Model(), a);
      var o := GetObject(a);
      if o.None? || o.value.current.None? {
        return 0;
      }
      if a !in storage {
        storage := storage[a := NO_STORAGE];
      }
      if !original {
        if k in storage[a].current {
          return storage[a].current[k];
        }
      }
      if k in storage[a].committed {
        return storage[a].committed[k].original;
      }
      var incarnation := o.value.current.value.incarnation;
      if o.value.initial.None? || o.value.initial.value.incarnation != incarnation {
        return 0;
      }
      v := db.Tables().ReadStorage(a, incarnation, k);
      storage := storage[a := storage[a].(committed := storage[a].committed[k := Committed(v, v)])];
    }

    method SetStorage(a: Address, k: Word, v: Word)
      modifies `objects, `storage, `journal
      ensures Model() == Apply(db.Tables(), keccak, old(Model()), Op.WriteStorage(a, k, v))
    {
      var prior := GetStorage(a, k, false);
      if prior == v {
        return;
      }
      var x := if a in storage then storage[a] else NO_STORAGE;
      storage := storage[a := x.(current := x.current[k := v])];
      journal := journal + [StorageChange(a, k, prior)];
    }

    method TakeSnapshot() returns (snapshot: Snapshot)
      ensures snapshot == Journal.TakeSnapshot(Model())
    {
      snapshot := Snapshot(|journal|, |logs|, refund);
    }

    method UndoDelta(delta: Delta)
      modifies `objects, `storage, `selfDestructs, `touched, `accessedAddresses, `accessedKeys
      ensures Model() == Undo(old(Model()), delta)
    {
      match delta
      case Create(a) => objects := objects - {a};
      case Update(a, previous) => objects := objects[a := previous];
      case Suicide(a) => selfDestructs := selfDestructs - {a};
      case Touched(a) => touched := touched - {a};
      case StorageChange(a, k, prior) =>
        var x := if a in storage then storage[a] else NO_STORAGE;
        storage := storage[a := x.(current := x.current[k := prior])];
      case StorageWipe(a, x) => storage := storage[a := x];
      case StorageCreate(a) => storage := storage - {a};
      case StorageAccess(a, k) =>
        var keys := if a in accessedKeys then accessedKeys[a] else {};
        accessedKeys := accessedKeys[a := keys - {k}];
      case AccountAccess(a) => accessedAddresses := accessedAddresses - {a};
    }

    method RevertToSnapshot(snapshot: Snapshot)
      requires snapshot.journalSize <= |journal| && snapshot.logSize <= |logs|
      modifies this
      ensures Model() == Revert(old(Model()), snapshot)
    {
      var i := |journal|;
      assert journal[i..] == [];
      while i > snapshot.journalSize
        invariant snapshot.journalSize <= i <= |journal|
        invariant Model() == UndoAll(old(Model()), old(journal)[i..])
        invariant journal == old(journal) && logs == old(logs)
      {
        assert old(journal)[i - 1..] == [journal[i - 1]] + old(journal)[i..];
        UndoFirst(old(Model()), journal[i - 1], old(journal)[i..]);
        UndoDelta(journal[i - 1]);
        i := i - 1;
      }
      journal := journal[..snapshot.journalSize];
      logs := logs[..snapshot.logSize];
      refund := snapshot.refund;
    }

    method Destruct(a: Address)
      modifies `objects, `storage
      ensures Model() == Journal.Destruct(db.Tables(), old(Model()), a)
      ensures storage == old(storage) - {a}
    {
      storage := storage - {a};
      var o := GetObject(a);
      if o.Some? {
        objects := objects[a := o.value.(current := None)];
      }
    }

    method DestructSuicides()
      modifies `objects, `storage
      ensures Model() == DestructAll(db.Tables(), old(Model()), selfDestructs)
    {
      ghost var done: set<Address> := {};
      var todo := selfDestructs;
      DestructNone(db.Tables(), Model());
      while todo != {}
        invariant done == selfDestructs - todo && todo <= selfDestructs
        invariant Model() == DestructAll(db.Tables(), old(Model()), done)
      {
        var a :| a in todo;
        DestructStep(db.Tables(), old(Model()), a, done);
        Destruct(a);
        todo := todo - {a};
        done := done + {a};
      }
      assert done == selfDestructs;
    }

    /** The dead among the touched accounts disappear; looking at the others only fills the cache. */
    method DestructTouchedDead()
      modifies `objects, `storage
      ensures Model() == ClearDead(db.Tables(), old(Model()))
    {
      hide DestructAll, Load, Dead, Fetch, Journal.Destruct;
      ghost var tables, s := db.Tables(), Model();
      ghost var done: set<Address> := {};
      var todo := touched;
      LoadNone(tables, s);
      assert touched - todo == {};
      while todo != {}
        invariant todo <= touched == s.touched
        invariant done == set a | a in touched - todo && Dead(tables, s, a)
        invariant Model() == DestructAll(tables, Load(tables, s, touched - todo), done)
      {
        var a :| a in todo;
        LoadStep(tables, s, touched - todo, done, a);
        assert touched - todo + {a} == touched - (todo - {a});
        var dead := IsDead(a);
        todo := todo - {a};
        if dead {
          DestructStep(tables, Load(tables, s, touched - todo), a, done);
          Destruct(a);
          done := done + {a};
        }
      }
      assert touched - {} == touched;
    }

    method FinalizeTransaction()
      modifies `storage
      ensures Model() == Finalize(old(Model()))
    {
      var todo := storage.Keys;
      while todo != {}
        invariant todo <= storage.Keys == old(storage).Keys
        invariant forall a <- storage ::
          storage[a] == if a in todo then old(storage)[a] else CommittedStorage(old(storage)[a])
      {
        var a :| a in todo;
        var x := CommitStorage(storage[a]);
        storage := storage[a := x];
        todo := todo - {a};
      }
    }

    method ClearJournalAndSubstate()
      modifies this
      ensures Model() == ClearSubstate(old(Model()))
    {
      journal, selfDestructs, logs, touched, refund := [], {}, [], {}, 0;
      accessedAddresses, accessedKeys := {}, map[];
    }

    /** Writes accounts and storage into the database as block `n`. */
    method WriteToDb(n: nat)
      modifies db
      ensures Wrote(old(db.Model()), Model(), n, db.Model())
    {
      db.BeginBlock(n);
      ghost var begun := db.Model();
      ghost var last := WriteStorages();
      ghost var stored := db.Model();
      WriteAccounts();
      BothWritten(old(db.Model()), begun, stored, db.Model(), Model(), n, last);
    }

    method WriteStorages() returns (ghost last: Address)
      requires db.blockNumber !in db.storageChanges
      modifies db
      ensures Stored(old(db.Model()), Model(), db.Model(), {}, last, {})
      ensures db.accountChanges == old(db.accountChanges) && db.blockNumber == old(db.blockNumber)
    {
      hide Stored;
      last := 0;
      StoredStart(db.Model(), Model());
      var addresses := storage.Keys;
      while addresses != {}
        invariant addresses <= storage.Keys
        invariant Stored(old(db.Model()), Model(), db.Model(), addresses, last, {})
        invariant db.accountChanges == old(db.accountChanges) && db.blockNumber == old(db.blockNumber)
      {
        var a :| a in addresses;
        if a in objects && objects[a].current.Some? {
          StoredNext(old(db.Model()), Model(), db.Model(), addresses, last, a, storage[a].committed.Keys);
          WriteStorage(a, old(db.Model()), addresses - {a});
        } else {
          StoredNext(old(db.Model()), Model(), db.Model(), addresses, last, a, {});
        }
        addresses := addresses - {a};
        last := a;
      }
    }

    /** The slots of one account. */
    method WriteStorage(a: Address, ghost b: Buffer, ghost addresses: set<Address>)
      requires a in storage && a in objects && objects[a].current.Some? && a !in addresses
      requires Stored(b, Model(), db.Model(), addresses, a, storage[a].committed.Keys)
      modifies db
      ensures Stored(b, Model(), db.Model(), addresses, a, {})
      ensures db.accountChanges == old(db.accountChanges) && db.blockNumber == old(db.blockNumber)
    {
      hide Stored;
      var committed := storage[a].committed;
      var incarnation := objects[a].current.value.incarnation;
      var keys := committed.Keys;
      while keys != {}
        invariant keys <= committed.Keys
        invariant Stored(b, Model(), db.Model(), addresses, a, keys)
        invariant db.accountChanges == old(db.accountChanges) && db.blockNumber == old(db.blockNumber)
        decreases keys
      {
        var k :| k in keys;
        StoredStep(b, Model(), db.Model(), addresses, a, keys, Slot(a, incarnation, k), committed[k]);
        db.UpdateStorage(Slot(a, incarnation, k), committed[k].initial, committed[k].original);
        keys := keys - {k};
      }
    }

    method WriteAccounts()
      requires db.blockNumber !in db.accountChanges
      modifies db
      ensures Accounted(old(db.Model()), code, objects, db.Model())
    {
      hide Accounted;
      ghost var done: Objects := map[];
      AccountedStart(db.Model(), code);
      var addresses := objects.Keys;
      while addresses != {}
        invariant addresses <= objects.Keys
        invariant done == map a | a in objects && a !in addresses :: objects[a]
        invariant Accounted(old(db.Model()), code, done, db.Model())
        decreases addresses
      {
        var a :| a in addresses;
        var o := objects[a];
        AccountedStep(old(db.Model()), code, done, db.Model(), a, o);
        db.UpdateAccount(a, o.initial, o.current);
        if o.current.Some? && o.current.value.codeHash != EMPTY_HASH &&
           (o.initial.None? || o.initial.value.incarnation != o.current.value.incarnation) {
          var h := o.current.value.codeHash;
          db.UpdateAccountCode(h, if h in code then code[h] else []);
        }
        addresses := addresses - {a};
        done := done[a := o];
      }
      assert done == objects;
    }

    method AddLog(log: Bytes)
      modifies `logs
      ensures Model() == Apply(db.Tables(), keccak, old(Model()), Op.AddLog(log))
    {
      logs := logs + [log];
    }

    method AddRefund(n: nat)
      modifies `refund
      ensures Model() == Apply(db.Tables(), keccak, old(Model()), Op.AddRefund(n))
    {
      refund := (refund + n) % TWO_64;
    }

    method SubtractRefund(n: nat)
      modifies `refund
      ensures Model() == Apply(db.Tables(), keccak, old(Model()), Op.SubtractRefund(n))
    {
      refund := (refund - n) % TWO_64;
    }
  }

  /** The inner loop of `finalize_transaction`. */
  method CommitStorage(x: Storage) returns (y: Storage)
    ensures y == CommittedStorage(x)
  {
    y := x;
    var keys := x.current.Keys;
    ghost var target := CommittedStorage(x).committed;
    while keys != {}
      invariant keys <= x.current.Keys && y.current == x.current
      invariant y.committed.Keys == x.committed.Keys + (x.current.Keys - keys)
      invariant forall k <- y.committed :: y.committed[k] == if k in keys then x.committed[k] else target[k]
      decreases keys
    {
      var k :| k in keys;
      var entry := if k in y.committed then y.committed[k] else Committed(0, 0);
      y := y.(committed := y.committed[k := entry.(original := x.current[k])]);
      keys := keys - {k};
    }
    y := y.(current := map[]);
  }

  lemma UndoFirst(s: State, delta: Delta, deltas: seq<Delta>)
    ensures UndoAll(s, [delta] + deltas) == Undo(UndoAll(s, deltas), delta)
  {
    UndoAllConcat(s, [delta], deltas);
    var t := UndoAll(s, deltas);
    assert UndoAll(t, [delta]) == UndoAll(Undo(t, delta), []);
  }
}
