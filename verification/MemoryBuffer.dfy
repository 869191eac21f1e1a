/** The account and storage tables of `MemoryBuffer` with their change sets:
    core/silkworm/state/memory_buffer.cpp. */
module MemoryBuffers {
  import opened Basics
  import opened World

  /** `m` with every key of `changes` set or removed. */
  function Overlay<K, V>(m: map<K, V>, changes: map<K, Option<V>>): (r: map<K, V>)
  {
    map k | k in m.Keys + changes.Keys && (k in changes ==> changes[k].Some?) ::
      if k in changes then changes[k].value else m[k]
  }

  function SetOrErase<K, V>(m: map<K, V>, k: K, v: Option<V>): (r: map<K, V>)
  {
    if v.Some? then m[k := v.value] else m - {k}
  }

  lemma OverlayNothing<K, V>(m: map<K, V>)
    ensures Overlay(m, map[]) == m
  {
  }

  lemma OverlayStep<K, V>(m: map<K, V>, changes: map<K, Option<V>>, k: K, v: Option<V>)
    ensures Overlay(m, changes[k := v]) == SetOrErase(Overlay(m, changes), k, v)
  {
  }

  lemma OverlayGet<K, V>(m: map<K, V>, changes: map<K, Option<V>>, k: K)
    ensures Get(Overlay(m, changes), k) == if k in changes then changes[k] else Get(m, k)
  {
  }

  /** Writing changes and then the previous values of the same keys gives the map back. */
  lemma OverlayUndone<K, V>(m: map<K, V>, changes: map<K, Option<V>>, previous: map<K, Option<V>>)
    requires changes.Keys == previous.Keys && forall k <- previous :: previous[k] == Get(m, k)
    ensures Overlay(Overlay(m, changes), previous) == m
  {
    var r := Overlay(Overlay(m, changes), previous);
    forall k
      ensures Get(r, k) == Get(m, k)
    {
      OverlayGet(Overlay(m, changes), previous, k);
      OverlayGet(m, changes, k);
    }
    SameByGet(r, m);
  }

  lemma SameByGet<K, V>(x: map<K, V>, y: map<K, V>)
    requires forall k :: Get(x, k) == Get(y, k)
    ensures x == y
  {
    assert forall k <- x :: Get(y, k) == Some(x[k]);
    assert forall k <- y :: Get(x, k) == Some(y[k]);
  }

  function NonZero(v: Word): (r: Option<Word>)
  {
    if v == 0 then None else Some(v)
  }

  function NonZeros(m: map<Slot, Word>): (r: map<Slot, Option<Word>>)
  {
    map slot | slot in m :: NonZero(m[slot])
  }

  type AccountChanges = map<Address, Option<Account>>
  type StorageChanges = map<Slot, Word>

  /** The tables together with the backward changes of each block. */
  datatype Buffer = Buffer(
    db: Db,
    accountChanges: map<nat, AccountChanges>,
    storageChanges: map<nat, StorageChanges>,
    blockNumber: nat)
  {
    function AccountChangesAt(n: nat): (r: AccountChanges)
    {
      if n in accountChanges then accountChanges[n] else map[]
    }

    function StorageChangesAt(n: nat): (r: StorageChanges)
    {
      if n in storageChanges then storageChanges[n] else map[]
    }

    function BeginBlock(n: nat): (r: Buffer)
    {
      Buffer(db, accountChanges - {n}, storageChanges - {n}, n)
    }

    function UpdateAccount(a: Address, initial: Option<Account>, current: Option<Account>): (r: Buffer)
    {
      this.(accountChanges := accountChanges[blockNumber := AccountChangesAt(blockNumber)[a := initial]],
            db := db.(accounts := SetOrErase(db.accounts, a, current),
                      prevIncarnations :=
                        if current.None? && initial.Some? then db.prevIncarnations[a := initial.value.incarnation]
                        else db.prevIncarnations))
    }

    function UpdateAccountCode(codeHash: Word, code: Bytes): (r: Buffer)
    {
      this.(db := db.(code := db.code[codeHash := code]))
    }

    function UpdateStorage(slot: Slot, initial: Word, current: Word): (r: Buffer)
    {
      this.(storageChanges := storageChanges[blockNumber := StorageChangesAt(blockNumber)[slot := initial]],
            db := db.(storage := SetOrErase(db.storage, slot, NonZero(current))))
    }

    /** Applies the backward changes of block `n`. */
    function Unwind(n: nat): (r: Buffer)
    {
      this.(db := db.(accounts := Overlay(db.accounts, AccountChangesAt(n)),
                      storage := Overlay(db.storage, NonZeros(StorageChangesAt(n)))))
    }
  }

  class MemoryBuffer {
    var accounts: map<Address, Account>
    var code: map<Word, Bytes>
    var prevIncarnations: map<Address, nat>
    var storage: map<Slot, Word>
    var accountChanges: map<nat, AccountChanges>
    var storageChanges: map<nat, StorageChanges>
    var blockNumber: nat

    function Tables(): (db: Db)
      reads this
    {
      Db(accounts, code, prevIncarnations, storage)
    }

    function Model(): (b: Buffer)
      reads this
    {
      Buffer(Tables(), accountChanges, storageChanges, blockNumber)
    }

    constructor ()
      ensures Model() == Buffer(Db(map[], map[], map[], map[]), map[], map[], 0)
    {
      accounts, code, prevIncarnations, storage := map[], map[], map[], map[];
      accountChanges, storageChanges, blockNumber := map[], map[], 0;
    }

    method BeginBlock(n: nat)
      modifies this
      ensures Model() == old(Model()).BeginBlock(n)
    {
      blockNumber := n;
      accountChanges := accountChanges - {n};
      storageChanges := storageChanges - {n};
    }

    method UpdateAccount(a: Address, initial: Option<Account>, current: Option<Account>)
      modifies this
      ensures Model() == old(Model()).UpdateAccount(a, initial, current)
    {
      var changes := if blockNumber in accountChanges then accountChanges[blockNumber] else map[];
      accountChanges := accountChanges[blockNumber := changes[a := initial]];
      if current.Some? {
        accounts := accounts[a := current.value];
      } else {
        accounts := accounts - {a};
        if initial.Some? {
          prevIncarnations := prevIncarnations[a := initial.value.incarnation];
        }
      }
    }

    method UpdateAccountCode(codeHash: Word, code: Bytes)
      modifies this
      ensures Model() == old(Model()).UpdateAccountCode(codeHash, code)
    {
      this.code := this.code[codeHash := code];
    }

    method UpdateStorage(slot: Slot, initial: Word, current: Word)
      modifies this
      ensures Model() == old(Model()).UpdateStorage(slot, initial, current)
    {
      var changes := if blockNumber in storageChanges then storageChanges[blockNumber] else map[];
      storageChanges := storageChanges[blockNumber := changes[slot := initial]];
      if current == 0 {
        storage := storage - {slot};
      } else {
        storage := storage[slot := current];
      }
    }

    /** The loops visit the change sets in any order and apply all of them. */
    method UnwindStateChanges(n: nat)
      modifies this
      ensures Model() == old(Model()).Unwind(n)
    {
      var changes := if n in accountChanges then accountChanges[n] else map[];
      var todo := changes.Keys;
      ghost var done: AccountChanges := map[];
      OverlayNothing(accounts);
      while todo != {}
        invariant todo <= changes.Keys
        invariant done == map a | a in changes && a !in todo :: changes[a]
        invariant Model() == old(Model()).(db := old(Tables()).(accounts := Overlay(old(accounts), done)))
      {
        var a :| a in todo;
        OverlayStep(old(accounts), done, a, changes[a]);
        if changes[a].Some? {
          accounts := accounts[a := changes[a].value];
        } else {
          accounts := accounts - {a};
        }
        todo := todo - {a};
        done := done[a := changes[a]];
      }
      assert done == changes;
      UnwindStorage(n);
    }

    method UnwindStorage(n: nat)
      modifies `storage
      ensures storage == Overlay(old(storage), NonZeros(Model().StorageChangesAt(n)))
    {
      var changes := if n in storageChanges then storageChanges[n] else map[];
      var todo := changes.Keys;
      ghost var done: map<Slot, Option<Word>> := map[];
      OverlayNothing(storage);
      while todo != {}
        invariant todo <= changes.Keys
        invariant done == map slot | slot in changes && slot !in todo :: NonZero(changes[slot])
        invariant storage == Overlay(old(storage), done)
      {
        var slot :| slot in todo;
        OverlayStep(old(storage), done, slot, NonZero(changes[slot]));
        if changes[slot] == 0 {
          storage := storage - {slot};
        } else {
          storage := storage[slot := changes[slot]];
        }
        todo := todo - {slot};
        done := done[slot := NonZero(changes[slot])];
      }
      assert done == NonZeros(changes);
    }
  }
}
