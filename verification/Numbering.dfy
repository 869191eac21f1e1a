/** What executing and writing a block does to incarnation numbers: create_contract and write_to_db of
    core/silkworm/state/intra_block_state.cpp over update_account of core/silkworm/state/memory_buffer.cpp. */
module Numbering {
  import opened Basics
  import opened World
  import opened Journal
  import opened FlatState
  import opened MemoryBuffers
  import opened IntraBlock
  import opened Refunds
  import opened Evm
  import opened Refinement
  import P = Processor
  import C = ChainStates

  function Stored(db: Db, a: Address): (n: nat)
  {
    if a in db.accounts then db.accounts[a].incarnation else 0
  }

  /** Storage is under no higher incarnation than that of the contract or, if there is none, the remembered one. */
  ghost predicate Low(db: Db)
  {
    forall slot <- db.storage ::
      slot.incarnation <= if Stored(db, slot.address) > 0 then Stored(db, slot.address) else db.PreviousIncarnation(slot.address)
  }

  /** No contract is more than one incarnation ahead of the remembered one. */
  predicate Close(db: Db)
  {
    forall a <- db.accounts :: db.accounts[a].incarnation <= db.PreviousIncarnation(a) + 1
  }

  // --- numbers in order ---

  /** The highest incarnation of `a` that may have storage. */
  function Level(t: C.Tables, m: C.Memory, a: Address): (n: nat)
  {
    if t.Incarnation(a) > 0 then t.Incarnation(a) else m.Last(a)
  }

  /** No storage is held under an incarnation that a new contract might get, and the code of
      every account is at hand. */
  ghost predicate Intact(t: C.Tables, m: C.Memory)
  {
    && (forall slot <- t.storage :: slot.incarnation <= Level(t, m, slot.address))
    && (forall a <- t.accounts :: t.accounts[a].codeHash == EMPTY_HASH || t.accounts[a].codeHash in m.code)
  }

  /** From `t` and `m` to `u` and `n`, a removed contract is remembered, a new one gets a number above the remembered
      one, no number sinks, and code is only added. */
  ghost predicate Numbers(t: C.Tables, m: C.Memory, u: C.Tables, n: C.Memory)
  {
    && Intact(u, n)
    && (forall a :: n.Last(a) == m.Last(a) || (t.Incarnation(a) > 0 && n.Last(a) == t.Incarnation(a)))
    && (forall a | u.Incarnation(a) > 0 ::
          if t.Incarnation(a) > 0 then t.Incarnation(a) <= u.Incarnation(a) else m.Last(a) < u.Incarnation(a))
    && m.code.Keys <= n.code.Keys
  }

  // --- the numbers that contracts get ---

  /** A contract is above the remembered incarnation, or not below the one the block began with. */
  predicate CountedAt(db: Db, a: Address, incarnation: nat)
  {
    incarnation > 0 ==> db.PreviousIncarnation(a) < incarnation || 0 < Stored(db, a) <= incarnation
  }

  ghost predicate Counted(db: Db, f: Flat)
  {
    && (forall a <- f.accounts :: CountedAt(db, a, f.accounts[a].incarnation))
    && (Low(db) && Close(db) ==> f.anchored)
  }

  lemma CreateCounted(db: Db, f: Flat, a: Address)
    requires Counted(db, f)
    ensures Counted(db, FlatCreate(db, f, a))
  {
    var n := FlatIncarnation(db, f, a);
    assert CountedAt(db, a, n);
    if Low(db) && Close(db) && !Returns(db, a, n) {
      assert a in f.accounts ==> CountedAt(db, a, f.accounts[a].incarnation);
      forall slot | slot in db.storage
        ensures slot.address != a || slot.incarnation != n
      {
      }
    }
  }

  lemma ApplyCounted(db: Db, keccak: Bytes -> Word, f: Flat, op: Op)
    requires Counted(db, f)
    ensures Counted(db, FlatApply(db, keccak, f, op))
  {
    hide FlatCreate, Edited, Low;
    if op.MakeContract? { CreateCounted(db, f, op.a); }
  }

  ghost predicate AllCounted(db: Db, f: Flat, saved: seq<Flat>)
  {
    Counted(db, f) && forall i | 0 <= i < |saved| :: Counted(db, saved[i])
  }

  lemma {:induction false} RunCounted(db: Db, keccak: Bytes -> Word, f: Flat, saved: seq<Flat>, steps: seq<HostStep>)
    requires LegalHostRun(db, keccak, f, saved, steps) && AllCounted(db, f, saved)
    ensures Counted(db, FlatHostRun(db, keccak, f, saved, steps))
    decreases |steps|
  {
    hide FlatApply, Low;
    if steps != [] {
      match steps[0] {
        case Other(op) => ApplyCounted(db, keccak, f, op);
        case _ =>
      }
      var (g, kept) := FlatHostNext(db, keccak, f, saved, steps[0]);
      RunCounted(db, keccak, g, kept, steps[1..]);
    }
  }

  lemma EndCounted(db: Db, f: Flat, clearDead: bool)
    requires Counted(db, f)
    ensures Counted(db, FlatEnd(f, clearDead))
  {
    hide Low;
  }

  lemma {:induction false} TxnsCounted(env: Env, block: P.Block, s: State, used: nat, txns: seq<P.Txn>, f: Flat)
    requires (forall txn <- txns :: P.Checked(txn)) && Counted(env.db, f)
    requires FlatTxns(env, block, s, used, txns, f).Some?
    ensures Counted(env.db, FlatTxns(env, block, s, used, txns, f).value)
    decreases |txns|
  {
    hide Counted, P.Checked, P.Validate, P.Looked, P.ExecuteTransaction, TxnSteps, LegalHostRun, FlatHostRun, FlatEnd;
    if txns != [] && P.Validate(env, block, used, s, txns[0]) == P.Ok {
      var s1, txn := P.Looked(env, s, txns[0]), txns[0];
      P.Admitted(env, block, used, s, txn);
      var steps := TxnSteps(env, block.beneficiary, s1, txn);
      BegunCounted(env.db, f);
      RunCounted(env.db, env.keccak, Begun(f), [], steps);
      EndCounted(env.db, FlatHostRun(env.db, env.keccak, Begun(f), [], steps), env.rev >= SPURIOUS_DRAGON);
      var t := P.ExecuteTransaction(env, block.beneficiary, s1, txn);
      TxnsCounted(env, block, t.state, used + t.gasUsed, txns[1..], FlatTxn(env, block.beneficiary, s1, txn, f));
    }
  }

  lemma BegunCounted(db: Db, f: Flat)
    requires Counted(db, f)
    ensures AllCounted(db, Begun(f), [])
  {
  }

  lemma {:induction false} DrainCounted(env: Env, f: Flat, children: seq<Address>, refund: Address)
    requires Counted(env.db, f)
    ensures Counted(env.db, FlatDrain(env, f, children, refund))
    decreases |children|
  {
    hide Counted, FlatApply;
    if children != [] {
      var give, clear := AddToBalance(refund, FlatBalance(f, children[0])), SetBalance(children[0], 0);
      ApplyCounted(env.db, env.keccak, f, give);
      var f1 := FlatApply(env.db, env.keccak, f, give);
      ApplyCounted(env.db, env.keccak, f1, clear);
      DrainCounted(env, FlatApply(env.db, env.keccak, f1, clear), children[1..], refund);
    }
  }

  lemma {:induction false} OmmersCounted(env: Env, block: P.Block, f: Flat, ommers: seq<P.Ommer>)
    requires Counted(env.db, f)
    ensures Counted(env.db, FlatOmmers(env, block, f, ommers))
    decreases |ommers|
  {
    hide Counted, FlatApply, P.OmmerReward, P.BlockReward;
    if ommers != [] {
      var op := AddToBalance(ommers[0].beneficiary, P.OmmerReward(P.BlockReward(env.rev), block.number, ommers[0]));
      ApplyCounted(env.db, env.keccak, f, op);
      OmmersCounted(env, block, FlatApply(env.db, env.keccak, f, op), ommers[1..]);
    }
  }

  /** After every block, contracts have numbers above the remembered ones or not below those they had; and if
      the database began with low storage and close numbers, no storage is hidden. */
  lemma ExecutedCounted(env: Env, block: P.Block, fork: Option<P.Fork>)
    requires (forall txn <- block.txns :: P.Checked(txn)) && FlatExecuted(env, block, fork).Some?
    ensures Counted(env.db, FlatExecuted(env, block, fork).value)
  {
    hide Counted, P.Checked, FlatTxns, P.DrainAll, FlatDrain, FlatOmmers, FlatApply, P.MinerReward, FlatOf;
    FreshCounted(env.db);
    var s0, f0 := Opening(env, fork), FlatOpening(env, fork);
    if fork.Some? { DrainCounted(env, FlatOf(env.db), fork.value.children, fork.value.refund); }
    TxnsCounted(env, block, s0, 0, block.txns, f0);
    var f1 := FlatTxns(env, block, s0, 0, block.txns, f0).value;
    OmmersCounted(env, block, f1, block.ommers);
    ApplyCounted(env.db, env.keccak, FlatOmmers(env, block, f1, block.ommers),
                 AddToBalance(block.beneficiary, P.MinerReward(env.rev, |block.ommers|)));
  }

  lemma FreshCounted(db: Db)
    ensures Counted(db, FlatOf(db))
  {
    hide Low;
  }

  // --- when a block keeps the numbers in order ---

  /** The code that is written for new contracts. */
  function NewCode(db: Db, f: Flat): (r: set<Word>)
  {
    set a | a in f.accounts && f.accounts[a].codeHash != EMPTY_HASH
            && (a in db.accounts ==> db.accounts[a].incarnation != f.accounts[a].incarnation) :: f.accounts[a].codeHash
  }

  /** An account that is no contract is not removed where an incarnation is remembered; a contract that has become
      a plain account leaves no storage above the remembered incarnation; numbers do not sink; code is at hand. */
  ghost predicate SteadyAt(db: Db, f: Flat, a: Address)
  {
    if a !in f.accounts then a in db.accounts && Stored(db, a) == 0 ==> db.PreviousIncarnation(a) == 0
    else
      var n, h := f.accounts[a].incarnation, f.accounts[a].codeHash;
      && (n == 0 && Stored(db, a) > 0 ==>
            forall slot <- db.storage | slot.address == a :: slot.incarnation <= db.PreviousIncarnation(a))
      && (n > 0 ==> Stored(db, a) <= n)
      && (h == EMPTY_HASH || h in db.code || h in NewCode(db, f))
  }

  ghost predicate Steady(db: Db, f: Flat)
  {
    forall a :: SteadyAt(db, f, a)
  }

  /** What writing a block makes of the database, in terms of the flat maps. */
  ghost predicate Follows(db: Db, f: Flat, after: Db)
  {
    && after.accounts == f.accounts
    && (forall a :: after.PreviousIncarnation(a) ==
          if a in db.accounts && a !in f.accounts then Stored(db, a) else db.PreviousIncarnation(a))
    && (forall slot <- after.storage | slot !in db.storage :: slot.incarnation == Stored(after, slot.address) > 0)
    && (forall slot <- db.storage | Stored(after, slot.address) == 0 :: slot in after.storage)
    && after.code.Keys == db.code.Keys + NewCode(db, f)
  }

  lemma StorageFollows(b: Buffer, s: State, f: Flat, n: nat, r: Buffer, slot: Slot)
    requires DbOk(b.db) && Sound(b.db, s, f) && Wrote(b, s, n, r) && r.db.accounts == f.accounts
    ensures slot in r.db.storage && slot !in b.db.storage ==> slot.incarnation == Stored(r.db, slot.address) > 0
    ensures slot in b.db.storage && Stored(r.db, slot.address) == 0 ==> slot in r.db.storage
  {
    var a := slot.address;
    assert Get(r.db.storage, slot) == NewValue(b, WrittenAt(s, slot), slot);
    assert ViewAt(b.db, a, ObjectIn(b.db, s.objects, a), StorageIn(s.storage, a), f);
    assert TidyAt(ObjectIn(b.db, s.objects, a), StorageIn(s.storage, a));
  }

  lemma HashesFollow(db: Db, s: State, f: Flat)
    requires Sound(db, s, f)
    ensures NewHashes(s.objects) == NewCode(db, f)
  {
    forall a
      ensures a in s.objects && Deployed(s.objects[a]) <==>
              a in f.accounts && f.accounts[a].codeHash != EMPTY_HASH && (a in db.accounts ==> db.accounts[a].incarnation != f.accounts[a].incarnation)
      ensures a in s.objects && Deployed(s.objects[a]) ==> s.objects[a].current == Some(f.accounts[a])
    {
      assert ViewAt(db, a, ObjectIn(db, s.objects, a), StorageIn(s.storage, a), f);
    }
  }

  lemma WrittenFollows(b: Buffer, s: State, f: Flat, n: nat, r: Buffer)
    requires DbOk(b.db) && Sound(b.db, s, f) && Wrote(b, s, n, r)
    ensures Follows(b.db, f, r.db)
  {
    hide Sound, Wrote, NewHashes, NewCode, DbOk;
    forall a
      ensures Get(r.db.accounts, a) == Get(f.accounts, a)
      ensures r.db.PreviousIncarnation(a) ==
              if a in b.db.accounts && a !in f.accounts then Stored(b.db, a) else b.db.PreviousIncarnation(a)
    {
      AccountFollows(b, s, f, n, r, a);
    }
    SameByGet(r.db.accounts, f.accounts);
    forall slot: Slot
      ensures slot in r.db.storage && slot !in b.db.storage ==> slot.incarnation == Stored(r.db, slot.address) > 0
      ensures slot in b.db.storage && Stored(r.db, slot.address) == 0 ==> slot in r.db.storage
    {
      StorageFollows(b, s, f, n, r, slot);
    }
    assert r.db.code.Keys == b.db.code.Keys + NewHashes(s.objects) by { CodeFollows(b, s, n, r); }
    HashesFollow(b.db, s, f);
  }

  lemma CodeFollows(b: Buffer, s: State, n: nat, r: Buffer)
    requires Wrote(b, s, n, r)
    ensures r.db.code.Keys == b.db.code.Keys + NewHashes(s.objects)
  {
  }

  lemma AccountFollows(b: Buffer, s: State, f: Flat, n: nat, r: Buffer, a: Address)
    requires Sound(b.db, s, f) && Wrote(b, s, n, r)
    ensures Get(r.db.accounts, a) == Get(f.accounts, a)
    ensures r.db.PreviousIncarnation(a) ==
            if a in b.db.accounts && a !in f.accounts then Stored(b.db, a) else b.db.PreviousIncarnation(a)
  {
    assert ViewAt(b.db, a, ObjectIn(b.db, s.objects, a), StorageIn(s.storage, a), f);
    OverlayGet(b.db.accounts, CurrentAccounts(s.objects), a);
  }

  lemma NumbersExact(b: Buffer, f: Flat, r: Buffer)
    requires DbOk(b.db) && Counted(b.db, f) && Follows(b.db, f, r.db) && Intact(C.TablesOf(b), C.MemoryOf(b))
    ensures Numbers(C.TablesOf(b), C.MemoryOf(b), C.TablesOf(r), C.MemoryOf(r)) <==> Steady(b.db, f)
  {
    hide NewCode, DbOk;
    if Steady(b.db, f) { SteadyNumbers(b, f, r); }
    if Numbers(C.TablesOf(b), C.MemoryOf(b), C.TablesOf(r), C.MemoryOf(r)) {
      forall a ensures SteadyAt(b.db, f, a) { NumbersSteady(b, f, r, a); }
    }
  }

  lemma SteadyNumbers(b: Buffer, f: Flat, r: Buffer)
    requires Counted(b.db, f) && Follows(b.db, f, r.db) && Intact(C.TablesOf(b), C.MemoryOf(b)) && Steady(b.db, f)
    ensures Numbers(C.TablesOf(b), C.MemoryOf(b), C.TablesOf(r), C.MemoryOf(r))
  {
    hide NewCode, SteadyAt, Follows, Counted;
    var u, n := C.TablesOf(r), C.MemoryOf(r);
    forall slot | slot in u.storage
      ensures slot.incarnation <= Level(u, n, slot.address)
    {
      SteadySlot(b, f, r, slot);
    }
    forall a ensures NumberedAt(b, r, a) { SteadyNumbered(b, f, r, a); }
    AllNumbered(b, r);
    assert b.db.code.Keys <= r.db.code.Keys by { CodeGrows(b.db, f, r.db); }
  }

  /** What `Numbers` says about one address. */
  ghost predicate NumberedAt(b: Buffer, r: Buffer, a: Address)
  {
    var t, m, u, n := C.TablesOf(b), C.MemoryOf(b), C.TablesOf(r), C.MemoryOf(r);
    && (a in u.accounts ==> u.accounts[a].codeHash == EMPTY_HASH || u.accounts[a].codeHash in n.code)
    && (n.Last(a) == m.Last(a) || (t.Incarnation(a) > 0 && n.Last(a) == t.Incarnation(a)))
    && (u.Incarnation(a) > 0 ==>
          if t.Incarnation(a) > 0 then t.Incarnation(a) <= u.Incarnation(a) else m.Last(a) < u.Incarnation(a))
  }

  lemma SteadyNumbered(b: Buffer, f: Flat, r: Buffer, a: Address)
    requires Counted(b.db, f) && Follows(b.db, f, r.db) && SteadyAt(b.db, f, a)
    ensures NumberedAt(b, r, a)
  {
    hide NewCode, Low, Close;
    assert r.db.PreviousIncarnation(a) == if a in b.db.accounts && a !in f.accounts then Stored(b.db, a) else b.db.PreviousIncarnation(a);
    assert a in f.accounts ==> CountedAt(b.db, a, f.accounts[a].incarnation);
  }

  lemma SteadySlot(b: Buffer, f: Flat, r: Buffer, slot: Slot)
    requires Follows(b.db, f, r.db) && Intact(C.TablesOf(b), C.MemoryOf(b)) && SteadyAt(b.db, f, slot.address)
    requires slot in r.db.storage && Counted(b.db, f)
    ensures slot.incarnation <= Level(C.TablesOf(r), C.MemoryOf(r), slot.address)
  {
    hide NewCode;
    var a := slot.address;
    assert r.db.PreviousIncarnation(a) == if a in b.db.accounts && a !in f.accounts then Stored(b.db, a) else b.db.PreviousIncarnation(a);
    assert a in f.accounts ==> CountedAt(b.db, a, f.accounts[a].incarnation);
    assert C.MemoryOf(r).Last(a) == r.db.PreviousIncarnation(a) && C.MemoryOf(b).Last(a) == b.db.PreviousIncarnation(a);
    assert C.TablesOf(r).Incarnation(a) == Stored(r.db, a) && C.TablesOf(b).Incarnation(a) == Stored(b.db, a);
    if slot in b.db.storage { assert slot.incarnation <= Level(C.TablesOf(b), C.MemoryOf(b), slot.address); }
  }

  lemma AllNumbered(b: Buffer, r: Buffer)
    requires forall a :: NumberedAt(b, r, a)
    ensures var t, m, u, n := C.TablesOf(b), C.MemoryOf(b), C.TablesOf(r), C.MemoryOf(r);
      && (forall a <- u.accounts :: u.accounts[a].codeHash == EMPTY_HASH || u.accounts[a].codeHash in n.code)
      && (forall a :: n.Last(a) == m.Last(a) || (t.Incarnation(a) > 0 && n.Last(a) == t.Incarnation(a)))
      && (forall a | u.Incarnation(a) > 0 ::
            if t.Incarnation(a) > 0 then t.Incarnation(a) <= u.Incarnation(a) else m.Last(a) < u.Incarnation(a))
  {
    var t, m, u, n := C.TablesOf(b), C.MemoryOf(b), C.TablesOf(r), C.MemoryOf(r);
    forall a
      ensures a in u.accounts ==> u.accounts[a].codeHash == EMPTY_HASH || u.accounts[a].codeHash in n.code
      ensures n.Last(a) == m.Last(a) || (t.Incarnation(a) > 0 && n.Last(a) == t.Incarnation(a))
      ensures u.Incarnation(a) > 0 ==>
        if t.Incarnation(a) > 0 then t.Incarnation(a) <= u.Incarnation(a) else m.Last(a) < u.Incarnation(a)
    {
      assert NumberedAt(b, r, a);
    }
  }

  lemma CodeGrows(db: Db, f: Flat, after: Db)
    requires Follows(db, f, after)
    ensures db.code.Keys <= after.code.Keys
  {
  }

  lemma NumbersSteady(b: Buffer, f: Flat, r: Buffer, a: Address)
    requires Follows(b.db, f, r.db) && Numbers(C.TablesOf(b), C.MemoryOf(b), C.TablesOf(r), C.MemoryOf(r))
    ensures SteadyAt(b.db, f, a)
  {
    hide NewCode;
    var t, m, u, n := C.TablesOf(b), C.MemoryOf(b), C.TablesOf(r), C.MemoryOf(r);
    assert n.Last(a) == m.Last(a) || (t.Incarnation(a) > 0 && n.Last(a) == t.Incarnation(a));
    assert r.db.PreviousIncarnation(a) == if a in b.db.accounts && a !in f.accounts then Stored(b.db, a) else b.db.PreviousIncarnation(a);
    if a in f.accounts && f.accounts[a].incarnation == 0 && Stored(b.db, a) > 0 {
      forall slot | slot in b.db.storage && slot.address == a
        ensures slot.incarnation <= b.db.PreviousIncarnation(a)
      {
        assert slot in u.storage;
        assert slot.incarnation <= Level(u, n, a);
      }
    }
  }

  /** Whether an accepted block keeps the numbers in order can be told from the database and the flat maps. */
  lemma AcceptedBlockNumbers(env: Env, block: P.Block, fork: Option<P.Fork>, b: Buffer, r: Buffer)
    requires (forall txn <- block.txns :: P.Checked(txn)) && DbOk(b.db) && env.db == b.db
    requires FlatExecuted(env, block, fork).Some? && P.ExecuteBlock(env, block, FRESH_STATE, fork).verdict == P.Ok
    requires Wrote(b, P.ExecuteBlock(env, block, FRESH_STATE, fork).state, block.number, r)
    requires Intact(C.TablesOf(b), C.MemoryOf(b))
    ensures Numbers(C.TablesOf(b), C.MemoryOf(b), C.TablesOf(r), C.MemoryOf(r)) <==>
            Steady(b.db, FlatExecuted(env, block, fork).value)
    ensures Close(b.db) ==> FlatExecuted(env, block, fork).value.anchored
  {
    hide P.Checked, P.ExecuteBlock, Wrote, FlatExecuted, Sound, DbOk, Numbers, Steady, Follows, CountedAt;
    var f := FlatExecuted(env, block, fork).value;
    ExecutedBlockRefines(env, block, fork);
    WrittenFollows(b, P.ExecuteBlock(env, block, FRESH_STATE, fork).state, f, block.number, r);
    ExecutedCounted(env, block, fork);
    NumbersExact(b, f, r);
    IntactLow(b);
  }

  lemma IntactLow(b: Buffer)
    requires Intact(C.TablesOf(b), C.MemoryOf(b))
    ensures Low(b.db)
  {
    forall slot | slot in b.db.storage
      ensures slot.incarnation <= if Stored(b.db, slot.address) > 0 then Stored(b.db, slot.address) else b.db.PreviousIncarnation(slot.address)
    {
      assert slot.incarnation <= Level(C.TablesOf(b), C.MemoryOf(b), slot.address);
    }
  }
}
