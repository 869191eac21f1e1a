/** Executing a block and writing it: core/silkworm/execution/execution.cpp. An accepted block is, for the chain,
    a set of changes whose previous values are its change set; a rejected one writes nothing. */
module BlockExecution {
  import opened Basics
  import opened World
  import opened Journal
  import opened FlatState
  import opened MemoryBuffers
  import opened IntraBlock
  import opened Refunds
  import opened Evm
  import opened Execution
  import opened Refinement
  import P = Processor
  import C = ChainStates

  // --- what a block changes ---

  /** The slots that `write_to_db` writes. */
  function WrittenSlots(s: State): (r: set<Slot>)
  {
    set a, k | a in s.storage && a in s.objects && s.objects[a].current.Some? && k in s.storage[a].committed ::
      Slot(a, s.objects[a].current.value.incarnation, k)
  }

  lemma WrittenSlot(s: State, slot: Slot)
    ensures slot in WrittenSlots(s) <==> WrittenAt(s, slot).Some?
  {
    if WrittenAt(s, slot).Some? {
      var a, k := slot.address, slot.location;
      assert Slot(a, s.objects[a].current.value.incarnation, k) == slot;
    }
  }

  function NewWord(s: State, slot: Slot): (v: Option<Word>)
  {
    match WrittenAt(s, slot) case Some(c) => NonZero(c.original) case None => None
  }

  /** The changes of a block that ends in `s`. */
  function ChangesOf(s: State): (c: C.Changes)
  {
    C.Changes(CurrentAccounts(s.objects), map slot | slot in WrittenSlots(s) :: NewWord(s, slot))
  }

  /** The change set recorded for block `n`. */
  function ChangeSet(b: Buffer, n: nat): (c: C.Changes)
  {
    C.Changes(b.AccountChangesAt(n), NonZeros(b.StorageChangesAt(n)))
  }

  lemma StorageWritten(b: Buffer, s: State, n: nat, r: Buffer)
    requires Wrote(b, s, n, r)
    ensures r.db.storage == Overlay(b.db.storage, ChangesOf(s).storage)
  {
    hide WrittenSlots;
    var x := Overlay(b.db.storage, ChangesOf(s).storage);
    forall slot
      ensures Get(r.db.storage, slot) == Get(x, slot)
    {
      OverlayGet(b.db.storage, ChangesOf(s).storage, slot);
      WrittenSlot(s, slot);
      assert Get(r.db.storage, slot) == NewValue(b, WrittenAt(s, slot), slot);
    }
    SameByGet(r.db.storage, x);
  }

  lemma RecordedStorage(b: Buffer, s: State, f: Flat, n: nat, r: Buffer)
    requires DbOk(b.db) && Sound(b.db, s, f) && f.anchored && Wrote(b, s, n, r)
    ensures NonZeros(r.StorageChangesAt(n)) == C.Previous(C.TablesOf(b), ChangesOf(s)).storage
  {
    hide WrittenSlots, Sound;
    var x, y := NonZeros(r.StorageChangesAt(n)), C.Previous(C.TablesOf(b), ChangesOf(s)).storage;
    forall slot
      ensures Get(x, slot) == Get(y, slot)
    {
      WrittenSlot(s, slot);
      assert Get(r.StorageChangesAt(n), slot) == OldValue(WrittenAt(s, slot));
      if WrittenAt(s, slot).Some? { AnchoredSlot(b.db, s, f, slot); }
    }
    SameByGet(x, y);
  }

  /** Writing a block applies its changes, records their previous values, remembers the accounts it removed,
      and unwinding it applies what was recorded. */
  lemma WrittenApplied(b: Buffer, s: State, f: Flat, n: nat, r: Buffer)
    requires DbOk(b.db) && Sound(b.db, s, f) && f.anchored && Wrote(b, s, n, r)
    ensures C.TablesOf(r) == C.Applied(C.TablesOf(b), ChangesOf(s))
    ensures ChangeSet(r, n) == C.Previous(C.TablesOf(b), ChangesOf(s))
    ensures C.TablesOf(r.Unwind(n)) == C.Applied(C.TablesOf(r), ChangeSet(r, n)) == C.TablesOf(b)
    ensures C.MemoryOf(r.Unwind(n)) == C.MemoryOf(r)
    ensures C.MemoryOf(r).incarnations == C.MemoryOf(b).incarnations + Removed(s.objects)
  {
    hide Sound, WrittenSlots;
    StorageWritten(b, s, n, r);
    RecordedStorage(b, s, f, n, r);
    var x, y := r.AccountChangesAt(n), C.Previous(C.TablesOf(b), ChangesOf(s)).accounts;
    forall a | a in s.objects
      ensures x[a] == y[a]
    {
      AnchoredObject(b.db, s, f, a);
    }
    assert x.Keys == y.Keys;
    assert x == y;
    C.PreviousUndoes(C.TablesOf(b), ChangesOf(s));
  }

  // --- the buffer that writing leaves ---

  function InitialWords(s: State): (r: map<Slot, Word>)
  {
    map slot | slot in WrittenSlots(s) :: if WrittenAt(s, slot).Some? then WrittenAt(s, slot).value.initial else 0
  }

  function CodeAfter(code: map<Word, Bytes>, s: State): (r: map<Word, Bytes>)
  {
    map h | h in code.Keys + NewHashes(s.objects) :: if h in NewHashes(s.objects) then Cached(s.code, h) else code[h]
  }

  /** What writing block `n`, which ends in `s`, leaves. */
  function Written(b: Buffer, s: State, n: nat): (r: Buffer)
  {
    Buffer(Db(Overlay(b.db.accounts, ChangesOf(s).accounts), CodeAfter(b.db.code, s), b.db.prevIncarnations + Removed(s.objects),
              Overlay(b.db.storage, ChangesOf(s).storage)),
           b.accountChanges[n := InitialAccounts(s.objects)], b.storageChanges[n := InitialWords(s)], n)
  }

  lemma WrittenWrote(b: Buffer, s: State, n: nat)
    ensures Wrote(b, s, n, Written(b, s, n))
  {
    hide WrittenSlots, NewHashes, Removed, Overlay, CurrentAccounts, InitialAccounts, InitialWords, WrittenAt, Get, NewValue, OldValue, CodeAfter, CodeWritten,
      Written, ChangesOf;
    var r := Written(b, s, n);
    forall slot
      ensures Get(r.db.storage, slot) == NewValue(b, WrittenAt(s, slot), slot)
      ensures Get(r.StorageChangesAt(n), slot) == OldValue(WrittenAt(s, slot))
    {
      WrittenAtSlot(b, s, slot);
      WrittenParts(b, s, n);
    }
    CodeIsWritten(b.db.code, s);
    WrittenParts(b, s, n);
  }

  lemma WrittenParts(b: Buffer, s: State, n: nat)
    ensures var r := Written(b, s, n);
      && r.db.accounts == Overlay(b.db.accounts, CurrentAccounts(s.objects)) && r.db.storage == Overlay(b.db.storage, ChangesOf(s).storage)
      && r.db.prevIncarnations == b.db.prevIncarnations + Removed(s.objects) && r.db.code == CodeAfter(b.db.code, s)
      && r.AccountChangesAt(n) == InitialAccounts(s.objects) && r.StorageChangesAt(n) == InitialWords(s)
      && (forall m | m != n :: r.AccountChangesAt(m) == b.AccountChangesAt(m))
      && (forall m | m != n :: r.StorageChangesAt(m) == b.StorageChangesAt(m))
  {
    hide Overlay, CurrentAccounts, InitialAccounts, InitialWords, CodeAfter, Removed, WrittenSlots, NewWord;
  }

  lemma WrittenAtSlot(b: Buffer, s: State, slot: Slot)
    ensures Get(Overlay(b.db.storage, ChangesOf(s).storage), slot) == NewValue(b, WrittenAt(s, slot), slot)
    ensures Get(InitialWords(s), slot) == OldValue(WrittenAt(s, slot))
  {
    hide WrittenSlots, Overlay;
    OverlayGet(b.db.storage, ChangesOf(s).storage, slot);
    WrittenSlot(s, slot);
  }

  lemma CodeIsWritten(code: map<Word, Bytes>, s: State)
    ensures CodeWritten(code, s.code, s.objects, CodeAfter(code, s))
  {
    hide NewHashes;
  }

  /** Tables, change set and memory after writing are determined. */
  lemma WroteWritten(b: Buffer, s: State, n: nat, r: Buffer)
    requires Wrote(b, s, n, r)
    ensures var w := Written(b, s, n);
      C.TablesOf(r) == C.TablesOf(w) && ChangeSet(r, n) == ChangeSet(w, n) && C.MemoryOf(r) == C.MemoryOf(w)
  {
    hide WrittenSlots, NewHashes, Removed;
    var w := Written(b, s, n);
    StorageWritten(b, s, n, r);
    forall slot ensures Get(r.StorageChangesAt(n), slot) == Get(w.StorageChangesAt(n), slot) {
      assert Get(r.StorageChangesAt(n), slot) == OldValue(WrittenAt(s, slot));
      WrittenSlot(s, slot);
    }
    SameByGet(r.StorageChangesAt(n), w.StorageChangesAt(n));
    assert r.db.code == w.db.code;
  }

  // --- executing and writing ---

  datatype BlockVerdict = Accepted | Invalid(v: P.Verdict) | WrongBlockGas | WrongReceiptsRoot | WrongLogsBloom

  /** What the header announces: the gas used, and which receipts have its root and its bloom filter. */
  datatype Announced = Announced(gasUsed: nat, receiptsRoot: seq<P.Receipt> -> bool, logsBloom: seq<P.Receipt> -> bool)

  function GasUsed(receipts: seq<P.Receipt>): (gas: nat)
  {
    if receipts == [] then 0 else receipts[|receipts| - 1].cumulativeGasUsed
  }

  /** The first check that fails decides; receipts have roots from Byzantium on. */
  function Judge(rev: Revision, header: Announced, receipts: seq<P.Receipt>, verdict: P.Verdict): (v: BlockVerdict)
    ensures v == Accepted <==>
      && verdict == P.Ok && GasUsed(receipts) == header.gasUsed
      && (rev >= BYZANTIUM ==> header.receiptsRoot(receipts)) && header.logsBloom(receipts)
    ensures forall w :: v == Invalid(w) <==> verdict == w != P.Ok
    ensures v == WrongBlockGas <==> verdict == P.Ok && GasUsed(receipts) != header.gasUsed
    ensures v == WrongReceiptsRoot <==>
      verdict == P.Ok && GasUsed(receipts) == header.gasUsed && rev >= BYZANTIUM && !header.receiptsRoot(receipts)
  {
    if verdict != P.Ok then Invalid(verdict)
    else if GasUsed(receipts) != header.gasUsed then WrongBlockGas
    else if rev >= BYZANTIUM && !header.receiptsRoot(receipts) then WrongReceiptsRoot
    else if !header.logsBloom(receipts) then WrongLogsBloom
    else Accepted
  }

  /** `execute_block`: an accepted block is written, any other leaves the database as it was. */
  method ExecuteAndWrite(buffer: MemoryBuffer, keccak: Bytes -> Word, rev: Revision, precompile: (Address, Bytes) -> Precompiled,
                         newAddress: (Message, nat) -> Address, block: P.Block, fork: Option<P.Fork>, header: Announced)
    returns (verdict: BlockVerdict)
    requires forall txn <- block.txns :: P.Checked(txn)
    modifies buffer
    ensures var o := P.ExecuteBlock(Env(old(buffer.Tables()), keccak, rev, precompile, newAddress), block, FRESH_STATE, fork);
      && verdict == Judge(rev, header, o.receipts, o.verdict)
      && if verdict == Accepted then Wrote(old(buffer.Model()), o.state, block.number, buffer.Model())
         else buffer.Model() == old(buffer.Model())
  {
    hide P.Checked, P.ExecuteBlock, Wrote;
    var state := new IntraBlockState(buffer, keccak);
    var evm := new EVM(state, rev, precompile, newAddress);
    var processor := new ExecutionProcessor(evm, block);
    var receipts, v := processor.ExecuteBlock(fork);
    if v != P.Ok {
      return Invalid(v);
    }
    var gasUsed := 0;
    if receipts != [] {
      gasUsed := receipts[|receipts| - 1].cumulativeGasUsed;
    }
    if gasUsed != header.gasUsed {
      return WrongBlockGas;
    }
    if rev >= BYZANTIUM {
      if !header.receiptsRoot(receipts) {
        return WrongReceiptsRoot;
      }
    }
    if !header.logsBloom(receipts) {
      return WrongLogsBloom;
    }
    state.WriteToDb(block.number);
    return Accepted;
  }

  /** For the chain, a block that writes storage of contracts only, and creates none where storage is hidden, is an
      execution step: an accepted one applies changes and records their previous values, and unwinding it
      gives the tables back. */
  lemma AcceptedBlockApplies(env: Env, block: P.Block, fork: Option<P.Fork>, b: Buffer, r: Buffer)
    requires (forall txn <- block.txns :: P.Checked(txn)) && DbOk(b.db) && env.db == b.db
    requires FlatExecuted(env, block, fork).Some? && FlatExecuted(env, block, fork).value.anchored
    requires P.ExecuteBlock(env, block, FRESH_STATE, fork).verdict == P.Ok
    requires Wrote(b, P.ExecuteBlock(env, block, FRESH_STATE, fork).state, block.number, r)
    ensures var c := ChangesOf(P.ExecuteBlock(env, block, FRESH_STATE, fork).state);
      && C.TablesOf(r) == C.Applied(C.TablesOf(b), c)
      && ChangeSet(r, block.number) == C.Previous(C.TablesOf(b), c)
      && C.TablesOf(r.Unwind(block.number)) == C.TablesOf(b)
    ensures Holds(r.db, FlatExecuted(env, block, fork).value) && DbOk(r.db)
  {
    hide P.Checked, P.ExecuteBlock, Wrote, FlatExecuted, Sound, ChangesOf, DbOk, Holds;
    ExecutedBlockRefines(env, block, fork);
    var s, f := P.ExecuteBlock(env, block, FRESH_STATE, fork).state, FlatExecuted(env, block, fork).value;
    WrittenApplied(b, s, f, block.number, r);
    WrittenHolds(b, s, f, block.number, r);
  }
}
