/** `EvmHost`, `EVM` and `ExecutionProcessor` as objects over an `IntraBlockState`:
    core/silkworm/execution/evm.cpp and core/silkworm/execution/processor.cpp. */
module Execution {
  import opened Basics
  import opened World
  import opened Journal
  import opened IntraBlock
  import opened Ether
  import opened Refunds
  import opened Evm
  import opened EvmSupply
  import opened Processor

  class EVM {
    const state: IntraBlockState
    const rev: Revision
    const precompile: (Address, Bytes) -> Precompiled
    const newAddress: (Message, nat) -> Address

    constructor (state: IntraBlockState, rev: Revision, precompile: (Address, Bytes) -> Precompiled,
                 newAddress: (Message, nat) -> Address)
      ensures this.state == state && this.rev == rev && this.precompile == precompile && this.newAddress == newAddress
    {
      this.state, this.rev, this.precompile, this.newAddress := state, rev, precompile, newAddress;
    }

    /** What execution depends on besides the state. */
    function Environment(): (env: Env)
      reads state.db
    {
      Env(state.db.Tables(), state.keccak, rev, precompile, newAddress)
    }

    // --- the host ---

    method SetStorage(a: Address, k: Word, v: Word) returns (status: StorageStatus)
      modifies state
      ensures state.Model() == Perform(Environment(), old(state.Model()), Action.Store(a, k, v)).state
      ensures var db := state.db.Tables();
        status == WriteStatus(rev, OriginalStorage(db, old(state.Model()), a, k), CurrentStorage(db, old(state.Model()), a, k), v)
    {
      hide Apply, ApplyAll, OriginalStorage, CurrentStorage;
      ghost var env, s := Environment(), state.Model();
      ghost var ops := [ReadStorage(a, k, false)];
      var current := state.GetStorage(a, k, false);
      ReadStorageIs(env, s, a, k, false);
      ApplyOne(env, s, ops[0]);
      if current == v {
        assert ops == WriteOps(env.db, rev, s, a, k, v);
        return Unchanged;
      }
      state.SetStorage(a, k, v);
      ops := Extend(env, s, ops, WriteStorage(a, k, v));
      OriginalKept(env, s, a, k, v);
      if !NetMetered(rev) {
        if current == 0 {
          assert ops == WriteOps(env.db, rev, s, a, k, v);
          return Added;
        }
        if v == 0 {
          state.AddRefund(CLEAR_REFUND);
          ops := Extend(env, s, ops, AddRefund(CLEAR_REFUND));
          assert ops == WriteOps(env.db, rev, s, a, k, v);
          return Deleted;
        }
        assert ops == WriteOps(env.db, rev, s, a, k, v);
        return Modified;
      }

      ghost var written := state.Model();
      var original := state.GetStorage(a, k, true);
      ReadStorageIs(env, written, a, k, true);
      ops := Extend(env, s, ops, ReadStorage(a, k, true));
      status := ChangeRefund(original, current, v);
      ApplyAllAppend(env.db, env.keccak, s, ops, RefundOps(rev, original, current, v));
      assert WriteOps(env.db, rev, s, a, k, v) == ops + RefundOps(rev, original, current, v);
    }

    /** Net metering of a slot that goes from `current` to a different `v`. */
    method ChangeRefund(original: Word, current: Word, v: Word) returns (status: StorageStatus)
      requires NetMetered(rev) && current != v
      modifies state
      ensures var env := Environment();
        state.Model() == ApplyAll(env.db, env.keccak, old(state.Model()), RefundOps(rev, original, current, v))
      ensures status == WriteStatus(rev, original, current, v)
    {
      hide Apply, ApplyAll;
      ghost var env, s := Environment(), state.Model();
      ghost var ops: seq<Op> := [];
      ApplyNone(env, s);
      var clearRefund := ClearRefund(rev);
      if original == current {
        if original == 0 {
          assert ops == RefundOps(rev, original, current, v);
          return Added;
        }
        if v == 0 {
          state.AddRefund(clearRefund);
          ops := Extend(env, s, ops, AddRefund(clearRefund));
        }
        assert ops == RefundOps(rev, original, current, v);
        return Modified;
      }
      if original != 0 {
        if current == 0 {
          state.SubtractRefund(clearRefund);
          ops := Extend(env, s, ops, SubtractRefund(clearRefund));
        }
        if v == 0 {
          state.AddRefund(clearRefund);
          ops := Extend(env, s, ops, AddRefund(clearRefund));
        }
      }
      if original == v {
        var gain := if original == 0 then SET_GAS - LoadCost(rev) else ResetGas(rev) - LoadCost(rev);
        state.AddRefund(gain);
        ops := Extend(env, s, ops, AddRefund(gain));
      }
      assert ops == RefundOps(rev, original, current, v);
      return ModifiedAgain;
    }

    method SelfDestruct(a: Address, beneficiary: Address)
      modifies state
      ensures state.Model() == RunSelfDestruct(Environment(), old(state.Model()), a, beneficiary)
    {
      hide Apply, BalanceIn;
      ghost var env, s := Environment(), state.Model();
      state.RecordSuicide(a);
      SubstateIs(env, s, a);
      ghost var s0 := state.Model();
      QuietOp(env, s, Op.SelfDestruct(a));
      QuietBalance(env.db, s, s0, a);
      var balance := state.GetBalance(a);
      ReadAccountIs(env, s0, a);
      state.AddToBalance(beneficiary, balance);
      state.SetBalance(a, 0);
    }

    /** What the interpreter asks of the host. */
    method Do(action: Action)
      modifies state
      ensures state.Model() == Perform(Environment(), old(state.Model()), action).state
      decreases action, 1
    {
      hide Apply, RunCall, RunCreate, RunSelfDestruct;
      match action
      case Observe(op) => Look(op);
      case Store(a, k, v) => var _ := SetStorage(a, k, v);
      case Destroy(a, beneficiary) => SelfDestruct(a, beneficiary);
      case Invoke(m, p) => var _ := Dispatch(m, p);
    }

    method Look(op: Op)
      modifies state
      ensures state.Model() == if Observes(op) then Environment().Apply(old(state.Model()), op) else old(state.Model())
    {
      hide Fetch, FetchCode, FetchStorage, AccessAccount, AccessStorage, ObjectOf, CodeOf, CurrentStorage, OriginalStorage;
      match op
      case ReadAccount(a) => var _ := state.GetObject(a);
      case ReadCode(a) => var _ := state.GetCode(a);
      case ReadStorage(a, k, original) => var _ := state.GetStorage(a, k, original);
      case WarmAccount(a) => var _ := state.AccessAccount(a);
      case WarmStorage(a, k) => var _ := state.AccessStorage(a, k);
      case AddLog(log) => state.AddLog(log);
      case _ =>
    }

    method Dispatch(m: Message, p: Program) returns (res: Result)
      modifies state
      ensures var o := Evm.Dispatch(Environment(), old(state.Model()), m, p); state.Model() == o.state && res == o.result
      decreases p, 2
    {
      hide RunCall, RunCreate;
      if m.kind == CREATE || m.kind == CREATE2 {
        res := this.Create(m, p);
        if res.status != REVERT {
          res := res.(output := []);
        }
      } else {
        res := Call(m, p);
      }
    }

    method Execute(p: Program) returns (res: Result)
      modifies state
      ensures var o := Evm.Execute(Environment(), old(state.Model()), p); state.Model() == o.state && res == o.result
      decreases p, 0
    {
      hide Perform;
      ghost var env, s := Environment(), state.Model();
      for i := 0 to |p.actions|
        invariant PerformAll(env, s, p.actions).state == PerformAll(env, state.Model(), p.actions[i..]).state
      {
        assert p.actions[i..][1..] == p.actions[i + 1..];
        Do(p.actions[i]);
      }
      res := p.result;
    }

    /** Gives up the effects of a frame unless it succeeded. */
    method CloseFrame(res: Result, snapshot: Snapshot, ghost saved: State) returns (r: Result)
      requires snapshot == TakeSnapshot(saved)
      requires snapshot.journalSize <= |state.journal| && snapshot.logSize <= |state.logs|
      modifies state
      ensures forall burned :: var o := Close(saved, Outcome(old(state.Model()), res, burned));
        state.Model() == o.state && r == o.result
    {
      r := res;
      if r.status != SUCCESS {
        state.RevertToSnapshot(snapshot);
        if r.status != REVERT {
          r := r.(gasLeft := 0);
        }
      }
    }

    method Pay(m: Message)
      modifies state
      ensures state.Model() == Paid(Environment(), old(state.Model()), m)
    {
      ghost var env, s := Environment(), state.Model();
      PaidIs(env, s, m);
      hide Apply, Paid, Journal.Touch;
      if m.kind == CALL {
        if m.readOnly {
          state.Touch(m.destination);
        } else {
          state.SubtractFromBalance(m.sender, m.value);
          state.AddToBalance(m.destination, m.value);
        }
      }
    }

    /** The callee is called unless it is a missing account that gets nothing. */
    method Reachable(m: Message) returns (reachable: bool)
      modifies state
      ensures var env, s := Environment(), old(state.Model());
        var mayBeAbsent := m.value == 0 && rev >= SPURIOUS_DRAGON;
        && state.Model() == (if mayBeAbsent then env.Apply(s, ReadAccount(m.destination)) else s)
        && (reachable <==> !(mayBeAbsent && !Live(env.db, s, m.destination) && !IsPrecompiled(rev, m.destination)))
    {
      reachable := true;
      if m.value == 0 && rev >= SPURIOUS_DRAGON {
        var found := state.Exists(m.destination);
        reachable := found || IsPrecompiled(rev, m.destination);
      }
    }

    method Call(m: Message, p: Program) returns (res: Result)
      modifies state
      ensures var o := RunCall(Environment(), old(state.Model()), m, p); state.Model() == o.state && res == o.result
      decreases p, 1
    {
      hide Apply, Fetch, BalanceIn, Live, CodeOf, Close, Evm.Execute, Paid, Descends, Conserves, Supply;
      ghost var env, s := Environment(), state.Model();
      res := Result(SUCCESS, m.gas, []);
      if m.kind != DELEGATECALL {
        var balance := state.GetBalance(m.sender);
        ReadAccountIs(env, s, m.sender);
        LookKeepsBalance(env, s, m.sender, m.sender);
        if balance < m.value {
          return res.(status := INSUFFICIENT_BALANCE);
        }
      }
      ghost var s1 := state.Model();
      LookKeepsBalance(env, s1, m.destination, m.sender);
      var reachable := Reachable(m);
      if !reachable {
        return;
      }
      ghost var s2 := state.Model();
      var snapshot := state.TakeSnapshot();
      Pay(m);
      ghost var s3 := state.Model();
      PaidGrows(env, s2, m);
      if IsPrecompiled(rev, m.destination) {
        res := RunPrecompiled(Environment(), m);
      } else {
        var code := state.GetCode(m.destination);
        ReadCodeIs(env, s3, m.destination);
        if code == [] {
          return;
        }
        res := Execute(p);
        CodeGrows(env, s2, s3, m.destination, p);
      }
      res := CloseFrame(res, snapshot, s2);
    }

    /** The address of the new contract, unless it is taken. */
    method Announce(m: Message) returns (a: Address, free: bool)
      modifies state
      ensures var env, s := Environment(), old(state.Model());
        var nonce := NonceOf(env.db, s, m.sender);
        var t := Announced(env, s, m.sender, nonce, a);
        && a == newAddress(m, nonce)
        && state.Model() == t
        && (free <==> NonceOf(env.db, t, a) == 0 && CodeHashOf(env.db, t, a) == EMPTY_HASH)
      requires m.sender in state.objects || m.sender !in state.db.accounts
    {
      hide Apply, Put;
      ghost var env, s := Environment(), state.Model();
      var nonce := state.GetNonce(m.sender);
      state.SetNonce(m.sender, (nonce + 1) % TWO_64);
      a := newAddress(m, nonce);
      ghost var numbered := state.Model();
      var _ := state.AccessAccount(a);
      WarmIs(env, numbered, a);
      ghost var warmed := state.Model();
      var itsNonce := state.GetNonce(a);
      var itsCodeHash := state.GetCodeHash(a);
      FetchAgain(env, warmed, a);
      ReadAccountIs(env, warmed, a);
      free := itsNonce == 0 && itsCodeHash == EMPTY_HASH;
    }

    method Found(m: Message, a: Address)
      modifies state
      ensures state.Model() == Founded(Environment(), old(state.Model()), m, a)
    {
      hide Apply;
      ghost var env, s := Environment(), state.Model();
      state.CreateContract(a);
      MakeIs(env, s, a);
      if rev >= SPURIOUS_DRAGON {
        state.SetNonce(a, 1);
      }
      state.SubtractFromBalance(m.sender, m.value);
      state.AddToBalance(a, m.value);
    }

    method PayForCode(a: Address, res: Result, ghost burned: nat) returns (r: Result)
      modifies state
      ensures var o := Deploy(Environment(), a, Outcome(old(state.Model()), res, burned));
        state.Model() == o.state && r == o.result
    {
      hide Apply;
      r := res;
      if r.status == SUCCESS {
        var cost := |r.output| * CODE_DEPOSIT;
        if rev >= SPURIOUS_DRAGON && |r.output| > MAX_CODE_SIZE {
          r := r.(status := OUT_OF_GAS);
        } else if r.gasLeft >= cost {
          r := r.(gasLeft := r.gasLeft - cost);
          state.SetCode(a, r.output);
        } else if rev >= HOMESTEAD {
          r := r.(status := OUT_OF_GAS);
        }
      }
    }

    method Create(m: Message, p: Program) returns (res: Result)
      modifies state
      ensures var o := RunCreate(Environment(), old(state.Model()), m, p); state.Model() == o.state && res == o.result
      decreases p, 1
    {
      hide Apply, Fetch, BalanceIn, Close, Evm.Execute, Founded, Announced, Descends, NonceOf, CodeHashOf, Deploy;
      ghost var env, s := Environment(), state.Model();
      var balance := state.GetBalance(m.sender);
      ReadAccountIs(env, s, m.sender);
      if balance < m.value {
        return Result(INSUFFICIENT_BALANCE, m.gas, []);
      }
      FetchedSender(env, s, m.sender);
      var a, free := Announce(m);
      ghost var s2 := state.Model();
      if !free {
        return Result(INVALID_INSTRUCTION, 0, []);
      }
      var snapshot := state.TakeSnapshot();
      Found(m, a);
      ghost var s3 := state.Model();
      res := Execute(p);
      res := PayForCode(a, res, Evm.Execute(env, s3, p).burned);
      SenderKept(env, s, m, a);
      FoundedGrows(env, s2, m, a, p);
      res := CloseFrame(res, snapshot, s2);
    }
  }

  class ExecutionProcessor {
    const evm: EVM
    const block: Block
    var cumulativeGasUsed: nat

    constructor (evm: EVM, block: Block)
      ensures this.evm == evm && this.block == block && cumulativeGasUsed == 0
    {
      this.evm, this.block, cumulativeGasUsed := evm, block, 0;
    }

    method ValidateTransaction(txn: Txn) returns (v: Verdict)
      modifies evm.state
      ensures v == Validate(evm.Environment(), block, cumulativeGasUsed, old(evm.state.Model()), txn)
      ensures evm.state.Model() == Looked(evm.Environment(), old(evm.state.Model()), txn)
    {
      hide Fetch;
      if txn.from.None? {
        return MissingSender;
      }
      ghost var env, s := evm.Environment(), evm.state.Model();
      ReadAccountIs(env, s, txn.from.value);
      FetchAgain(env, s, txn.from.value);
      var nonce := evm.state.GetNonce(txn.from.value);
      if nonce != txn.nonce {
        return WrongNonce;
      }
      var balance := evm.state.GetBalance(txn.from.value);
      if balance < txn.gasLimit * txn.gasPrice + txn.value {
        return InsufficientFunds;
      }
      if AvailableGas(block, cumulativeGasUsed) < txn.gasLimit {
        return BlockGasLimitExceeded;
      }
      return Ok;
    }

    method WarmAllKeys(a: Address, keys: seq<Word>)
      modifies evm.state
      ensures evm.state.Model() ==
        ApplyAll(evm.Environment().db, evm.Environment().keccak, old(evm.state.Model()), WarmKeys(a, keys))
    {
      hide Apply, ApplyAll, WarmKeys;
      ghost var env, s := evm.Environment(), evm.state.Model();
      ghost var ops: seq<Op> := [];
      ApplyNone(env, s);
      for j := 0 to |keys|
        invariant evm.state.Model() == ApplyAll(env.db, env.keccak, s, ops)
        invariant ops + WarmKeys(a, keys[j..]) == WarmKeys(a, keys)
      {
        KeysNext(a, keys, j, ops);
        WarmStorageIs(env, evm.state.Model(), a, keys[j]);
        var _ := evm.state.AccessStorage(a, keys[j]);
        ops := Extend(env, s, ops, WarmStorage(a, keys[j]));
      }
      KeysDone(a, keys, ops);
    }

    method Warm(accessList: seq<(Address, seq<Word>)>)
      modifies evm.state
      ensures evm.state.Model() ==
        ApplyAll(evm.Environment().db, evm.Environment().keccak, old(evm.state.Model()), WarmOps(accessList))
    {
      hide Apply, ApplyAll, WarmOps, WarmKeys;
      ghost var env, s := evm.Environment(), evm.state.Model();
      ghost var ops: seq<Op> := [];
      ApplyNone(env, s);
      for i := 0 to |accessList|
        invariant evm.state.Model() == ApplyAll(env.db, env.keccak, s, ops)
        invariant ops + WarmOps(accessList[i..]) == WarmOps(accessList)
      {
        var (a, keys) := accessList[i];
        ghost var done := ops;
        WarmNext(accessList, i);
        WarmIs(env, evm.state.Model(), a);
        var _ := evm.state.AccessAccount(a);
        ops := Extend(env, s, ops, WarmAccount(a));
        WarmAllKeys(a, keys);
        ApplyAllAppend(env.db, env.keccak, s, ops, WarmKeys(a, keys));
        ops := ops + WarmKeys(a, keys);
        Chain(done, [WarmAccount(a)], WarmKeys(a, keys), WarmOps(accessList[i + 1..]));
      }
      WarmNothing();
      assert accessList[|accessList|..] == [];
      assert ops == WarmOps(accessList);
    }

    method PrepareTransaction(txn: Txn)
      requires txn.from.Some?
      modifies evm.state
      ensures evm.state.Model() == Prepare(evm.Environment(), old(evm.state.Model()), txn)
    {
      hide Apply, ApplyAll;
      ghost var env := evm.Environment();
      var from := txn.from.value;
      evm.state.ClearJournalAndSubstate();
      WarmIs(env, evm.state.Model(), from);
      var _ := evm.state.AccessAccount(from);
      evm.state.SubtractFromBalance(from, Product(txn.gasLimit, txn.gasPrice));
      if txn.to.Some? {
        WarmIs(env, evm.state.Model(), txn.to.value);
        var _ := evm.state.AccessAccount(txn.to.value);
        evm.state.SetNonce(from, (txn.nonce + 1) % TWO_64);
      }
      Warm(txn.accessList);
    }

    /** `refund_gas`: returns the gas that the sender is paid back. */
    method RefundGas(txn: Txn, gasLeft: nat) returns (back: nat)
      requires txn.from.Some? && gasLeft <= txn.gasLimit
      modifies evm.state
      ensures back == GasBack(evm.Environment(), old(evm.state.Model()), txn.gasLimit, gasLeft)
      ensures var counter := if evm.rev >= LONDON then old(evm.state.refund)
          else (old(evm.state.refund) + 24_000 * |old(evm.state.selfDestructs)|) % TWO_64;
        var cap := if evm.rev >= LONDON then (txn.gasLimit - gasLeft) / 5 else (txn.gasLimit - gasLeft) / 2;
        back == gasLeft + if counter < cap then counter else cap
      ensures evm.state.Model() ==
        evm.Environment().Apply(old(evm.state.Model()), AddToBalance(txn.from.value, Product(back, txn.gasPrice)))
    {
      hide Apply;
      var refund := evm.state.refund;
      if evm.rev < LONDON {
        refund := (refund + SELF_DESTRUCT_REFUND * |evm.state.selfDestructs|) % TWO_64;
      }
      var maxRefund := (txn.gasLimit - gasLeft) / if evm.rev >= LONDON then 5 else 2;
      back := gasLeft + if refund < maxRefund then refund else maxRefund;
      evm.state.AddToBalance(txn.from.value, Product(back, txn.gasPrice));
    }

    method ExecuteTransaction(txn: Txn) returns (receipt: Receipt)
      requires txn.from.Some? && Checked(txn)
      modifies this`cumulativeGasUsed, evm.state
      ensures var o := Processor.ExecuteTransaction(evm.Environment(), block.beneficiary, old(evm.state.Model()), txn);
        && evm.state.Model() == o.state
        && cumulativeGasUsed == old(cumulativeGasUsed) + o.gasUsed
        && receipt == Receipt(txn.envelope, o.success, cumulativeGasUsed, o.state.logs)
    {
      hide Apply, Prepare, RunCall, RunCreate, GasBack, DestructAll, ClearDead, Finalize, Held;
      ghost var env := evm.Environment();
      PrepareTransaction(txn);
      ghost var s := evm.state.Model();
      MessageGas(env, s, txn);
      var res;
      if txn.to.None? {
        res := evm.Create(MessageOf(txn), txn.program);
      } else {
        res := evm.Call(MessageOf(txn), txn.program);
      }
      var back := RefundGas(txn, res.gasLeft);
      var gasUsed := txn.gasLimit - back;
      evm.state.AddToBalance(block.beneficiary, Product(gasUsed, txn.gasPrice));
      evm.state.DestructSuicides();
      if evm.rev >= SPURIOUS_DRAGON {
        evm.state.DestructTouchedDead();
      }
      evm.state.FinalizeTransaction();
      cumulativeGasUsed := cumulativeGasUsed + gasUsed;
      receipt := Receipt(txn.envelope, res.status == SUCCESS, cumulativeGasUsed, evm.state.logs);
    }

    method PayRewards()
      modifies evm.state
      ensures evm.state.Model() == ApplyRewards(evm.Environment(), block, old(evm.state.Model()))
    {
      hide Apply, OmmerReward, BlockReward;
      ghost var env, s := evm.Environment(), evm.state.Model();
      var reward := BlockReward(evm.rev);
      var minerReward := reward;
      for i := 0 to |block.ommers|
        invariant RewardOmmers(env, block, evm.state.Model(), block.ommers[i..]) == RewardOmmers(env, block, s, block.ommers)
        invariant minerReward == reward + i * (reward / 32)
      {
        assert block.ommers[i..][1..] == block.ommers[i + 1..];
        evm.state.AddToBalance(block.ommers[i].beneficiary, OmmerReward(reward, block.number, block.ommers[i]));
        minerReward := minerReward + reward / 32;
      }
      evm.state.AddToBalance(block.beneficiary, minerReward % TWO_256);
    }

    /** `dao::transfer_balances`. */
    method TransferBalances(children: seq<Address>, refund: Address)
      modifies evm.state
      ensures evm.state.Model() == DrainAll(evm.Environment(), old(evm.state.Model()), children, refund)
    {
      hide Apply, BalanceIn;
      ghost var env, s := evm.Environment(), evm.state.Model();
      for i := 0 to |children|
        invariant DrainAll(env, evm.state.Model(), children[i..], refund) == DrainAll(env, s, children, refund)
      {
        assert children[i..][1..] == children[i + 1..];
        ReadAccountIs(env, evm.state.Model(), children[i]);
        var balance := evm.state.GetBalance(children[i]);
        evm.state.AddToBalance(refund, balance);
        evm.state.SetBalance(children[i], 0);
      }
    }

    /** Executes the transactions in order up to the first invalid one, then pays the rewards. */
    method ExecuteBlock(fork: Option<Fork>) returns (receipts: seq<Receipt>, verdict: Verdict)
      requires forall txn <- block.txns :: Checked(txn)
      modifies this`cumulativeGasUsed, evm.state
      ensures var o := Processor.ExecuteBlock(evm.Environment(), block, old(evm.state.Model()), fork);
        evm.state.Model() == o.state && receipts == o.receipts && verdict == o.verdict
    {
      hide Checked, Processor.ExecuteTransaction, Validate, Looked, DrainAll, ApplyRewards, ExecuteTxns;
      ghost var env := evm.Environment();
      if fork.Some? {
        TransferBalances(fork.value.children, fork.value.refund);
      }
      cumulativeGasUsed := 0;
      receipts, verdict := ExecuteTransactions();
      if verdict == Ok {
        PayRewards();
      }
    }

    method ExecuteTransactions() returns (receipts: seq<Receipt>, verdict: Verdict)
      requires forall txn <- block.txns :: Checked(txn)
      modifies this`cumulativeGasUsed, evm.state
      ensures var o := ExecuteTxns(evm.Environment(), block, old(evm.state.Model()), old(cumulativeGasUsed), block.txns);
        evm.state.Model() == o.state && receipts == o.receipts && verdict == o.verdict
    {
      hide Checked, Processor.ExecuteTransaction, Validate, Looked, ExecuteTxns;
      ghost var env := evm.Environment();
      receipts := [];
      ghost var all := ExecuteTxns(env, block, evm.state.Model(), cumulativeGasUsed, block.txns);
      assert block.txns[0..] == block.txns;
      for i := 0 to |block.txns|
        invariant Continues(all, receipts, ExecuteTxns(env, block, evm.state.Model(), cumulativeGasUsed, block.txns[i..]))
      {
        var txn := block.txns[i];
        TxnsNext(env, block, evm.state.Model(), cumulativeGasUsed, i);
        verdict := ValidateTransaction(txn);
        if verdict != Ok {
          return;
        }
        var receipt := ExecuteTransaction(txn);
        receipts := receipts + [receipt];
      }
      TxnsDone(env, block, evm.state.Model(), cumulativeGasUsed);
      verdict := Ok;
    }
  }

  /** The rest of a list of transactions completes what has been done so far. */
  predicate Continues(all: BlockOutcome, receipts: seq<Receipt>, rest: BlockOutcome)
  {
    all.state == rest.state && all.verdict == rest.verdict && all.receipts == receipts + rest.receipts
  }

  lemma TxnsNext(env: Env, block: Block, s: State, used: nat, i: nat)
    requires (forall txn <- block.txns :: Checked(txn)) && i < |block.txns|
    ensures var txn := block.txns[i];
      var o := ExecuteTxns(env, block, s, used, block.txns[i..]);
      var verdict := Validate(env, block, used, s, txn);
      if verdict != Ok then o.state == Looked(env, s, txn) && o.receipts == [] && o.verdict == verdict
      else
        txn.from.Some? &&
        var t := Processor.ExecuteTransaction(env, block.beneficiary, Looked(env, s, txn), txn);
        var rest := ExecuteTxns(env, block, t.state, used + t.gasUsed, block.txns[i + 1..]);
        && o.state == rest.state && o.verdict == rest.verdict
        && o.receipts == [Receipt(txn.envelope, t.success, used + t.gasUsed, t.state.logs)] + rest.receipts
  {
    hide Checked, Processor.ExecuteTransaction, Looked;
    var txns := block.txns[i..];
    assert txns[0] == block.txns[i] && txns[1..] == block.txns[i + 1..];
  }

  lemma TxnsDone(env: Env, block: Block, s: State, used: nat)
    ensures ExecuteTxns(env, block, s, used, block.txns[|block.txns|..]) == BlockOutcome(s, [], Ok, 0)
  {
  }

  lemma KeysNext(a: Address, keys: seq<Word>, j: nat, ops: seq<Op>)
    requires j < |keys|
    ensures ops + WarmKeys(a, keys[j..]) == ops + [WarmStorage(a, keys[j])] + WarmKeys(a, keys[j + 1..])
  {
    assert keys[j..][1..] == keys[j + 1..];
  }

  lemma KeysDone(a: Address, keys: seq<Word>, ops: seq<Op>)
    requires ops + WarmKeys(a, keys[|keys|..]) == WarmKeys(a, keys)
    ensures ops == WarmKeys(a, keys)
  {
  }

  lemma WarmNext(accessList: seq<(Address, seq<Word>)>, i: nat)
    requires i < |accessList|
    ensures WarmOps(accessList[i..]) ==
      [WarmAccount(accessList[i].0)] + WarmKeys(accessList[i].0, accessList[i].1) + WarmOps(accessList[i + 1..])
  {
    hide WarmKeys;
    assert accessList[i..][1..] == accessList[i + 1..];
  }

  lemma WarmNothing()
    ensures WarmOps([]) == []
  {
  }

  lemma Chain(x: seq<Op>, y: seq<Op>, z: seq<Op>, w: seq<Op>)
    ensures x + (y + z + w) == x + y + z + w
  {
  }

  lemma ApplyOne(env: Env, s: State, op: Op)
    ensures ApplyAll(env.db, env.keccak, s, [op]) == env.Apply(s, op)
  {
    hide Apply;
    assert ApplyAll(env.db, env.keccak, env.Apply(s, op), []) == env.Apply(s, op);
  }

  lemma ApplyNone(env: Env, s: State)
    ensures ApplyAll(env.db, env.keccak, s, []) == s
  {
  }

  /** One more operation after `ops`. */
  ghost function Extend(env: Env, s: State, ops: seq<Op>, op: Op): (r: seq<Op>)
    ensures ApplyAll(env.db, env.keccak, s, r) == env.Apply(ApplyAll(env.db, env.keccak, s, ops), op)
    ensures r == ops + [op]
  {
    ApplyAllAppend(env.db, env.keccak, s, ops, [op]);
    ApplyOne(env, ApplyAll(env.db, env.keccak, s, ops), op);
    ops + [op]
  }

  /** A write does not change the original value. */
  lemma OriginalKept(env: Env, s: State, a: Address, k: Word, v: Word)
    ensures var t := env.Apply(env.Apply(s, ReadStorage(a, k, false)), WriteStorage(a, k, v));
      OriginalStorage(env.db, t, a, k) == OriginalStorage(env.db, s, a, k)
  {
    hide FetchStorage, OriginalStorage, SetStorage;
    var t := FetchStorage(env.db, s, a, k, false);
    FetchKeepsOriginal(env.db, s, a, k);
    FetchKeepsOriginal(env.db, t, a, k);
    WriteKeepsOriginal(env.db, t, a, k, v);
  }

  lemma FetchKeepsOriginal(db: Db, s: State, a: Address, k: Word)
    ensures OriginalStorage(db, FetchStorage(db, s, a, k, false), a, k) == OriginalStorage(db, s, a, k)
  {
    hide FetchStorage, OriginalStorage, Restores;
    FetchStorageRestores(db, s, a, k, false);
    FetchStorageSame(db, s, a, k);
    RestoredObservations(db, s, FetchStorage(db, s, a, k, false));
  }

  lemma FetchStorageSame(db: Db, s: State, a: Address, k: Word)
    ensures FetchStorage(db, s, a, k, false).logs == s.logs && FetchStorage(db, s, a, k, false).refund == s.refund
  {
  }

  lemma WriteKeepsOriginal(db: Db, s: State, a: Address, k: Word, v: Word)
    ensures OriginalStorage(db, SetStorage(db, s, a, k, v), a, k) ==
            OriginalStorage(db, FetchStorage(db, s, a, k, false), a, k)
  {
    hide FetchStorage, CurrentStorage;
  }

  lemma ReadStorageIs(env: Env, s: State, a: Address, k: Word, original: bool)
    ensures env.Apply(s, ReadStorage(a, k, original)) == FetchStorage(env.db, s, a, k, original)
  {
  }

  lemma LookKeepsBalance(env: Env, s: State, a: Address, b: Address)
    ensures BalanceOf(env.db, env.Apply(s, ReadAccount(a)), b) == BalanceOf(env.db, s, b)
  {
    hide Apply;
    QuietOp(env, s, ReadAccount(a));
  }

  lemma FetchAgain(env: Env, s: State, a: Address)
    ensures Fetch(env.db, Fetch(env.db, s, a), a) == Fetch(env.db, s, a)
    ensures AccountOf(env.db, Fetch(env.db, s, a), a) == AccountOf(env.db, s, a)
  {
  }

  lemma FetchedSender(env: Env, s: State, a: Address)
    ensures a in Fetch(env.db, s, a).objects || a !in env.db.accounts
  {
  }

  lemma WarmIs(env: Env, s: State, a: Address)
    ensures env.Apply(s, WarmAccount(a)) == AccessAccount(s, a)
  {
  }

  lemma WarmStorageIs(env: Env, s: State, a: Address, k: Word)
    ensures env.Apply(s, WarmStorage(a, k)) == AccessStorage(s, a, k)
  {
  }

  lemma MakeIs(env: Env, s: State, a: Address)
    ensures env.Apply(s, MakeContract(a)) == CreateContract(env.db, s, a)
  {
  }

  lemma SenderKept(env: Env, s: State, m: Message, a: Address)
    ensures var s1 := env.Apply(s, ReadAccount(m.sender));
      BalanceOf(env.db, Announced(env, s1, m.sender, NonceOf(env.db, s1, m.sender), a), m.sender) == BalanceOf(env.db, s, m.sender)
  {
    hide Apply, Quiet, BalanceIn;
    var s1 := env.Apply(s, ReadAccount(m.sender));
    var nonce := NonceOf(env.db, s1, m.sender);
    LookKeepsBalance(env, s, m.sender, m.sender);
    QuietThree(env, s1, SetNonce(m.sender, (nonce + 1) % TWO_64), WarmAccount(a), ReadAccount(a));
    QuietBalance(env.db, s1, Announced(env, s1, m.sender, nonce, a), m.sender);
  }

  lemma FoundedGrows(env: Env, s: State, m: Message, a: Address, p: Program)
    requires m.value <= BalanceOf(env.db, s, m.sender)
    ensures Grown(s, Deploy(env, a, Evm.Execute(env, Founded(env, s, m, a), p)).state)
  {
    hide Apply, Evm.Execute, Founded, Supply, Undoable, Deploy;
    var t := Founded(env, s, m, a);
    CreateMoves(env, s, m, a);
    ExecuteConserves(env, t, p);
    ConservesThen(env.db, s, t, Evm.Execute(env, t, p).state, 0, Evm.Execute(env, t, p).burned);
    DeployConserves(env, s, a, Evm.Execute(env, t, p));
    DescendsGrows(env.db, s, Deploy(env, a, Evm.Execute(env, t, p)).state);
  }

  lemma ReadAccountIs(env: Env, s: State, a: Address)
    ensures env.Apply(s, ReadAccount(a)) == Fetch(env.db, s, a)
    ensures BalanceOf(env.db, s, a) == match AccountOf(env.db, s, a) case Some(c) => c.balance case None => 0
  {
  }

  lemma ReadCodeIs(env: Env, s: State, a: Address)
    ensures env.Apply(s, ReadCode(a)) == FetchCode(env.db, s, a)
  {
  }

  lemma SubstateIs(env: Env, s: State, a: Address)
    ensures env.Apply(s, Op.SelfDestruct(a)) == RecordSuicide(s, a)
  {
  }

  lemma PaidIs(env: Env, s: State, m: Message)
    ensures Paid(env, s, m) ==
      if m.kind != CALL then s
      else if m.readOnly then Touch(s, m.destination)
      else env.Apply(env.Apply(s, SubtractFromBalance(m.sender, m.value)), AddToBalance(m.destination, m.value))
  {
    hide Put, Touch, ChangeBalance;
  }

  /** The snapshot is still in the journal and the logs. */
  predicate Grown(s: State, t: State)
  {
    |s.journal| <= |t.journal| && |s.logs| <= |t.logs|
  }

  lemma DescendsGrows(db: Db, s: State, t: State)
    requires Descends(db, s, t)
    ensures Grown(s, t)
  {
  }

  lemma PaidGrows(env: Env, s: State, m: Message)
    requires m.kind == CALL ==> m.value <= BalanceOf(env.db, s, m.sender)
    ensures Conserves(env.db, s, Paid(env, s, m), 0)
    ensures Grown(s, Paid(env, s, m))
  {
    hide Paid, Undoable, Supply;
    CallMoves(env, s, m);
    DescendsGrows(env.db, s, Paid(env, s, m));
  }

  lemma CodeGrows(env: Env, s: State, t: State, a: Address, p: Program)
    requires Conserves(env.db, s, t, 0)
    ensures Grown(s, Evm.Execute(env, env.Apply(t, ReadCode(a)), p).state)
  {
    hide Apply, Evm.Execute, Supply, Undoable;
    var u := env.Apply(t, ReadCode(a));
    QuietOp(env, t, ReadCode(a));
    ExecuteConserves(env, u, p);
    DescendsTransitive(env.db, s, t, u);
    DescendsTransitive(env.db, s, u, Evm.Execute(env, u, p).state);
    DescendsGrows(env.db, s, Evm.Execute(env, u, p).state);
  }
}
