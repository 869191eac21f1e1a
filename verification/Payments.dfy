/** Who pays whom: failed frames leave no trace, transfers, fees and rewards reach the right accounts. */
module Payments {
  import opened Basics
  import opened World
  import opened Journal
  import opened Ether
  import opened Refunds
  import opened Evm
  import opened EvmSupply
  import opened Processor

  // --- failed calls ---

  lemma SameObservationsThen(db: Db, s: State, t: State, u: State)
    requires SameObservations(db, s, t) && SameObservations(db, t, u)
    ensures SameObservations(db, s, u)
  {
    hide CurrentStorage, OriginalStorage, AccountOf;
  }

  lemma LookObserves(env: Env, s: State, a: Address)
    ensures SameObservations(env.db, s, env.Apply(s, ReadAccount(a)))
  {
    hide Restores, Fetch;
    FetchUndoable(env.db, s, a);
    FetchRest(env.db, s, a);
    RestoredObservations(env.db, s, Fetch(env.db, s, a));
  }

  lemma Unchanged(db: Db, s: State)
    ensures SameObservations(db, s, s)
  {
  }

  lemma CloseRestores(db: Db, saved: State, o: Outcome)
    requires Descends(db, saved, o.state) && o.result.status != SUCCESS
    ensures SameObservations(db, saved, Close(saved, o).state)
  {
    hide Undoable, Restores, SameObservations;
    RevertRestores(db, saved, o.state);
  }

  lemma CallDescends(env: Env, s: State, m: Message, p: Program)
    requires m.kind == CALL ==> m.value <= BalanceOf(env.db, s, m.sender)
    ensures var t := Paid(env, s, m);
      && Descends(env.db, s, t)
      && Descends(env.db, s, Execute(env, env.Apply(t, ReadCode(m.destination)), p).state)
  {
    hide Descends, Paid, Execute, Journal.Apply, Supply;
    var t := Paid(env, s, m);
    var u := env.Apply(t, ReadCode(m.destination));
    CallMoves(env, s, m);
    ApplyDescends(env, t, ReadCode(m.destination));
    ExecuteConserves(env, u, p);
    DescendsTransitive(env.db, s, t, u);
    DescendsTransitive(env.db, s, u, Execute(env, u, p).state);
  }

  /** A call that fails changes nothing that can be observed. */
  lemma FailedCall(env: Env, s: State, m: Message, p: Program)
    requires RunCall(env, s, m, p).result.status != SUCCESS
    ensures SameObservations(env.db, s, RunCall(env, s, m, p).state)
  {
    hide SameObservations, Journal.Apply, Descends, Paid, Execute, BalanceIn, Live, CodeOf, BackTo;
    var db := env.db;
    var s1 := if m.kind != DELEGATECALL then env.Apply(s, ReadAccount(m.sender)) else s;
    if m.kind != DELEGATECALL { LookObserves(env, s, m.sender); } else { Unchanged(db, s); }
    if !(m.kind != DELEGATECALL && BalanceOf(db, s, m.sender) < m.value) {
      var mayBeAbsent := m.value == 0 && env.rev >= SPURIOUS_DRAGON;
      var s2 := if mayBeAbsent then env.Apply(s1, ReadAccount(m.destination)) else s1;
      if mayBeAbsent { LookObserves(env, s1, m.destination); } else { Unchanged(db, s1); }
      SameObservationsThen(db, s, s1, s2);
      ObservedBalance(db, s, s2, m.sender);
      CallDescends(env, s2, m, p);
      var s3 := Paid(env, s2, m);
      var o := if IsPrecompiled(env.rev, m.destination) then Outcome(s3, RunPrecompiled(env, m), 0)
        else Execute(env, env.Apply(s3, ReadCode(m.destination)), p);
      CloseRestores(db, s2, o);
      SameObservationsThen(db, s, s2, Close(s2, o).state);
    }
  }

  lemma ObservedBalance(db: Db, s: State, t: State, a: Address)
    requires SameObservations(db, s, t)
    ensures BalanceOf(db, t, a) == BalanceOf(db, s, a)
    ensures t.selfDestructs == s.selfDestructs
  {
    assert AccountOf(db, t, a) == AccountOf(db, s, a);
  }

  /** A creation that fails after the address is known leaves only the announcement. */
  lemma FailedCreate(env: Env, s: State, m: Message, p: Program)
    requires BalanceOf(env.db, s, m.sender) >= m.value && RunCreate(env, s, m, p).result.status != SUCCESS
    ensures var s1 := env.Apply(s, ReadAccount(m.sender));
      var nonce := NonceOf(env.db, s1, m.sender);
      SameObservations(env.db, Announced(env, s1, m.sender, nonce, env.newAddress(m, nonce)), RunCreate(env, s, m, p).state)
  {
    hide SameObservations, Journal.Apply, Descends, Founded, Execute, BalanceIn, Announced, BackTo, NonceOf, CodeHashOf, Deploy;
    var db := env.db;
    var s1 := env.Apply(s, ReadAccount(m.sender));
    var nonce := NonceOf(db, s1, m.sender);
    var a := env.newAddress(m, nonce);
    var s2 := Announced(env, s1, m.sender, nonce, a);
    Unchanged(db, s2);
    if NonceOf(db, s2, a) == 0 && CodeHashOf(db, s2, a) == EMPTY_HASH {
      AnnouncedBalance(env, s, m, nonce, a);
      var o := Deploy(env, a, Execute(env, Founded(env, s2, m, a), p));
      FoundedDescends(env, s2, m, a, p);
      CloseRestores(db, s2, o);
    }
  }

  lemma AnnouncedBalance(env: Env, s: State, m: Message, nonce: nat, a: Address)
    ensures BalanceOf(env.db, Announced(env, env.Apply(s, ReadAccount(m.sender)), m.sender, nonce, a), m.sender) ==
            BalanceOf(env.db, s, m.sender)
  {
    hide Journal.Apply, Quiet, BalanceIn;
    var s1 := env.Apply(s, ReadAccount(m.sender));
    QuietOp(env, s, ReadAccount(m.sender));
    QuietBalance(env.db, s, s1, m.sender);
    QuietThree(env, s1, SetNonce(m.sender, (nonce + 1) % TWO_64), WarmAccount(a), ReadAccount(a));
    QuietBalance(env.db, s1, Announced(env, s1, m.sender, nonce, a), m.sender);
  }

  lemma FoundedDescends(env: Env, s: State, m: Message, a: Address, p: Program)
    requires m.value <= BalanceOf(env.db, s, m.sender)
    ensures Descends(env.db, s, Deploy(env, a, Execute(env, Founded(env, s, m, a), p)).state)
  {
    hide Descends, Execute, Founded, Supply, Deploy;
    var t := Founded(env, s, m, a);
    CreateMoves(env, s, m, a);
    ExecuteConserves(env, t, p);
    ConservesThen(env.db, s, t, Execute(env, t, p).state, 0, Execute(env, t, p).burned);
    DeployConserves(env, s, a, Execute(env, t, p));
  }

  // --- plain transfers ---

  /** What `b` gains when `v` goes from one account to another. */
  function Gain(from: Address, to: Address, v: int, b: Address): (d: int)
  {
    (if b == to then v else 0) - (if b == from then v else 0)
  }

  lemma TransferPays(env: Env, s: State, from: Address, to: Address, value: Word, b: Address)
    requires value <= BalanceOf(env.db, s, from) && Supply(env.db, s) < TWO_256
    ensures BalanceOf(env.db, Transfer(env, s, from, to, value), b) == BalanceOf(env.db, s, b) + Gain(from, to, value, b)
  {
    hide Journal.Apply, BalanceIn, Supply;
    var s1 := env.Apply(s, SubtractFromBalance(from, value));
    DebitPays(env, s, from, value, b);
    DebitSupply(env, s, from, value);
    CreditPays(env, s1, to, value, b);
  }

  /** A call with value to an account without code pays exactly that account. */
  lemma PlainCallPays(env: Env, s: State, m: Message, p: Program, b: Address)
    requires m.kind == CALL && !m.readOnly && 0 < m.value <= BalanceOf(env.db, s, m.sender)
    requires Supply(env.db, s) < TWO_256 && !IsPrecompiled(env.rev, m.destination)
    requires CodeOf(env.db, Paid(env, env.Apply(s, ReadAccount(m.sender)), m), m.destination) == []
    ensures var o := RunCall(env, s, m, p);
      && o.result == Result(SUCCESS, m.gas, [])
      && BalanceOf(env.db, o.state, b) == BalanceOf(env.db, s, b) + Gain(m.sender, m.destination, m.value, b)
  {
    hide Journal.Apply, BalanceIn, Supply, Transfer, CodeOf, Quiet, Execute;
    var s1 := env.Apply(s, ReadAccount(m.sender));
    QuietOp(env, s, ReadAccount(m.sender));
    QuietBalance(env.db, s, s1, m.sender);
    QuietBalance(env.db, s, s1, b);
    QuietSupply(env.db, s, s1);
    TransferPays(env, s1, m.sender, m.destination, m.value, b);
    var s3 := Paid(env, s1, m);
    QuietOp(env, s3, ReadCode(m.destination));
    QuietBalance(env.db, s3, env.Apply(s3, ReadCode(m.destination)), b);
  }

  // --- fees ---

  lemma PreparePays(env: Env, s: State, txn: Txn, b: Address)
    requires txn.from.Some? && Affordable(env, s, txn)
    ensures BalanceOf(env.db, Prepare(env, s, txn), b) ==
            BalanceOf(env.db, s, b) - if b == txn.from.value then txn.gasLimit * txn.gasPrice else 0
    ensures Prepare(env, s, txn).selfDestructs == {}
  {
    hide Journal.Apply, Supply, BalanceIn, ApplyAll, Quiet, Product;
    var db, from := env.db, txn.from.value;
    var s0 := ClearSubstate(s);
    var s1 := env.Apply(s0, WarmAccount(from));
    QuietOp(env, s0, WarmAccount(from));
    QuietBalance(db, s0, s1, from);
    QuietBalance(db, s0, s1, b);
    var cost := Product(txn.gasLimit, txn.gasPrice);
    assert cost == txn.gasLimit * txn.gasPrice by { ProductExact(txn.gasLimit, txn.gasPrice); }
    DebitPays(env, s1, from, cost, b);
    var s2 := env.Apply(s1, SubtractFromBalance(from, cost));
    var s3 :=
      if txn.to.Some? then env.Apply(env.Apply(s2, WarmAccount(txn.to.value)), SetNonce(from, (txn.nonce + 1) % TWO_64)) else s2;
    if txn.to.Some? {
      QuietOp(env, s2, WarmAccount(txn.to.value));
      QuietOp(env, env.Apply(s2, WarmAccount(txn.to.value)), SetNonce(from, (txn.nonce + 1) % TWO_64));
      QuietThen(db, s2, env.Apply(s2, WarmAccount(txn.to.value)), s3);
      QuietBalance(db, s2, s3, b);
    }
    WarmQuiet(txn.accessList);
    QuietOps(env, s3, WarmOps(txn.accessList));
    QuietBalance(db, s3, Prepare(env, s, txn), b);
    PreparedDestructs(env, s, txn);
  }

  lemma DebitPays(env: Env, s: State, a: Address, v: Word, b: Address)
    requires v <= BalanceOf(env.db, s, a)
    ensures BalanceOf(env.db, env.Apply(s, SubtractFromBalance(a, v)), b) ==
            BalanceOf(env.db, s, b) - if b == a then v else 0
  {
    hide Journal.Apply, Supply, BalanceIn;
    ApplyMoves(env.db, env.keccak, s, SubtractFromBalance(a, v));
  }

  lemma CreditPays(env: Env, s: State, a: Address, v: Word, b: Address)
    requires Supply(env.db, s) + v < TWO_256
    ensures BalanceOf(env.db, env.Apply(s, AddToBalance(a, v)), b) ==
            BalanceOf(env.db, s, b) + if b == a then v else 0
  {
    hide Journal.Apply, Supply, BalanceIn;
    ApplyMoves(env.db, env.keccak, s, AddToBalance(a, v));
  }

  /** Operations other than self-destruction leave the set of self-destructs alone. */
  lemma OtherDestructs(env: Env, s: State, op: Op)
    requires op.WarmAccount? || op.WarmStorage? || op.SubtractFromBalance? || op.SetNonce?
    ensures env.Apply(s, op).selfDestructs == s.selfDestructs
  {
    hide Put;
    match op
    case SubtractFromBalance(a, v) => PutDestructs(env.db, s, a, Debit(v));
    case SetNonce(a, n) => PutDestructs(env.db, s, a, ToNonce(n));
    case _ =>
  }

  lemma {:induction false} WarmDestructs(env: Env, s: State, ops: seq<Op>)
    requires forall op <- ops :: op.WarmAccount? || op.WarmStorage?
    ensures ApplyAll(env.db, env.keccak, s, ops).selfDestructs == s.selfDestructs
    decreases |ops|
  {
    hide Journal.Apply;
    if ops != [] {
      OtherDestructs(env, s, ops[0]);
      WarmDestructs(env, env.Apply(s, ops[0]), ops[1..]);
    }
  }

  lemma PreparedDestructs(env: Env, s: State, txn: Txn)
    requires txn.from.Some?
    ensures Prepare(env, s, txn).selfDestructs == {}
  {
    hide Journal.Apply, ApplyAll, Product;
    var from := txn.from.value;
    var s0 := ClearSubstate(s);
    var s1 := env.Apply(s0, WarmAccount(from));
    OtherDestructs(env, s0, WarmAccount(from));
    var pay := SubtractFromBalance(from, Product(txn.gasLimit, txn.gasPrice));
    OtherDestructs(env, s1, pay);
    var s2 := env.Apply(s1, pay);
    var s3 := s2;
    if txn.to.Some? {
      OtherDestructs(env, s2, WarmAccount(txn.to.value));
      OtherDestructs(env, env.Apply(s2, WarmAccount(txn.to.value)), SetNonce(from, (txn.nonce + 1) % TWO_64));
      s3 := env.Apply(env.Apply(s2, WarmAccount(txn.to.value)), SetNonce(from, (txn.nonce + 1) % TWO_64));
    }
    WarmOnly(txn.accessList);
    WarmDestructs(env, s3, WarmOps(txn.accessList));
  }

  /** The gas given back is paid back to the sender, the gas used to the beneficiary of the block. */
  lemma AwardedPays(env: Env, beneficiary: Address, s: State, txn: Txn, back: nat, b: Address)
    requires txn.from.Some? && back <= txn.gasLimit
    requires Supply(env.db, s) + txn.gasLimit * txn.gasPrice < TWO_256
    ensures BalanceOf(env.db, Awarded(env, beneficiary, s, txn, back), b) ==
      BalanceOf(env.db, s, b)
      + (if b == txn.from.value then back * txn.gasPrice else 0)
      + (if b == beneficiary then (txn.gasLimit - back) * txn.gasPrice else 0)
  {
    hide Journal.Apply, Supply, BalanceIn;
    var price, used, from := txn.gasPrice, txn.gasLimit - back, txn.from.value;
    assert txn.gasLimit * price == back * price + used * price;
    ProductExact(back, price);
    ProductExact(used, price);
    var s1 := env.Apply(s, AddToBalance(from, Product(back, price)));
    CreditSupply(env, s, from, Product(back, price));
    CreditPays(env, s, from, Product(back, price), b);
    CreditPays(env, s1, beneficiary, Product(used, price), b);
  }

  lemma FinishKeeps(env: Env, s: State, b: Address)
    requires s.selfDestructs == {}
    ensures BalanceOf(env.db, Finish(env, s), b) == BalanceOf(env.db, s, b)
  {
    hide DestructAll, Load;
    var s1 := DestructAll(env.db, s, {});
    DestructedBalance(env.db, s, {}, b);
    var dead := set a | a in s1.touched && Dead(env.db, s1, a);
    LoadKeeps(env.db, s1, s1.touched);
    DestructedBalance(env.db, Load(env.db, s1, s1.touched), dead, b);
  }

  /** A transaction whose call fails costs its sender exactly the gas used, which the
      beneficiary of the block gains; no other balance changes. */
  lemma FailedTransactionPays(env: Env, beneficiary: Address, s: State, txn: Txn, b: Address)
    requires txn.from.Some? && txn.to.Some? && Checked(txn) && Affordable(env, s, txn) && Supply(env.db, s) < TWO_256
    requires !ExecuteTransaction(env, beneficiary, s, txn).success
    ensures var o := ExecuteTransaction(env, beneficiary, s, txn);
      BalanceOf(env.db, o.state, b) == BalanceOf(env.db, s, b) + Gain(txn.from.value, beneficiary, o.gasUsed * txn.gasPrice, b)
  {
    hide Journal.Apply, Supply, BalanceIn, Prepare, RunCall, RunCreate, Awarded, Finish, GasBack, Held, SameObservations;
    var db, price := env.db, txn.gasPrice;
    var p := Prepare(env, s, txn);
    PreparePays(env, s, txn, b);
    PrepareSupply(env, s, txn);
    var m := ExecuteMessage(env, p, txn);
    FailedCall(env, p, MessageOf(txn), txn.program);
    ObservedBalance(db, p, m.state, b);
    ObservedSupply(db, p, m.state);
    MessageGas(env, p, txn);
    var back := GasBack(env, m.state, txn.gasLimit, m.result.gasLeft);
    AwardedPays(env, beneficiary, m.state, txn, back, b);
    AwardedDestructs(env, beneficiary, m.state, txn, back);
    FinishKeeps(env, Awarded(env, beneficiary, m.state, txn, back), b);
    assert txn.gasLimit * price == back * price + (txn.gasLimit - back) * price;
  }

  lemma ObservedSupply(db: Db, s: State, t: State)
    requires SameObservations(db, s, t)
    ensures Supply(db, t) == Supply(db, s)
  {
    forall b
      ensures BalanceIn(db, t.objects, b) == BalanceIn(db, s.objects, b)
    {
      assert AccountOf(db, t, b) == AccountOf(db, s, b);
    }
    SameBalances(db, s, t);
  }

  // --- rewards ---

  /** What `b` gets as beneficiary of ommers. */
  function OmmerShare(rev: Revision, number: nat, ommers: seq<Ommer>, b: Address): (n: nat)
    requires forall o <- ommers :: Recent(number, o)
  {
    if ommers == [] then 0
    else
      assert Recent(number, ommers[0]);
      (if b == ommers[0].beneficiary then (8 + ommers[0].number - number) * BlockReward(rev) / 8 else 0)
      + OmmerShare(rev, number, ommers[1..], b)
  }

  lemma {:induction false} OmmersPaid(env: Env, block: Block, s: State, ommers: seq<Ommer>, b: Address)
    requires forall o <- ommers :: Recent(block.number, o)
    requires Supply(env.db, s) + OmmerRewards(env.rev, block.number, ommers) < TWO_256
    ensures BalanceOf(env.db, RewardOmmers(env, block, s, ommers), b) ==
            BalanceOf(env.db, s, b) + OmmerShare(env.rev, block.number, ommers, b)
    decreases |ommers|
  {
    hide Journal.Apply, Supply, OmmerReward, BlockReward, BalanceIn;
    if ommers != [] {
      OmmerRewardExact(env.rev, block.number, ommers[0]);
      var v := OmmerReward(BlockReward(env.rev), block.number, ommers[0]);
      CreditSupply(env, s, ommers[0].beneficiary, v);
      CreditPays(env, s, ommers[0].beneficiary, v, b);
      OmmersPaid(env, block, env.Apply(s, AddToBalance(ommers[0].beneficiary, v)), ommers[1..], b);
    }
  }

  /** Each beneficiary gets its own reward, the miner a thirty-second part more for each ommer. */
  lemma RewardsPaid(env: Env, block: Block, s: State, b: Address)
    requires forall o <- block.ommers :: Recent(block.number, o)
    requires Supply(env.db, s) + Rewards(env.rev, block) < TWO_256
    ensures BalanceOf(env.db, ApplyRewards(env, block, s), b) ==
      BalanceOf(env.db, s, b) + OmmerShare(env.rev, block.number, block.ommers, b)
      + if b == block.beneficiary then BlockReward(env.rev) + |block.ommers| * (BlockReward(env.rev) / 32) else 0
  {
    hide Journal.Apply, Supply, RewardOmmers, OmmerRewards, BlockReward, BalanceIn, OmmerShare;
    RewardOmmersSupply(env, block, s, block.ommers);
    OmmersPaid(env, block, s, block.ommers, b);
    var t := RewardOmmers(env, block, s, block.ommers);
    CreditPays(env, t, block.beneficiary, MinerReward(env.rev, |block.ommers|), b);
  }
}
