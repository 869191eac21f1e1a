/** Transactions and blocks: core/silkworm/execution/processor.cpp and core/silkworm/chain/dao.cpp. */
module Processor {
  import opened Basics
  import opened World
  import opened Journal
  import FlatState
  import opened Ether
  import opened Refunds
  import opened Evm
  import opened EvmSupply
  import opened Accounts

  /** A transaction as it is executed; `envelope` is its EIP-2718 type, and its intrinsic gas is computed from its contents. */
  datatype Txn = Txn(
    envelope: Option<nat>, from: Option<Address>, to: Option<Address>, nonce: nat, gasLimit: nat, gasPrice: Word, value: Word,
    data: Bytes, accessList: seq<(Address, seq<Word>)>, intrinsicGas: nat, program: Program)

  datatype Ommer = Ommer(number: nat, beneficiary: Address)

  datatype Block = Block(
    number: nat, beneficiary: Address, gasLimit: nat, txns: seq<Txn>, ommers: seq<Ommer>)

  datatype Verdict = Ok | MissingSender | WrongNonce | InsufficientFunds | BlockGasLimitExceeded

  /** The bloom filter is a function of the logs. */
  datatype Receipt = Receipt(envelope: Option<nat>, success: bool, cumulativeGasUsed: nat, logs: seq<Bytes>)

  /** `pre_validate_transaction` and the width of the gas limit; the interpreter returns no more
      gas than it is given. */
  predicate Checked(txn: Txn)
  {
    txn.intrinsicGas <= txn.gasLimit < TWO_64 && txn.program.result.gasLeft <= txn.gasLimit - txn.intrinsicGas
  }

  // --- validation ---

  function AvailableGas(block: Block, cumulativeGasUsed: nat): (gas: nat)
  {
    (block.gasLimit - cumulativeGasUsed) % TWO_64
  }

  function Validate(env: Env, block: Block, cumulativeGasUsed: nat, s: State, txn: Txn): (v: Verdict)
  {
    if txn.from.None? then MissingSender
    else if NonceOf(env.db, s, txn.from.value) != txn.nonce then WrongNonce
    else if BalanceOf(env.db, s, txn.from.value) < txn.gasLimit * txn.gasPrice + txn.value then InsufficientFunds
    else if AvailableGas(block, cumulativeGasUsed) < txn.gasLimit then BlockGasLimitExceeded
    else Ok
  }

  // --- one transaction ---

  function Product(gas: nat, price: Word): (v: Word)
  {
    (gas * price) % TWO_256
  }

  function WarmKeys(a: Address, keys: seq<Word>): (ops: seq<Op>)
  {
    if keys == [] then [] else [WarmStorage(a, keys[0])] + WarmKeys(a, keys[1..])
  }

  function WarmOps(accessList: seq<(Address, seq<Word>)>): (ops: seq<Op>)
  {
    if accessList == [] then []
    else [WarmAccount(accessList[0].0)] + WarmKeys(accessList[0].0, accessList[0].1) + WarmOps(accessList[1..])
  }

  lemma WarmOnly(accessList: seq<(Address, seq<Word>)>)
    ensures forall op <- WarmOps(accessList) :: op.WarmAccount? || op.WarmStorage?
  {
    if accessList != [] {
      KeysOnly(accessList[0].0, accessList[0].1);
      WarmOnly(accessList[1..]);
    }
  }

  lemma KeysOnly(a: Address, keys: seq<Word>)
    ensures forall op <- WarmKeys(a, keys) :: op.WarmStorage?
  {
    if keys != [] { KeysOnly(a, keys[1..]); }
  }

  /** The sender pays for all of the gas; the accounts named in advance become warm. */
  function Prepare(env: Env, s: State, txn: Txn): (t: State)
    requires txn.from.Some?
  {
    var from := txn.from.value;
    var s1 := env.Apply(ClearSubstate(s), WarmAccount(from));
    var s2 := env.Apply(s1, SubtractFromBalance(from, Product(txn.gasLimit, txn.gasPrice)));
    var s3 :=
      if txn.to.Some? then env.Apply(env.Apply(s2, WarmAccount(txn.to.value)), SetNonce(from, (txn.nonce + 1) % TWO_64)) else s2;
    ApplyAll(env.db, env.keccak, s3, WarmOps(txn.accessList))
  }

  function MessageOf(txn: Txn): (m: Message)
    requires txn.from.Some? && Checked(txn)
  {
    Message(if txn.to.None? then CREATE else CALL, false, txn.gasLimit - txn.intrinsicGas,
            if txn.to.Some? then txn.to.value else 0, txn.from.value, txn.data, txn.value)
  }

  /** `EVM::execute`. */
  function ExecuteMessage(env: Env, s: State, txn: Txn): (o: Outcome)
    requires txn.from.Some? && Checked(txn)
  {
    if txn.to.None? then RunCreate(env, s, MessageOf(txn), txn.program) else RunCall(env, s, MessageOf(txn), txn.program)
  }

  const SELF_DESTRUCT_REFUND: nat := 24_000

  /** The gas given back: what is left and a bounded part of what was used. */
  function GasBack(env: Env, s: State, gasLimit: nat, gasLeft: nat): (gas: nat)
    requires gasLeft <= gasLimit
    ensures gasLeft <= gas <= gasLimit
  {
    var refund := if env.rev < LONDON then (s.refund + SELF_DESTRUCT_REFUND * |s.selfDestructs|) % TWO_64 else s.refund;
    var maxRefund := (gasLimit - gasLeft) / if env.rev >= LONDON then 5 else 2;
    gasLeft + if refund < maxRefund then refund else maxRefund
  }

  /** What is given back beyond the gas left is what the refund counter holds, with 24000 more for each self-destruct before
      London, but at most half of the gas used, or a fifth of it from London on. */
  lemma RefundCapped(env: Env, s: State, gasLimit: nat, gasLeft: nat)
    requires gasLeft <= gasLimit
    ensures var refunded, used := GasBack(env, s, gasLimit, gasLeft) - gasLeft, gasLimit - gasLeft;
      var counter := if env.rev >= LONDON then s.refund else (s.refund + 24_000 * |s.selfDestructs|) % TWO_64;
      var cap := if env.rev >= LONDON then used / 5 else used / 2;
      refunded <= counter && refunded <= cap && (refunded == counter || refunded == cap)
  {
  }

  function Finish(env: Env, s: State): (t: State)
  {
    var s1 := DestructAll(env.db, s, s.selfDestructs);
    Finalize(if env.rev >= SPURIOUS_DRAGON then ClearDead(env.db, s1) else s1)
  }

  datatype TxnOutcome = TxnOutcome(state: State, success: bool, gasUsed: nat, burned: nat)

  function Awarded(env: Env, beneficiary: Address, s: State, txn: Txn, back: nat): (t: State)
    requires txn.from.Some? && back <= txn.gasLimit
  {
    env.Apply(env.Apply(s, AddToBalance(txn.from.value, Product(back, txn.gasPrice))),
              AddToBalance(beneficiary, Product(txn.gasLimit - back, txn.gasPrice)))
  }

  ghost function ExecuteTransaction(env: Env, beneficiary: Address, s: State, txn: Txn): (o: TxnOutcome)
    requires txn.from.Some? && Checked(txn)
  {
    var m := ExecuteMessage(env, Prepare(env, s, txn), txn);
    MessageGas(env, Prepare(env, s, txn), txn);
    var back := GasBack(env, m.state, txn.gasLimit, m.result.gasLeft);
    var s1 := Awarded(env, beneficiary, m.state, txn, back);
    TxnOutcome(Finish(env, s1), m.result.status == SUCCESS, txn.gasLimit - back,
               m.burned + Held(env.db, s1, s1.selfDestructs))
  }

  /** The gas used is what the message used, less the refund; with nothing to refund it is exactly what the message used. */
  lemma GasUsedExact(env: Env, beneficiary: Address, s: State, txn: Txn)
    requires txn.from.Some? && Checked(txn)
    ensures var m, o := ExecuteMessage(env, Prepare(env, s, txn), txn), ExecuteTransaction(env, beneficiary, s, txn);
      && o.success == (m.result.status == SUCCESS)
      && m.result.gasLeft <= txn.gasLimit
      && o.gasUsed == txn.gasLimit - GasBack(env, m.state, txn.gasLimit, m.result.gasLeft)
      && (m.state.refund == 0 && (env.rev >= LONDON || m.state.selfDestructs == {}) ==> o.gasUsed == txn.gasLimit - m.result.gasLeft)
  {
    hide Prepare, ExecuteMessage, GasBack, Awarded, Finish, Held;
    MessageGas(env, Prepare(env, s, txn), txn);
    var m := ExecuteMessage(env, Prepare(env, s, txn), txn);
    RefundCapped(env, m.state, txn.gasLimit, m.result.gasLeft);
  }

  /** A message never ends with more gas than it was sent with. */
  lemma MessageGas(env: Env, s: State, txn: Txn)
    requires txn.from.Some? && Checked(txn)
    ensures ExecuteMessage(env, s, txn).result.gasLeft <= txn.gasLimit - txn.intrinsicGas
  {
    CallGas(env, s, MessageOf(txn), txn.program);
    CreateGas(env, s, MessageOf(txn), txn.program);
  }

  lemma CallGas(env: Env, s: State, m: Message, p: Program)
    requires p.result.gasLeft <= m.gas
    ensures RunCall(env, s, m, p).result.gasLeft <= m.gas
  {
    hide Journal.Apply, BackTo, Transfer, PerformAll, BalanceIn, Live, CodeOf;
  }

  lemma CreateGas(env: Env, s: State, m: Message, p: Program)
    requires p.result.gasLeft <= m.gas
    ensures RunCreate(env, s, m, p).result.gasLeft <= m.gas
  {
    hide Journal.Apply, BackTo, Transfer, PerformAll, BalanceIn;
  }

  // --- the ether of destructed accounts ---

  function Restrict(m: map<Address, nat>, keys: set<Address>): (r: map<Address, nat>)
  {
    map a | a in m && a in keys :: m[a]
  }

  /** The ether that the accounts `gone` hold together. */
  ghost function Held(db: Db, s: State, gone: set<Address>): (n: nat)
  {
    Total(Restrict(Balances(db, s), gone))
  }

  lemma {:induction false} TotalParts(m: map<Address, nat>, keys: set<Address>)
    ensures Total(m) == Total(m - keys) + Total(Restrict(m, keys))
    decreases |keys|
  {
    if keys == {} {
      assert m - keys == m && Restrict(m, keys) == map[];
    } else {
      var a :| a in keys;
      TotalParts(m, keys - {a});
      if a in m {
        TotalSplit(m - (keys - {a}), a);
        TotalSplit(Restrict(m, keys), a);
        assert m - (keys - {a}) - {a} == m - keys;
        assert Restrict(m, keys) - {a} == Restrict(m, keys - {a});
      } else {
        assert m - (keys - {a}) == m - keys;
        assert Restrict(m, keys) == Restrict(m, keys - {a});
      }
    }
  }

  lemma DestructedBalance(db: Db, s: State, gone: set<Address>, a: Address)
    ensures BalanceOf(db, DestructAll(db, s, gone), a) == if a in gone then 0 else BalanceOf(db, s, a)
  {
  }

  /** Destructed accounts take what they hold with them. */
  lemma DestructBurns(db: Db, s: State, gone: set<Address>)
    ensures Supply(db, DestructAll(db, s, gone)) + Held(db, s, gone) == Supply(db, s)
  {
    hide DestructAll;
    var x, y := Balances(db, s), Balances(db, DestructAll(db, s, gone));
    forall a
      ensures a in y <==> a in x - gone
      ensures a in y ==> y[a] == x[a]
    {
      DestructedBalance(db, s, gone, a);
      BalancesAt(db, s, a);
      BalancesAt(db, DestructAll(db, s, gone), a);
    }
    assert y == x - gone;
    TotalParts(x, gone);
  }

  lemma ClearDeadKeeps(db: Db, s: State)
    ensures Supply(db, ClearDead(db, s)) == Supply(db, s)
  {
    hide DestructAll, Load;
    var t := ClearDead(db, s);
    var dead := set a | a in s.touched && Dead(db, s, a);
    LoadKeeps(db, s, s.touched);
    forall a
      ensures BalanceIn(db, t.objects, a) == BalanceIn(db, s.objects, a)
    {
      DestructedBalance(db, Load(db, s, s.touched), dead, a);
    }
    SameBalances(db, s, t);
  }

  lemma FinishBurns(env: Env, s: State)
    ensures Supply(env.db, Finish(env, s)) + Held(env.db, s, s.selfDestructs) == Supply(env.db, s)
  {
    hide DestructAll, ClearDead, Held;
    var s1 := DestructAll(env.db, s, s.selfDestructs);
    DestructBurns(env.db, s, s.selfDestructs);
    ClearDeadKeeps(env.db, s1);
    var s2 := if env.rev >= SPURIOUS_DRAGON then ClearDead(env.db, s1) else s1;
    SameBalances(env.db, s2, Finalize(s2));
  }

  /** What the end of a transaction leaves is what the flat maps are proved to stand for. */
  lemma FinishIsEnd(env: Env, s: State)
    ensures var t := FlatState.EndTransaction(env.db, s, env.rev >= SPURIOUS_DRAGON);
      && SameObjects(env.db, t.objects, Finish(env, s).objects)
      && t.storage == Finish(env, s).storage
  {
    hide DestructAll, Load, CommittedStorage, Dead;
    var db, clear := env.db, env.rev >= SPURIOUS_DRAGON;
    var gone := Gone(db, s, clear);
    var t := DestructAll(db, s, s.selfDestructs);
    var dead := if clear then set a | a in t.touched && Dead(db, t, a) else {};
    var u := if clear then ClearDead(db, t) else t;
    var all := DestructAll(db, s, gone);
    DestructRest(db, s, s.selfDestructs);
    DestructRest(db, s, gone);
    assert gone == s.selfDestructs + dead;
    forall a
      ensures ObjectIn(db, all.objects, a) == ObjectIn(db, u.objects, a)
    {
      DestructedObject(db, s, gone, a);
      DestructedObject(db, s, s.selfDestructs, a);
      LoadKeeps(db, t, t.touched);
      DestructedObject(db, Load(db, t, t.touched), dead, a);
    }
    if clear { ClearDeadRest(db, t); }
    assert all.storage == u.storage;
  }

  lemma DestructRest(db: Db, s: State, gone: set<Address>)
    ensures DestructAll(db, s, gone).storage == s.storage - gone && DestructAll(db, s, gone).touched == s.touched
  {
  }

  lemma ClearDeadRest(db: Db, s: State)
    ensures ClearDead(db, s).storage == s.storage - set a | a in s.touched && Dead(db, s, a)
  {
  }

  lemma DestructedObject(db: Db, s: State, gone: set<Address>, a: Address)
    ensures var o := ObjectIn(db, s.objects, a);
      ObjectIn(db, DestructAll(db, s, gone).objects, a) ==
      if a in gone && o.Some? then Some(o.value.(current := None)) else o
  {
  }

  // --- conservation over a transaction ---

  /** The sender can pay for the gas and the value. */
  ghost predicate Affordable(env: Env, s: State, txn: Txn)
    requires txn.from.Some?
  {
    BalanceOf(env.db, s, txn.from.value) >= txn.gasLimit * txn.gasPrice + txn.value
  }

  lemma ProductExact(gas: nat, price: Word)
    requires gas * price < TWO_256
    ensures Product(gas, price) == gas * price
  {
  }

  lemma WarmQuiet(accessList: seq<(Address, seq<Word>)>)
    ensures forall op <- WarmOps(accessList) :: !MovesBalance(op)
  {
    if accessList != [] {
      KeysQuiet(accessList[0].0, accessList[0].1);
      WarmQuiet(accessList[1..]);
    }
  }

  lemma KeysQuiet(a: Address, keys: seq<Word>)
    ensures forall op <- WarmKeys(a, keys) :: !MovesBalance(op)
  {
    if keys != [] { KeysQuiet(a, keys[1..]); }
  }

  /** A debit within the balance is exact. */
  lemma DebitSupply(env: Env, s: State, a: Address, v: Word)
    requires v <= BalanceOf(env.db, s, a)
    ensures Supply(env.db, env.Apply(s, SubtractFromBalance(a, v))) == Supply(env.db, s) - v
  {
    hide Journal.Apply, Supply, BalanceIn;
    ApplyMoves(env.db, env.keccak, s, SubtractFromBalance(a, v));
  }

  /** The gas is paid for, exactly, before anything else happens. */
  lemma PrepareSupply(env: Env, s: State, txn: Txn)
    requires txn.from.Some? && Affordable(env, s, txn)
    ensures Supply(env.db, Prepare(env, s, txn)) == Supply(env.db, s) - txn.gasLimit * txn.gasPrice
  {
    hide Journal.Apply, Supply, BalanceIn, ApplyAll, Quiet, Product;
    var db, from := env.db, txn.from.value;
    var s0 := ClearSubstate(s);
    SameBalances(db, s, s0);
    var s1 := env.Apply(s0, WarmAccount(from));
    QuietOp(env, s0, WarmAccount(from));
    QuietSupply(db, s0, s1);
    QuietBalance(db, s0, s1, from);
    var cost := Product(txn.gasLimit, txn.gasPrice);
    assert cost == txn.gasLimit * txn.gasPrice by { ProductExact(txn.gasLimit, txn.gasPrice); }
    DebitSupply(env, s1, from, cost);
    var s2 := env.Apply(s1, SubtractFromBalance(from, cost));
    var s3 :=
      if txn.to.Some? then env.Apply(env.Apply(s2, WarmAccount(txn.to.value)), SetNonce(from, (txn.nonce + 1) % TWO_64)) else s2;
    if txn.to.Some? {
      QuietOp(env, s2, WarmAccount(txn.to.value));
      QuietOp(env, env.Apply(s2, WarmAccount(txn.to.value)), SetNonce(from, (txn.nonce + 1) % TWO_64));
      QuietThen(db, s2, env.Apply(s2, WarmAccount(txn.to.value)), s3);
      QuietSupply(db, s2, s3);
    }
    WarmQuiet(txn.accessList);
    QuietOps(env, s3, WarmOps(txn.accessList));
    QuietSupply(db, s3, Prepare(env, s, txn));
  }

  lemma QuietSupply(db: Db, s: State, t: State)
    requires Quiet(db, s, t)
    ensures Supply(db, t) == Supply(db, s)
  {
    SameBalances(db, s, t);
  }

  /** Crediting within the bound of the total supply is exact. */
  lemma CreditSupply(env: Env, s: State, a: Address, v: Word)
    requires Supply(env.db, s) + v < TWO_256
    ensures Supply(env.db, env.Apply(s, AddToBalance(a, v))) == Supply(env.db, s) + v
    ensures BalanceOf(env.db, env.Apply(s, AddToBalance(a, v)), a) == BalanceOf(env.db, s, a) + v
  {
    hide Journal.Apply, Supply, BalanceIn;
    ApplyMoves(env.db, env.keccak, s, AddToBalance(a, v));
  }

  lemma AwardedSupply(env: Env, beneficiary: Address, s: State, txn: Txn, back: nat)
    requires txn.from.Some? && back <= txn.gasLimit
    requires Supply(env.db, s) + txn.gasLimit * txn.gasPrice < TWO_256
    ensures Supply(env.db, Awarded(env, beneficiary, s, txn, back)) == Supply(env.db, s) + txn.gasLimit * txn.gasPrice
  {
    hide Journal.Apply, Supply;
    var price, used := txn.gasPrice, txn.gasLimit - back;
    assert txn.gasLimit * price == back * price + used * price;
    ProductExact(back, price);
    ProductExact(used, price);
    CreditSupply(env, s, txn.from.value, Product(back, price));
    CreditSupply(env, env.Apply(s, AddToBalance(txn.from.value, Product(back, price))), beneficiary, Product(used, price));
  }

  /** A transaction changes the sum of all balances by exactly what self-destruction burns,
      which is nothing if no contract has destructed itself. */
  lemma TransactionConserves(env: Env, beneficiary: Address, s: State, txn: Txn)
    requires txn.from.Some? && Checked(txn) && Affordable(env, s, txn) && Supply(env.db, s) < TWO_256
    ensures var o := ExecuteTransaction(env, beneficiary, s, txn);
      && Supply(env.db, o.state) + o.burned == Supply(env.db, s)
      && (ExecuteMessage(env, Prepare(env, s, txn), txn).state.selfDestructs == {} ==> o.burned == 0)
  {
    hide Journal.Apply, Supply, BalanceIn, Prepare, RunCall, RunCreate, Awarded, Finish, GasBack, Held, Conserves;
    var p := Prepare(env, s, txn);
    PrepareSupply(env, s, txn);
    var m := ExecuteMessage(env, p, txn);
    CallConserves(env, p, MessageOf(txn), txn.program);
    CreateConserves(env, p, MessageOf(txn), txn.program);
    ConservesSupply(env.db, p, m);
    MessageGas(env, p, txn);
    var back := GasBack(env, m.state, txn.gasLimit, m.result.gasLeft);
    AwardedSupply(env, beneficiary, m.state, txn, back);
    var s1 := Awarded(env, beneficiary, m.state, txn, back);
    FinishBurns(env, s1);
    if m.state.selfDestructs == {} {
      AwardedDestructs(env, beneficiary, m.state, txn, back);
      NothingHeld(env.db, s1);
    }
  }

  lemma AwardedDestructs(env: Env, beneficiary: Address, s: State, txn: Txn, back: nat)
    requires txn.from.Some? && back <= txn.gasLimit
    ensures Awarded(env, beneficiary, s, txn, back).selfDestructs == s.selfDestructs
  {
    hide Put, Product;
    var from, v, w := txn.from.value, Product(back, txn.gasPrice), Product(txn.gasLimit - back, txn.gasPrice);
    PutDestructs(env.db, s, from, Credit(v));
    PutDestructs(env.db, env.Apply(s, AddToBalance(from, v)), beneficiary, Credit(w));
  }

  lemma NothingHeld(db: Db, s: State)
    ensures Held(db, s, {}) == 0
  {
    assert Restrict(Balances(db, s), {}) == map[];
  }

  lemma ConservesSupply(db: Db, s: State, o: Outcome)
    requires Conserves(db, s, o.state, o.burned) && Supply(db, s) < TWO_256
    ensures Supply(db, o.state) + o.burned == Supply(db, s)
    ensures o.state.selfDestructs == {} ==> o.burned == 0
  {
  }

  // --- blocks ---

  datatype BlockOutcome = BlockOutcome(state: State, receipts: seq<Receipt>, verdict: Verdict, burned: nat)

  function Looked(env: Env, s: State, txn: Txn): (t: State)
  {
    if txn.from.Some? then env.Apply(s, ReadAccount(txn.from.value)) else s
  }

  ghost function ExecuteTxns(env: Env, block: Block, s: State, cumulativeGasUsed: nat, txns: seq<Txn>): (o: BlockOutcome)
    requires forall txn <- txns :: Checked(txn)
    decreases |txns|
  {
    if txns == [] then BlockOutcome(s, [], Ok, 0)
    else
      var txn := txns[0];
      var s1 := Looked(env, s, txn);
      var verdict := Validate(env, block, cumulativeGasUsed, s, txn);
      if verdict != Ok then BlockOutcome(s1, [], verdict, 0)
      else
        var t := ExecuteTransaction(env, block.beneficiary, s1, txn);
        var used := cumulativeGasUsed + t.gasUsed;
        var rest := ExecuteTxns(env, block, t.state, used, txns[1..]);
        rest.(receipts := [Receipt(txn.envelope, t.success, used, t.state.logs)] + rest.receipts, burned := t.burned + rest.burned)
  }

  lemma LookedKeeps(env: Env, s: State, txn: Txn)
    ensures Supply(env.db, Looked(env, s, txn)) == Supply(env.db, s)
    ensures forall b :: BalanceIn(env.db, Looked(env, s, txn).objects, b) == BalanceIn(env.db, s.objects, b)
  {
    hide Journal.Apply, Supply, BalanceIn;
    if txn.from.Some? { ApplyKeeps(env.db, env.keccak, s, ReadAccount(txn.from.value)); }
  }

  /** Over any list of transactions, valid or cut short, ether disappears only by self-destruction. */
  lemma {:induction false} TxnsConserve(env: Env, block: Block, s: State, cumulativeGasUsed: nat, txns: seq<Txn>)
    requires (forall txn <- txns :: Checked(txn)) && Supply(env.db, s) < TWO_256
    ensures var o := ExecuteTxns(env, block, s, cumulativeGasUsed, txns);
      Supply(env.db, o.state) + o.burned == Supply(env.db, s)
    decreases |txns|
  {
    hide Journal.Apply, Supply, BalanceIn, ExecuteTransaction, Looked, Checked, NonceOf, AvailableGas;
    if txns != [] {
      var txn := txns[0];
      var s1 := Looked(env, s, txn);
      LookedKeeps(env, s, txn);
      if Validate(env, block, cumulativeGasUsed, s, txn) == Ok {
        TransactionConserves(env, block.beneficiary, s1, txn);
        var t := ExecuteTransaction(env, block.beneficiary, s1, txn);
        TxnsConserve(env, block, t.state, cumulativeGasUsed + t.gasUsed, txns[1..]);
      }
    }
  }

  /** The first check that fails decides: the sender is known, has the nonce of the transaction and the funds for gas and value, and
      the gas limit fits into what is left of the block. */
  lemma ValidateExact(env: Env, block: Block, cumulativeGasUsed: nat, s: State, txn: Txn)
    ensures Validate(env, block, cumulativeGasUsed, s, txn) ==
      match txn.from
      case None => MissingSender
      case Some(a) =>
        var c := FieldsOf(AccountOf(env.db, s, a));
        if c.nonce != txn.nonce then WrongNonce
        else if c.balance < txn.gasLimit * txn.gasPrice + txn.value then InsufficientFunds
        else if AvailableGas(block, cumulativeGasUsed) < txn.gasLimit then BlockGasLimitExceeded
        else Ok
    ensures cumulativeGasUsed <= block.gasLimit < TWO_64 ==>
      (AvailableGas(block, cumulativeGasUsed) < txn.gasLimit <==> cumulativeGasUsed + txn.gasLimit > block.gasLimit)
  {
  }

  lemma Admitted(env: Env, block: Block, cumulativeGasUsed: nat, s: State, txn: Txn)
    requires Validate(env, block, cumulativeGasUsed, s, txn) == Ok
    ensures txn.from.Some? && txn.gasLimit <= AvailableGas(block, cumulativeGasUsed) && Affordable(env, s, txn)
  {
  }

  lemma GasUsedBound(env: Env, beneficiary: Address, s: State, txn: Txn)
    requires txn.from.Some? && Checked(txn)
    ensures ExecuteTransaction(env, beneficiary, s, txn).gasUsed <= txn.gasLimit
  {
    hide Prepare, ExecuteMessage, Awarded, Finish, Held;
  }

  /** The gas that the transaction of receipt `i` used. */
  function Spent(start: nat, receipts: seq<Receipt>, i: nat): (gas: int)
    requires i < |receipts|
  {
    receipts[i].cumulativeGasUsed - if i == 0 then start else receipts[i - 1].cumulativeGasUsed
  }

  /** Cumulative gas grows from `start` to at most `limit`, each step within the limit of its transaction. */
  ghost predicate Ledger(start: nat, limit: nat, txns: seq<Txn>, receipts: seq<Receipt>)
  {
    && |receipts| <= |txns|
    && (forall i | 0 <= i < |receipts| :: start <= receipts[i].cumulativeGasUsed <= limit)
    && (forall i, j | 0 <= i <= j < |receipts| :: receipts[i].cumulativeGasUsed <= receipts[j].cumulativeGasUsed)
    && (forall i | 0 <= i < |receipts| :: Spent(start, receipts, i) <= txns[i].gasLimit)
  }

  /** The gas used never exceeds the gas limit of the block, so the available gas never wraps, and
      the receipts show it growing. */
  lemma {:induction false} TxnsGas(env: Env, block: Block, s: State, cumulativeGasUsed: nat, txns: seq<Txn>)
    requires forall txn <- txns :: Checked(txn)
    requires cumulativeGasUsed <= block.gasLimit < TWO_64
    ensures AvailableGas(block, cumulativeGasUsed) == block.gasLimit - cumulativeGasUsed
    ensures Ledger(cumulativeGasUsed, block.gasLimit, txns, ExecuteTxns(env, block, s, cumulativeGasUsed, txns).receipts)
    decreases |txns|
  {
    hide ExecuteTransaction, Looked, Checked, Validate, Ledger;
    if txns == [] || Validate(env, block, cumulativeGasUsed, s, txns[0]) != Ok {
      LedgerEmpty(cumulativeGasUsed, block.gasLimit, txns);
    } else {
      var txn := txns[0];
      var s1 := Looked(env, s, txn);
      Admitted(env, block, cumulativeGasUsed, s, txn);
      GasUsedBound(env, block.beneficiary, s1, txn);
      var t := ExecuteTransaction(env, block.beneficiary, s1, txn);
      var used := cumulativeGasUsed + t.gasUsed;
      TxnsGas(env, block, t.state, used, txns[1..]);
      LedgerNext(cumulativeGasUsed, block.gasLimit, txns, Receipt(txn.envelope, t.success, used, t.state.logs),
                 ExecuteTxns(env, block, t.state, used, txns[1..]).receipts);
    }
  }

  lemma LedgerEmpty(start: nat, limit: nat, txns: seq<Txn>)
    ensures Ledger(start, limit, txns, [])
  {
  }

  lemma LedgerNext(start: nat, limit: nat, txns: seq<Txn>, first: Receipt, rest: seq<Receipt>)
    requires txns != [] && start <= first.cumulativeGasUsed <= limit && first.cumulativeGasUsed <= start + txns[0].gasLimit
    requires Ledger(first.cumulativeGasUsed, limit, txns[1..], rest)
    ensures Ledger(start, limit, txns, [first] + rest)
  {
    var receipts := [first] + rest;
    forall i | 0 <= i < |receipts|
      ensures Spent(start, receipts, i) <= txns[i].gasLimit
    {
      if i > 0 {
        assert txns[i] == txns[1..][i - 1] && receipts[i] == rest[i - 1];
        assert Spent(start, receipts, i) == Spent(first.cumulativeGasUsed, rest, i - 1);
      }
    }
  }

  // --- rewards ---

  const ETHER: nat := 1_000_000_000_000_000_000

  function BlockReward(rev: Revision): (n: nat)
  {
    if rev >= CONSTANTINOPLE then 2 * ETHER else if rev >= BYZANTIUM then 3 * ETHER else 5 * ETHER
  }

  /** EIP-649 and EIP-1234 lowered the reward twice. */
  lemma RewardSchedule(rev: Revision)
    ensures rev < BYZANTIUM ==> BlockReward(rev) == 5_000_000_000_000_000_000
    ensures BYZANTIUM <= rev < CONSTANTINOPLE ==> BlockReward(rev) == 3_000_000_000_000_000_000
    ensures CONSTANTINOPLE <= rev ==> BlockReward(rev) == 2_000_000_000_000_000_000
  {
  }

  function OmmerReward(reward: nat, number: nat, ommer: Ommer): (v: Word)
  {
    ((8 + ommer.number - number) % TWO_64 * reward) % TWO_256 / 8
  }

  function RewardOmmers(env: Env, block: Block, s: State, ommers: seq<Ommer>): (t: State)
    decreases |ommers|
  {
    if ommers == [] then s
    else RewardOmmers(env, block,
           env.Apply(s, AddToBalance(ommers[0].beneficiary, OmmerReward(BlockReward(env.rev), block.number, ommers[0]))), ommers[1..])
  }

  function MinerReward(rev: Revision, ommers: nat): (v: Word)
  {
    (BlockReward(rev) + ommers * (BlockReward(rev) / 32)) % TWO_256
  }

  function ApplyRewards(env: Env, block: Block, s: State): (t: State)
  {
    env.Apply(RewardOmmers(env, block, s, block.ommers), AddToBalance(block.beneficiary, MinerReward(env.rev, |block.ommers|)))
  }

  /** Sections 11.1 and 11.3 of the Yellow Paper: an ommer is at most six generations old. */
  predicate Recent(number: nat, ommer: Ommer)
  {
    ommer.number < number <= ommer.number + 6
  }

  /** The rewards of the Yellow Paper, in unbounded arithmetic. */
  function OmmerRewards(rev: Revision, number: nat, ommers: seq<Ommer>): (n: nat)
    requires forall o <- ommers :: Recent(number, o)
  {
    if ommers == [] then 0
    else
      assert Recent(number, ommers[0]);
      (8 + ommers[0].number - number) * BlockReward(rev) / 8 + OmmerRewards(rev, number, ommers[1..])
  }

  function Rewards(rev: Revision, block: Block): (n: nat)
    requires forall o <- block.ommers :: Recent(block.number, o)
  {
    BlockReward(rev) + |block.ommers| * (BlockReward(rev) / 32) + OmmerRewards(rev, block.number, block.ommers)
  }

  lemma OmmerRewardExact(rev: Revision, number: nat, ommer: Ommer)
    requires Recent(number, ommer)
    ensures OmmerReward(BlockReward(rev), number, ommer) == (8 + ommer.number - number) * BlockReward(rev) / 8
    ensures 2 <= 8 + ommer.number - number <= 7
  {
  }

  lemma {:induction false} RewardOmmersSupply(env: Env, block: Block, s: State, ommers: seq<Ommer>)
    requires forall o <- ommers :: Recent(block.number, o)
    requires Supply(env.db, s) + OmmerRewards(env.rev, block.number, ommers) < TWO_256
    ensures Supply(env.db, RewardOmmers(env, block, s, ommers)) == Supply(env.db, s) + OmmerRewards(env.rev, block.number, ommers)
    decreases |ommers|
  {
    hide Journal.Apply, Supply, OmmerReward, BlockReward;
    if ommers != [] {
      OmmerRewardExact(env.rev, block.number, ommers[0]);
      var v := OmmerReward(BlockReward(env.rev), block.number, ommers[0]);
      CreditSupply(env, s, ommers[0].beneficiary, v);
      RewardOmmersSupply(env, block, env.Apply(s, AddToBalance(ommers[0].beneficiary, v)), ommers[1..]);
    }
  }

  /** The rewards are paid out exactly. */
  lemma RewardsExact(env: Env, block: Block, s: State)
    requires forall o <- block.ommers :: Recent(block.number, o)
    requires Supply(env.db, s) + Rewards(env.rev, block) < TWO_256
    ensures Supply(env.db, ApplyRewards(env, block, s)) == Supply(env.db, s) + Rewards(env.rev, block)
  {
    hide Journal.Apply, Supply, RewardOmmers, OmmerRewards, BlockReward;
    RewardOmmersSupply(env, block, s, block.ommers);
    CreditSupply(env, RewardOmmers(env, block, s, block.ommers), block.beneficiary, MinerReward(env.rev, |block.ommers|));
  }

  // --- the DAO fork ---

  function DrainAll(env: Env, s: State, children: seq<Address>, refund: Address): (t: State)
    decreases |children|
  {
    if children == [] then s
    else
      var s1 := env.Apply(s, ReadAccount(children[0]));
      var s2 := env.Apply(s1, AddToBalance(refund, BalanceOf(env.db, s, children[0])));
      DrainAll(env, env.Apply(s2, SetBalance(children[0], 0)), children[1..], refund)
  }

  /** The fork moves the ether of the children and leaves none with them. */
  lemma {:induction false} DrainConserves(env: Env, s: State, children: seq<Address>, refund: Address)
    requires refund !in children && Supply(env.db, s) < TWO_256
    ensures Supply(env.db, DrainAll(env, s, children, refund)) == Supply(env.db, s)
    ensures forall a | a != refund ::
      BalanceIn(env.db, DrainAll(env, s, children, refund).objects, a) ==
      if a in children then 0 else BalanceIn(env.db, s.objects, a)
    decreases |children|
  {
    hide Journal.Apply, Supply, BalanceIn;
    if children != [] {
      var db, a := env.db, children[0];
      var v := BalanceOf(db, s, a);
      var s1 := env.Apply(s, ReadAccount(a));
      var s2 := env.Apply(s1, AddToBalance(refund, v));
      var s3 := env.Apply(s2, SetBalance(a, 0));
      ApplyKeeps(db, env.keccak, s, ReadAccount(a));
      TwoBalances(db, s1, a, refund);
      ApplyMoves(db, env.keccak, s1, AddToBalance(refund, v));
      ApplyMoves(db, env.keccak, s2, SetBalance(a, 0));
      DrainConserves(env, s3, children[1..], refund);
      assert children == [a] + children[1..];
    }
  }

  // --- a whole block ---

  datatype Fork = Fork(children: seq<Address>, refund: Address)

  ghost function ExecuteBlock(env: Env, block: Block, s: State, fork: Option<Fork>): (o: BlockOutcome)
    requires forall txn <- block.txns :: Checked(txn)
  {
    var s1 := if fork.Some? then DrainAll(env, s, fork.value.children, fork.value.refund) else s;
    var o := ExecuteTxns(env, block, s1, 0, block.txns);
    if o.verdict != Ok then o else o.(state := ApplyRewards(env, block, o.state))
  }

  /** A block adds exactly the rewards of its miner and ommers, less what self-destruction burns. */
  lemma BlockConserves(env: Env, block: Block, s: State, fork: Option<Fork>)
    requires forall txn <- block.txns :: Checked(txn)
    requires forall o <- block.ommers :: Recent(block.number, o)
    requires fork.Some? ==> fork.value.refund !in fork.value.children
    requires Supply(env.db, s) + Rewards(env.rev, block) < TWO_256
    ensures var o := ExecuteBlock(env, block, s, fork);
      o.verdict == Ok ==> Supply(env.db, o.state) + o.burned == Supply(env.db, s) + Rewards(env.rev, block)
  {
    hide Supply, DrainAll, ExecuteTxns, ApplyRewards, Rewards, Checked, Recent;
    var s1 := if fork.Some? then DrainAll(env, s, fork.value.children, fork.value.refund) else s;
    if fork.Some? { DrainConserves(env, s, fork.value.children, fork.value.refund); }
    var o := ExecuteTxns(env, block, s1, 0, block.txns);
    TxnsConserve(env, block, s1, 0, block.txns);
    RewardsExact(env, block, o.state);
  }
}
