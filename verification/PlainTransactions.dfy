/** A transaction to an account without code, end to end: gas, balances, nonce and receipt
    (core/silkworm/execution/processor.cpp). */
module PlainTransactions {
  import opened Basics
  import opened World
  import opened Journal
  import opened Accounts
  import opened Ether
  import opened Refunds
  import opened Evm
  import opened EvmSupply
  import opened Frames
  import opened Results
  import opened Processor
  import opened Payments

  // --- before the message ---

  /** The sender has paid and, for a call, counted the transaction; code is as before, and nothing is refunded yet. */
  lemma Prepared(env: Env, s: State, txn: Txn, b: Address)
    requires txn.from.Some?
    ensures var t, from := Prepare(env, s, txn), txn.from.value;
      && CodeOf(env.db, t, b) == CodeOf(env.db, s, b) && t.refund == 0 && t.selfDestructs == {} && t.logs == []
      && from in t.accessedAddresses && (txn.to.Some? ==> txn.to.value in t.accessedAddresses)
      && NonceOf(env.db, t, from) == (if txn.to.Some? then (txn.nonce + 1) % TWO_64 else NonceOf(env.db, s, from))
      && (b != from ==> NonceOf(env.db, t, b) == NonceOf(env.db, s, b))
  {
    hide Journal.Apply, ApplyAll, CodeOf, WarmOps, Product;
    var from := txn.from.value;
    var s0 := ClearSubstate(s);
    var s1 := env.Apply(s0, WarmAccount(from));
    var pay := SubtractFromBalance(from, Product(txn.gasLimit, txn.gasPrice));
    var s2 := env.Apply(s1, pay);
    ClearedSame(env, s, b);
    ClearedSame(env, s, from);
    Step(env, s0, WarmAccount(from), b);
    Step(env, s0, WarmAccount(from), from);
    Step(env, s1, pay, b);
    Step(env, s1, pay, from);
    var s3 := s2;
    if txn.to.Some? {
      var warm, count := WarmAccount(txn.to.value), SetNonce(from, (txn.nonce + 1) % TWO_64);
      var s25 := env.Apply(s2, warm);
      Step(env, s2, warm, b);
      Step(env, s2, warm, from);
      Step(env, s25, count, b);
      Step(env, s25, count, from);
      s3 := env.Apply(s25, count);
    }
    WarmOnly(txn.accessList);
    Steps(env, s3, WarmOps(txn.accessList), b);
    Steps(env, s3, WarmOps(txn.accessList), from);
  }

  lemma ClearedSame(env: Env, s: State, b: Address)
    ensures var t := ClearSubstate(s);
      && CodeOf(env.db, t, b) == CodeOf(env.db, s, b) && NonceOf(env.db, t, b) == NonceOf(env.db, s, b)
      && t.refund == 0 && t.selfDestructs == {} && t.logs == []
  {
  }

  /** What the operations before the message leave alone. */
  lemma Step(env: Env, s: State, op: Op, b: Address)
    requires op.WarmAccount? || op.WarmStorage? || op.SubtractFromBalance? || op.SetNonce?
    ensures var t := env.Apply(s, op);
      && CodeOf(env.db, t, b) == CodeOf(env.db, s, b)
      && NonceOf(env.db, t, b) == (if op.SetNonce? && op.a == b then op.n else NonceOf(env.db, s, b))
      && t.refund == s.refund && t.selfDestructs == s.selfDestructs && t.logs == s.logs && s.accessedAddresses <= t.accessedAddresses
      && (op.WarmAccount? ==> op.a in t.accessedAddresses)
  {
    hide Put, Touch;
    OtherDestructs(env, s, op);
    match op
    case WarmAccount(a) => WarmRest(s, a);
    case WarmStorage(a, k) => WarmKeyRest(s, a, k);
    case SubtractFromBalance(a, v) =>
      BalanceIsMoved(env.db, env.keccak, s, a, v);
      PutCode(env.db, s, a, Debit(v));
      PutAccesses(env.db, s, a, Debit(v));
      TouchRest(Put(env.db, s, a, Debit(v)), a);
    case SetNonce(a, n) =>
      NonceIsSet(env.db, env.keccak, s, a, n);
      PutCode(env.db, s, a, ToNonce(n));
      PutAccesses(env.db, s, a, ToNonce(n));
  }

  lemma PutAccesses(db: Db, s: State, a: Address, e: Edit)
    ensures Put(db, s, a, e).accessedAddresses == s.accessedAddresses && Put(db, s, a, e).logs == s.logs
  {
    hide Edited, Fetch;
    FetchRest(db, s, a);
  }

  lemma {:induction false} Steps(env: Env, s: State, ops: seq<Op>, b: Address)
    requires forall op <- ops :: op.WarmAccount? || op.WarmStorage?
    ensures var t := ApplyAll(env.db, env.keccak, s, ops);
      && CodeOf(env.db, t, b) == CodeOf(env.db, s, b) && NonceOf(env.db, t, b) == NonceOf(env.db, s, b)
      && t.refund == s.refund && t.selfDestructs == s.selfDestructs && t.logs == s.logs && s.accessedAddresses <= t.accessedAddresses
    decreases |ops|
  {
    hide Journal.Apply, CodeOf, NonceOf;
    if ops != [] {
      Step(env, s, ops[0], b);
      assert ops[0] in ops && !ops[0].SetNonce?;
      Steps(env, env.Apply(s, ops[0]), ops[1..], b);
    }
  }

  // --- what is warm ---

  /** The account is named by the access list; the slot is. */
  predicate Named(list: seq<(Address, seq<Word>)>, a: Address)
  {
    exists i :: 0 <= i < |list| && list[i].0 == a
  }

  predicate NamedSlot(list: seq<(Address, seq<Word>)>, a: Address, k: Word)
  {
    exists i :: 0 <= i < |list| && list[i].0 == a && k in list[i].1
  }

  lemma {:induction false} KeysListed(a: Address, keys: seq<Word>, op: Op)
    ensures op in WarmKeys(a, keys) <==> op.WarmStorage? && op.a == a && op.k in keys
  {
    if keys != [] {
      assert keys == [keys[0]] + keys[1..];
      KeysListed(a, keys[1..], op);
    }
  }

  lemma {:induction false} OpsListed(list: seq<(Address, seq<Word>)>, op: Op)
    ensures op in WarmOps(list) <==>
      (op.WarmAccount? && Named(list, op.a)) || (op.WarmStorage? && NamedSlot(list, op.a, op.k))
  {
    if list != [] {
      var first, rest := list[0], list[1..];
      assert list == [first] + rest;
      KeysListed(first.0, first.1, op);
      OpsListed(rest, op);
      if op.WarmAccount? { NamedNext(list, op.a, 0); }
      if op.WarmStorage? { NamedNext(list, op.a, op.k); }
    }
  }

  lemma NamedNext(list: seq<(Address, seq<Word>)>, a: Address, k: Word)
    requires list != []
    ensures Named(list, a) <==> list[0].0 == a || Named(list[1..], a)
    ensures NamedSlot(list, a, k) <==> (list[0].0 == a && k in list[0].1) || NamedSlot(list[1..], a, k)
  {
    var rest := list[1..];
    if Named(rest, a) {
      var i :| 0 <= i < |rest| && rest[i].0 == a;
      assert list[i + 1] == rest[i];
    }
    if NamedSlot(rest, a, k) {
      var i :| 0 <= i < |rest| && rest[i].0 == a && k in rest[i].1;
      assert list[i + 1] == rest[i];
    }
    if Named(list, a) && list[0].0 != a {
      var i :| 0 <= i < |list| && list[i].0 == a;
      assert rest[i - 1] == list[i];
    }
    if NamedSlot(list, a, k) && !(list[0].0 == a && k in list[0].1) {
      var i :| 0 <= i < |list| && list[i].0 == a && k in list[i].1;
      assert rest[i - 1] == list[i];
    }
  }

  lemma WarmedOne(env: Env, s: State, op: Op, a: Address, k: Word)
    requires op.WarmAccount? || op.WarmStorage? || op.SubtractFromBalance? || op.SetNonce?
    ensures var t := env.Apply(s, op);
      && (a in t.accessedAddresses <==> a in s.accessedAddresses || op == WarmAccount(a))
      && (k in AccessedKeys(t, a) <==> k in AccessedKeys(s, a) || op == WarmStorage(a, k))
  {
    hide Put, Touch;
    match op
    case WarmAccount(b) => WarmRest(s, b);
    case WarmStorage(b, j) => WarmKeyRest(s, b, j);
    case SubtractFromBalance(b, v) =>
      PutKeys(env.db, s, b, Debit(v));
      TouchRest(Put(env.db, s, b, Debit(v)), b);
    case SetNonce(b, n) => PutKeys(env.db, s, b, ToNonce(n));
  }

  lemma PutKeys(db: Db, s: State, a: Address, e: Edit)
    ensures Put(db, s, a, e).accessedAddresses == s.accessedAddresses && Put(db, s, a, e).accessedKeys == s.accessedKeys
  {
    hide Edited, Fetch;
    FetchRest(db, s, a);
  }

  lemma {:induction false} WarmedAll(env: Env, s: State, ops: seq<Op>, a: Address, k: Word)
    requires forall op <- ops :: op.WarmAccount? || op.WarmStorage?
    ensures var t := ApplyAll(env.db, env.keccak, s, ops);
      && (a in t.accessedAddresses <==> a in s.accessedAddresses || WarmAccount(a) in ops)
      && (k in AccessedKeys(t, a) <==> k in AccessedKeys(s, a) || WarmStorage(a, k) in ops)
    decreases |ops|
  {
    hide Journal.Apply, AccessedKeys;
    if ops != [] {
      assert ops == [ops[0]] + ops[1..];
      WarmedOne(env, s, ops[0], a, k);
      WarmedAll(env, env.Apply(s, ops[0]), ops[1..], a, k);
    }
  }

  /** EIP-2929 and EIP-2930: when the message starts, sender, recipient and what the access list names are warm, and nothing else. */
  lemma WarmBefore(env: Env, s: State, txn: Txn, a: Address, k: Word)
    requires txn.from.Some?
    ensures var t := Prepare(env, s, txn);
      && (a in t.accessedAddresses <==> a == txn.from.value || txn.to == Some(a) || Named(txn.accessList, a))
      && (k in AccessedKeys(t, a) <==> NamedSlot(txn.accessList, a, k))
  {
    hide Journal.Apply, ApplyAll, WarmOps, Product, AccessedKeys, Named, NamedSlot;
    var from := txn.from.value;
    var s0 := ClearSubstate(s);
    NothingWarm(s, a, k);
    var pay := SubtractFromBalance(from, Product(txn.gasLimit, txn.gasPrice));
    WarmedOne(env, s0, WarmAccount(from), a, k);
    var s1 := env.Apply(s0, WarmAccount(from));
    WarmedOne(env, s1, pay, a, k);
    var s3 := env.Apply(s1, pay);
    if txn.to.Some? {
      var warm, count := WarmAccount(txn.to.value), SetNonce(from, (txn.nonce + 1) % TWO_64);
      WarmedOne(env, s3, warm, a, k);
      WarmedOne(env, env.Apply(s3, warm), count, a, k);
      s3 := env.Apply(env.Apply(s3, warm), count);
    }
    WarmOnly(txn.accessList);
    WarmedAll(env, s3, WarmOps(txn.accessList), a, k);
    OpsListed(txn.accessList, WarmAccount(a));
    OpsListed(txn.accessList, WarmStorage(a, k));
  }

  lemma NothingWarm(s: State, a: Address, k: Word)
    ensures a !in ClearSubstate(s).accessedAddresses && k !in AccessedKeys(ClearSubstate(s), a)
  {
  }

  // --- the message ---

  /** The message of a transaction: sender, value and data are its own, the gas is what the intrinsic gas leaves, and it is a
      creation if and only if there is no recipient. */
  lemma MessageIs(txn: Txn)
    requires txn.from.Some? && Checked(txn)
    ensures var m := MessageOf(txn);
      && m.sender == txn.from.value && m.value == txn.value && m.input == txn.data && !m.readOnly
      && m.gas + txn.intrinsicGas == txn.gasLimit
      && (m.kind == CREATE <==> txn.to.None?) && (m.kind == CALL <==> txn.to == Some(m.destination))
  {
  }

  /** Nothing to refund, no self-destruct, no log and no nonce has come between `s` and `t`. */
  ghost predicate Calm(db: Db, s: State, t: State)
  {
    && t.refund == s.refund && t.selfDestructs == s.selfDestructs && t.logs == s.logs
    && forall b :: NonceOf(db, t, b) == NonceOf(db, s, b)
  }

  lemma CalmThen(db: Db, s: State, t: State, u: State)
    requires Calm(db, s, t) && Calm(db, t, u)
    ensures Calm(db, s, u)
  {
    hide NonceOf;
  }

  lemma CalmStep(env: Env, s: State, op: Op)
    requires op.ReadAccount? || op.ReadCode? || op.SubtractFromBalance? || op.AddToBalance? || op.TouchAccount?
    ensures Calm(env.db, s, env.Apply(s, op))
  {
    hide Put, Touch, Fetch;
    match op
    case ReadAccount(a) =>
      FetchRest(env.db, s, a);
      forall b ensures NonceOf(env.db, env.Apply(s, op), b) == NonceOf(env.db, s, b) { LookKeepsCode(env, s, a, b); }
    case ReadCode(a) =>
      FetchRest(env.db, s, a);
      forall b ensures NonceOf(env.db, env.Apply(s, op), b) == NonceOf(env.db, s, b) { ReadCodeKeeps(env, s, a, b); }
    case TouchAccount(a) => TouchRest(s, a);
    case SubtractFromBalance(a, v) =>
      BalanceIsMoved(env.db, env.keccak, s, a, v);
      ChangeKeeps(env.db, s, a, Debit(v));
    case AddToBalance(a, v) =>
      BalanceIsMoved(env.db, env.keccak, s, a, v);
      ChangeKeeps(env.db, s, a, Credit(v));
  }

  lemma ChangeKeeps(db: Db, s: State, a: Address, e: Edit)
    ensures var t := ChangeBalance(db, s, a, e); t.refund == s.refund && t.selfDestructs == s.selfDestructs && t.logs == s.logs
  {
    hide Touch, Edited;
    ChangeDestructs(db, s, a, e);
    PutAccesses(db, s, a, e);
    TouchRest(Put(db, s, a, e), a);
  }

  lemma CalmPaid(env: Env, s: State, m: Message)
    ensures Calm(env.db, s, Paid(env, s, m))
  {
    hide Journal.Apply, Calm;
    CalmNothing(env.db, s);
    if m.kind == CALL {
      if m.readOnly {
        CalmStep(env, s, TouchAccount(m.destination));
      } else {
        var t := env.Apply(s, SubtractFromBalance(m.sender, m.value));
        CalmStep(env, s, SubtractFromBalance(m.sender, m.value));
        CalmStep(env, t, AddToBalance(m.destination, m.value));
        CalmThen(env.db, s, t, env.Apply(t, AddToBalance(m.destination, m.value)));
      }
    }
  }

  lemma CalmNothing(db: Db, s: State)
    ensures Calm(db, s, s)
  {
  }

  lemma CalmBefore(env: Env, s: State, m: Message)
    ensures Calm(env.db, s, BeforePayment(env, s, m))
    ensures m.kind != DELEGATECALL ==> Calm(env.db, s, env.Apply(s, ReadAccount(m.sender)))
  {
    hide Journal.Apply, Calm;
    CalmNothing(env.db, s);
    CalmStep(env, s, ReadAccount(m.sender));
    var s1 := if m.kind != DELEGATECALL then env.Apply(s, ReadAccount(m.sender)) else s;
    CalmStep(env, s1, ReadAccount(m.destination));
    CalmThen(env.db, s, s1, env.Apply(s1, ReadAccount(m.destination)));
  }

  /** A call without a program gathers nothing to refund and no logs. */
  lemma IdleCall(env: Env, s: State, m: Message, p: Program)
    requires !Runs(env, s, m) && RunCall(env, s, m, p).result.status == SUCCESS
    ensures Calm(env.db, s, RunCall(env, s, m, p).state)
  {
    hide Journal.Apply, Paid, CodeOf, IsPrecompiled, BackTo, PerformAll, Calm;
    var s2 := BeforePayment(env, s, m);
    var s3 := Paid(env, s2, m);
    BeforeKeepsCode(env, s, m, m.destination);
    BeforeKeepsCode(env, s, m, m.sender);
    PaidKeepsCode(env, s2, m, m.destination);
    CalmBefore(env, s, m);
    CalmPaid(env, s2, m);
    CalmThen(env.db, s, s2, s3);
    CalmStep(env, s3, ReadCode(m.destination));
    CalmThen(env.db, s, s3, env.Apply(s3, ReadCode(m.destination)));
  }

  // --- the end ---

  /** Awarding and finishing keep the nonce of an account that neither destructs itself nor is dead. */
  lemma NonceSurvives(env: Env, beneficiary: Address, s: State, txn: Txn, back: nat, b: Address)
    requires txn.from.Some? && back <= txn.gasLimit && s.selfDestructs == {} && NonceOf(env.db, s, b) != 0
    ensures var t := Finish(env, Awarded(env, beneficiary, s, txn, back)); NonceOf(env.db, t, b) == NonceOf(env.db, s, b) && t.logs == s.logs
  {
    hide Journal.Apply, Finish, Product;
    var give := AddToBalance(txn.from.value, Product(back, txn.gasPrice));
    var s1 := env.Apply(s, give);
    var pay := AddToBalance(beneficiary, Product(txn.gasLimit - back, txn.gasPrice));
    CalmStep(env, s, give);
    CalmStep(env, s1, pay);
    FinishNonce(env, env.Apply(s1, pay), b);
  }

  lemma FinishNonce(env: Env, s: State, b: Address)
    requires s.selfDestructs == {} && NonceOf(env.db, s, b) != 0
    ensures NonceOf(env.db, Finish(env, s), b) == NonceOf(env.db, s, b) && Finish(env, s).logs == s.logs
  {
    hide DestructAll, Load, Finalize;
    DestructNone(env.db, s);
    var dead := set a | a in s.touched && Dead(env.db, s, a);
    LoadKeeps(env.db, s, s.touched);
    var u := Load(env.db, s, s.touched);
    DestructAllAt(env.db, u, dead, b);
    LoadedRest(env.db, s, s.touched, dead);
    DestructedObject(env.db, u, dead, b);
    FinalizeKeeps(if env.rev >= SPURIOUS_DRAGON then ClearDead(env.db, s) else s);
  }

  lemma FinalizeKeeps(s: State)
    ensures Finalize(s).objects == s.objects && Finalize(s).logs == s.logs
  {
  }

  // --- the whole transaction ---

  /** A transaction to an account without code uses exactly the intrinsic gas, moves exactly the value, pays exactly that gas, and
      counts the transaction. */
  lemma PlainTransaction(env: Env, beneficiary: Address, s: State, txn: Txn, b: Address)
    requires txn.from.Some? && txn.to.Some? && Checked(txn) && Affordable(env, s, txn) && Supply(env.db, s) < TWO_256
    requires txn.value > 0 && !IsPrecompiled(env.rev, txn.to.value) && CodeOf(env.db, s, txn.to.value) == []
    requires txn.nonce + 1 < TWO_64
    ensures var o, from := ExecuteTransaction(env, beneficiary, s, txn), txn.from.value;
      && o.success && o.gasUsed == txn.intrinsicGas && o.state.logs == []
      && NonceOf(env.db, o.state, from) == txn.nonce + 1
      && BalanceOf(env.db, o.state, b) ==
         BalanceOf(env.db, s, b) + Gain(from, txn.to.value, txn.value, b) + Gain(from, beneficiary, txn.intrinsicGas * txn.gasPrice, b)
  {
    hide Journal.Apply, Supply, BalanceIn, Prepare, RunCall, RunCreate, Awarded, Finish, GasBack, Held, CodeOf, IsPrecompiled, ExecuteTransaction, NonceOf, Paid;
    var from, p := txn.from.value, Prepare(env, s, txn);
    var m := MessageOf(txn);
    Prepared(env, s, txn, txn.to.value);
    PreparePays(env, s, txn, b);
    PreparePays(env, s, txn, from);
    PrepareSupply(env, s, txn);
    CallWithoutProgram(env, p, m, txn.program);
    IdleCall(env, p, m, txn.program);
    PlainCode(env, p, m);
    PlainCallPays(env, p, m, txn.program, b);
    SuppliedCall(env, p, m, txn.program);
    var u := RunCall(env, p, m, txn.program).state;
    GasUsedExact(env, beneficiary, s, txn);
    var back := txn.gasLimit - txn.intrinsicGas;
    NothingBack(env, u, txn.gasLimit, back);
    PlainEnd(env, beneficiary, s, txn);
    AwardedPays(env, beneficiary, u, txn, back, b);
    AwardedDestructs(env, beneficiary, u, txn, back);
    FinishKeeps(env, Awarded(env, beneficiary, u, txn, back), b);
    NonceSurvives(env, beneficiary, u, txn, back, from);
    SplitPrice(txn.gasLimit, back, txn.intrinsicGas, txn.gasPrice);
  }

  lemma SplitPrice(limit: nat, back: nat, used: nat, price: nat)
    requires limit == back + used
    ensures limit * price == back * price + used * price
  {
  }

  lemma NothingBack(env: Env, s: State, gasLimit: nat, gasLeft: nat)
    requires gasLeft <= gasLimit && s.refund == 0 && s.selfDestructs == {}
    ensures GasBack(env, s, gasLimit, gasLeft) == gasLeft
  {
    RefundCapped(env, s, gasLimit, gasLeft);
  }

  lemma PlainCode(env: Env, s: State, m: Message)
    requires m.kind == CALL && CodeOf(env.db, s, m.destination) == []
    ensures CodeOf(env.db, Paid(env, env.Apply(s, ReadAccount(m.sender)), m), m.destination) == []
  {
    hide Journal.Apply, Paid;
    LookKeepsCode(env, s, m.sender, m.destination);
    PaidKeepsCode(env, env.Apply(s, ReadAccount(m.sender)), m, m.destination);
  }

  lemma SuppliedCall(env: Env, s: State, m: Message, p: Program)
    requires Supply(env.db, s) < TWO_256
    ensures Supply(env.db, RunCall(env, s, m, p).state) <= Supply(env.db, s)
  {
    hide RunCall, Supply;
    CallConserves(env, s, m, p);
  }

  lemma PlainEnd(env: Env, beneficiary: Address, s: State, txn: Txn)
    requires txn.from.Some? && txn.to.Some? && Checked(txn)
    ensures var u := RunCall(env, Prepare(env, s, txn), MessageOf(txn), txn.program);
      && u.result.gasLeft <= txn.gasLimit
      && ExecuteTransaction(env, beneficiary, s, txn).state ==
         Finish(env, Awarded(env, beneficiary, u.state, txn, GasBack(env, u.state, txn.gasLimit, u.result.gasLeft)))
  {
    hide Prepare, RunCall, Awarded, Finish, GasBack, Held;
    MessageGas(env, Prepare(env, s, txn), txn);
  }
}
