/** Transactions and blocks of core/silkworm/execution/processor.cpp refine the flat maps, and their refunds
    cover the slots they clear: they are runs of host steps. */
module Refinement {
  import opened Basics
  import opened World
  import opened Journal
  import opened FlatState
  import opened Ether
  import opened Refunds
  import opened Evm
  import opened EvmSupply
  import opened Processor
  import opened Traces

  // --- a transaction as a run ---

  function PrepareOps(txn: Txn): (ops: seq<Op>)
    requires txn.from.Some?
  {
    var from := txn.from.value;
    [WarmAccount(from), SubtractFromBalance(from, Product(txn.gasLimit, txn.gasPrice))] +
    (if txn.to.Some? then [WarmAccount(txn.to.value), SetNonce(from, (txn.nonce + 1) % TWO_64)] else []) +
    WarmOps(txn.accessList)
  }

  function AwardOps(beneficiary: Address, txn: Txn, back: nat): (ops: seq<Op>)
    requires txn.from.Some? && back <= txn.gasLimit
  {
    [AddToBalance(txn.from.value, Product(back, txn.gasPrice)),
     AddToBalance(beneficiary, Product(txn.gasLimit - back, txn.gasPrice))]
  }

  function MessageSteps(env: Env, s: State, txn: Txn): (steps: seq<HostStep>)
    requires txn.from.Some? && Checked(txn)
  {
    if txn.to.None? then TraceCreate(env, s, 0, MessageOf(txn), txn.program) else TraceCall(env, s, 0, MessageOf(txn), txn.program)
  }

  /** What a transaction does up to the end of its message. */
  function MainSteps(env: Env, s: State, txn: Txn): (steps: seq<HostStep>)
    requires txn.from.Some? && Checked(txn)
  {
    Others(PrepareOps(txn)) + MessageSteps(env, Prepare(env, s, txn), txn)
  }

  /** The gas that is given back. */
  ghost function Returned(env: Env, s: State, txn: Txn): (back: nat)
    requires txn.from.Some? && Checked(txn)
    ensures back <= txn.gasLimit
  {
    var m := ExecuteMessage(env, Prepare(env, s, txn), txn);
    MessageGas(env, Prepare(env, s, txn), txn);
    GasBack(env, m.state, txn.gasLimit, m.result.gasLeft)
  }

  lemma PrepareState(env: Env, s: State, txn: Txn)
    requires txn.from.Some?
    ensures ApplyAll(env.db, env.keccak, ClearSubstate(s), PrepareOps(txn)) == Prepare(env, s, txn)
  {
    hide Journal.Apply, ApplyAll, Product, WarmOps;
    var db, keccak, from := env.db, env.keccak, txn.from.value;
    var s0 := ClearSubstate(s);
    var pay := SubtractFromBalance(from, Product(txn.gasLimit, txn.gasPrice));
    var x, z := [WarmAccount(from), pay], WarmOps(txn.accessList);
    var y := if txn.to.Some? then [WarmAccount(txn.to.value), SetNonce(from, (txn.nonce + 1) % TWO_64)] else [];
    ApplyAllAppend(db, keccak, s0, x + y, z);
    ApplyAllAppend(db, keccak, s0, x, y);
    TwoOps(env, s0, WarmAccount(from), pay);
    var s2 := env.Apply(env.Apply(s0, WarmAccount(from)), pay);
    if txn.to.Some? {
      TwoOps(env, s2, WarmAccount(txn.to.value), SetNonce(from, (txn.nonce + 1) % TWO_64));
    } else {
      NoOps(env, s2);
    }
  }

  lemma MainLeads(env: Env, s: State, txn: Txn)
    requires txn.from.Some? && Checked(txn)
    ensures Leads(env, ClearSubstate(s), 0, MainSteps(env, s, txn), ExecuteMessage(env, Prepare(env, s, txn), txn).state)
  {
    hide Leads, ApplyAll, Prepare, Others, TraceCall, TraceCreate, RunCall, RunCreate, After, PrepareOps;
    var p := Prepare(env, s, txn);
    LeadsOps(env, ClearSubstate(s), 0, PrepareOps(txn));
    PrepareState(env, s, txn);
    CallLeads(env, p, 0, MessageOf(txn), txn.program);
    CreateLeads(env, p, 0, MessageOf(txn), txn.program);
    LeadsThen(env, ClearSubstate(s), 0, Others(PrepareOps(txn)), p, MessageSteps(env, p, txn), ExecuteMessage(env, p, txn).state);
  }

  /** The steps of the whole transaction, up to the disappearance of accounts. */
  ghost function TxnSteps(env: Env, beneficiary: Address, s: State, txn: Txn): (steps: seq<HostStep>)
    requires txn.from.Some? && Checked(txn)
  {
    MainSteps(env, s, txn) + Others(AwardOps(beneficiary, txn, Returned(env, s, txn)))
  }

  ghost function BeforeFinish(env: Env, beneficiary: Address, s: State, txn: Txn): (t: State)
    requires txn.from.Some? && Checked(txn)
  {
    Awarded(env, beneficiary, ExecuteMessage(env, Prepare(env, s, txn), txn).state, txn, Returned(env, s, txn))
  }

  lemma TxnLeads(env: Env, beneficiary: Address, s: State, txn: Txn)
    requires txn.from.Some? && Checked(txn)
    ensures Leads(env, ClearSubstate(s), 0, TxnSteps(env, beneficiary, s, txn), BeforeFinish(env, beneficiary, s, txn))
    ensures ExecuteTransaction(env, beneficiary, s, txn).state == Finish(env, BeforeFinish(env, beneficiary, s, txn))
  {
    hide Leads, Journal.Apply, ApplyAll, Prepare, Others, ExecuteMessage, After, MainSteps, GasBack, Product, Finish;
    var m := ExecuteMessage(env, Prepare(env, s, txn), txn).state;
    var back := Returned(env, s, txn);
    MainLeads(env, s, txn);
    var n := After(0, MainSteps(env, s, txn));
    LeadsOps(env, m, n, AwardOps(beneficiary, txn, back));
    TwoOps(env, m, AwardOps(beneficiary, txn, back)[0], AwardOps(beneficiary, txn, back)[1]);
    LeadsThen(env, ClearSubstate(s), 0, MainSteps(env, s, txn), m, Others(AwardOps(beneficiary, txn, back)), BeforeFinish(env, beneficiary, s, txn));
  }

  lemma TxnEnds(env: Env, beneficiary: Address, s: State, txn: Txn)
    requires txn.from.Some? && Checked(txn)
    ensures var o := ExecuteTransaction(env, beneficiary, s, txn);
      && o.state == Finish(env, BeforeFinish(env, beneficiary, s, txn)) && o.gasUsed == txn.gasLimit - Returned(env, s, txn)
      && o.success == (ExecuteMessage(env, Prepare(env, s, txn), txn).result.status == SUCCESS)
  {
    hide Finish, ExecuteMessage, Prepare, Awarded, GasBack, Held;
  }

  lemma LeadsRuns(env: Env, s: State, steps: seq<HostStep>, t: State)
    requires Leads(env, s, 0, steps, t)
    ensures Consistent(env.db, Machine(s, [])) && HostProper(0, steps)
    ensures HostRun(env.db, env.keccak, env.rev, Machine(s, []), steps).now == t
  {
    hide HostRun, HostProper;
    assert Consistent(env.db, Machine(s, []));
    assert Arrives(env, Machine(s, []), steps, t);
  }

  // --- one transaction refines the flat maps ---

  /** The flat maps with nothing pending, as a transaction begins. */
  function Begun(f: Flat): (g: Flat)
  {
    f.(sub := NOTHING)
  }

  /** Between transactions: the caches stand for the flat maps, and all storage is committed. */
  ghost predicate Between(db: Db, s: State, f: Flat)
  {
    Sound(db, s, f) && f.original == f.current
  }

  lemma BetweenStarts(db: Db, s: State, f: Flat)
    requires DbOk(db) && Between(db, s, f)
    ensures Starts(db, ClearSubstate(s), Begun(f))
  {
    hide Sound;
    SoundAside(db, s, f, NOTHING, f.novel);
    SoundCopy(db, s, ClearSubstate(s), Begun(f));
  }

  /** When the message of a transaction ends, the refund counter pays for every slot it has cleared,
      and no subtraction has gone below zero. */
  lemma TransactionRefund(env: Env, s: State, txn: Txn, f: Flat)
    requires txn.from.Some? && Checked(txn) && DbOk(env.db) && Between(env.db, s, f)
    requires LegalHostRun(env.db, env.keccak, Begun(f), [], MainSteps(env, s, txn))
    ensures var t := ExecuteMessage(env, Prepare(env, s, txn), txn).state;
      var g := FlatHostRun(env.db, env.keccak, Begun(f), [], MainSteps(env, s, txn));
      var r := CountRun(env.db, env.keccak, env.rev, Begun(f), [], Counter(0, []), MainSteps(env, s, txn)).r;
      && Matches(env.db, t, g) && t.refund == r % TWO_64 && r >= ClearRefund(env.rev) * |Cleared(g)|
  {
    hide Matches, LegalHostRun, FlatHostRun, CountRun, MainSteps, ExecuteMessage, Prepare, Cleared, HostRun, NeverWraps, Leads, ClearRefund, Starts;
    MainLeads(env, s, txn);
    var steps := MainSteps(env, s, txn);
    LeadsRuns(env, ClearSubstate(s), steps, ExecuteMessage(env, Prepare(env, s, txn), txn).state);
    BetweenStarts(env.db, s, f);
    RefundCoversCleared(env.db, env.keccak, env.rev, ClearSubstate(s), Begun(f), steps);
  }

  /** What the sender is spared of the gas used is exactly what the counter of the run has gathered, self-destructs included before
      London, up to the cap; so every slot cleared is paid for, up to the cap. */
  lemma SenderRefunded(env: Env, beneficiary: Address, s: State, txn: Txn, f: Flat)
    requires txn.from.Some? && Checked(txn) && DbOk(env.db) && Between(env.db, s, f)
    requires LegalHostRun(env.db, env.keccak, Begun(f), [], MainSteps(env, s, txn))
    ensures var m, o := ExecuteMessage(env, Prepare(env, s, txn), txn), ExecuteTransaction(env, beneficiary, s, txn);
      var g := FlatHostRun(env.db, env.keccak, Begun(f), [], MainSteps(env, s, txn));
      var r := CountRun(env.db, env.keccak, env.rev, Begun(f), [], Counter(0, []), MainSteps(env, s, txn)).r;
      var counter := r + if env.rev >= LONDON then 0 else 24_000 * |g.sub.selfDestructs|;
      var used := txn.gasLimit - m.result.gasLeft;
      var cap := if env.rev >= LONDON then used / 5 else used / 2;
      counter < TWO_64 ==>
        && used - o.gasUsed == (if counter < cap then counter else cap)
        && (used - o.gasUsed >= ClearRefund(env.rev) * |Cleared(g)| || used - o.gasUsed == cap)
  {
    hide Matches, LegalHostRun, FlatHostRun, CountRun, MainSteps, ExecuteMessage, Prepare, Cleared, ClearRefund, ExecuteTransaction, GasBack, Between;
    TransactionRefund(env, s, txn, f);
    GasUsedExact(env, beneficiary, s, txn);
    var m := ExecuteMessage(env, Prepare(env, s, txn), txn);
    var g := FlatHostRun(env.db, env.keccak, Begun(f), [], MainSteps(env, s, txn));
    MatchesDestructs(env.db, m.state, g);
    RefundCapped(env, m.state, txn.gasLimit, m.result.gasLeft);
    var r := CountRun(env.db, env.keccak, env.rev, Begun(f), [], Counter(0, []), MainSteps(env, s, txn)).r;
    assert ClearRefund(env.rev) * |Cleared(g)| >= 0;
    WithinWord(r, 24_000 * |g.sub.selfDestructs|);
  }

  lemma MatchesDestructs(db: Db, s: State, f: Flat)
    requires Matches(db, s, f)
    ensures s.selfDestructs == f.sub.selfDestructs
  {
  }

  lemma WithinWord(r: int, d: nat)
    requires r >= 0
    ensures r < TWO_64 ==> r % TWO_64 == r
    ensures r + d < TWO_64 ==> (r % TWO_64 + d) % TWO_64 == r + d
  {
  }

  ghost predicate LegalTxn(env: Env, beneficiary: Address, s: State, txn: Txn, f: Flat)
    requires txn.from.Some? && Checked(txn)
  {
    LegalHostRun(env.db, env.keccak, Begun(f), [], TxnSteps(env, beneficiary, s, txn))
  }

  /** The flat maps after a transaction. */
  ghost function FlatTxn(env: Env, beneficiary: Address, s: State, txn: Txn, f: Flat): (g: Flat)
    requires txn.from.Some? && Checked(txn) && LegalTxn(env, beneficiary, s, txn, f)
  {
    FlatEnd(FlatHostRun(env.db, env.keccak, Begun(f), [], TxnSteps(env, beneficiary, s, txn)), env.rev >= SPURIOUS_DRAGON)
  }

  lemma SoundSame(db: Db, t: State, u: State, f: Flat)
    requires Sound(db, t, f) && SameObjects(db, t.objects, u.objects) && u.storage == t.storage && Loaded(db, u.objects, u.storage)
    ensures Sound(db, u, f)
  {
    forall a
      ensures ViewAt(db, a, ObjectIn(db, u.objects, a), StorageIn(u.storage, a), f)
      ensures TidyAt(ObjectIn(db, u.objects, a), StorageIn(u.storage, a))
    {
      assert ObjectIn(db, t.objects, a) == ObjectIn(db, u.objects, a);
      assert ViewAt(db, a, ObjectIn(db, t.objects, a), StorageIn(t.storage, a), f);
      assert TidyAt(ObjectIn(db, t.objects, a), StorageIn(t.storage, a));
    }
  }

  lemma FinishLoaded(env: Env, s: State)
    requires Loaded(env.db, s.objects, s.storage)
    ensures Loaded(env.db, Finish(env, s).objects, Finish(env, s).storage)
    ensures forall a <- Finish(env, s).storage :: Finish(env, s).storage[a].current == map[]
  {
    hide DestructAll, Load, CommittedStorage;
    var db := env.db;
    var s1 := DestructAll(db, s, s.selfDestructs);
    DestructRest(db, s, s.selfDestructs);
    var dead := set a | a in s1.touched && Dead(db, s1, a);
    var s2 := if env.rev >= SPURIOUS_DRAGON then ClearDead(db, s1) else s1;
    if env.rev >= SPURIOUS_DRAGON { ClearDeadRest(db, s1); }
    forall a | a in s2.storage && a in db.accounts
      ensures a in s2.objects
    {
      assert a in s.storage && a in s.objects;
      DestructAllAt(db, s, s.selfDestructs, a);
      LoadedAt(db, s1, s1.touched, dead, a);
    }
    forall a | a in s2.storage ensures CommittedStorage(s2.storage[a]).current == map[] { CommittedClean(s2.storage[a]); }
  }

  lemma CommittedClean(x: Storage)
    ensures CommittedStorage(x).current == map[]
  {
  }

  /** A transaction acts on the caches as its steps act on the flat maps. */
  lemma TransactionRefines(env: Env, beneficiary: Address, s: State, txn: Txn, f: Flat)
    requires txn.from.Some? && Checked(txn) && DbOk(env.db) && Between(env.db, s, f)
    requires LegalTxn(env, beneficiary, s, txn, f)
    ensures var t := ExecuteTransaction(env, beneficiary, s, txn).state;
      && Between(env.db, t, FlatTxn(env, beneficiary, s, txn, f))
      && forall a <- t.storage :: t.storage[a].current == map[]
  {
    hide Sound, LegalHostRun, FlatHostRun, TxnSteps, BeforeFinish, HostRun, Leads, Starts, Finish, NeverWraps, CountRun, Cleared,
      ExecuteTransaction, FlatGone;
    var db, clear := env.db, env.rev >= SPURIOUS_DRAGON;
    TxnLeads(env, beneficiary, s, txn);
    var steps, t := TxnSteps(env, beneficiary, s, txn), BeforeFinish(env, beneficiary, s, txn);
    LeadsRuns(env, ClearSubstate(s), steps, t);
    BetweenStarts(db, s, f);
    RefundCoversCleared(db, env.keccak, env.rev, ClearSubstate(s), Begun(f), steps);
    var g := FlatHostRun(db, env.keccak, Begun(f), [], steps);
    EndTransactionSound(db, t, g, clear);
    FinishIsEnd(env, t);
    SoundLoaded(db, t, g);
    FinishLoaded(env, t);
    SoundSame(db, EndTransaction(db, t, clear), Finish(env, t), FlatEnd(g, clear));
  }

  /** The logs of a transaction are those its steps gather. */
  lemma TransactionLogs(env: Env, beneficiary: Address, s: State, txn: Txn, f: Flat)
    requires txn.from.Some? && Checked(txn) && DbOk(env.db) && Between(env.db, s, f)
    requires LegalTxn(env, beneficiary, s, txn, f)
    ensures ExecuteTransaction(env, beneficiary, s, txn).state.logs ==
            FlatHostRun(env.db, env.keccak, Begun(f), [], TxnSteps(env, beneficiary, s, txn)).sub.logs
  {
    hide Sound, LegalHostRun, FlatHostRun, TxnSteps, BeforeFinish, HostRun, Leads, Starts, Finish, NeverWraps, CountRun, Cleared,
      ExecuteTransaction;
    TxnLeads(env, beneficiary, s, txn);
    var steps, t := TxnSteps(env, beneficiary, s, txn), BeforeFinish(env, beneficiary, s, txn);
    LeadsRuns(env, ClearSubstate(s), steps, t);
    BetweenStarts(env.db, s, f);
    RefundCoversCleared(env.db, env.keccak, env.rev, ClearSubstate(s), Begun(f), steps);
    FinishLogs(env, t);
  }

  lemma FinishLogs(env: Env, s: State)
    ensures Finish(env, s).logs == s.logs
  {
  }

  lemma SoundLoaded(db: Db, s: State, f: Flat)
    requires Sound(db, s, f)
    ensures Loaded(db, s.objects, s.storage)
  {
  }

  // --- blocks ---

  /** The flat maps after some transactions, if those that are executed write storage of contracts only. */
  ghost function FlatTxns(env: Env, block: Block, s: State, used: nat, txns: seq<Txn>, f: Flat): (g: Option<Flat>)
    requires forall txn <- txns :: Checked(txn)
    decreases |txns|
  {
    if txns == [] || Validate(env, block, used, s, txns[0]) != Ok then Some(f)
    else
      var s1, txn := Looked(env, s, txns[0]), txns[0];
      if !LegalTxn(env, block.beneficiary, s1, txn, f) then None
      else
        var t := ExecuteTransaction(env, block.beneficiary, s1, txn);
        FlatTxns(env, block, t.state, used + t.gasUsed, txns[1..], FlatTxn(env, block.beneficiary, s1, txn, f))
  }

  /** No slot has a value that is not committed. */
  ghost predicate AllCommitted(s: State)
  {
    forall a <- s.storage :: s.storage[a].current == map[]
  }

  lemma LookedBetween(env: Env, s: State, txn: Txn, f: Flat)
    requires Between(env.db, s, f) && AllCommitted(s)
    ensures Between(env.db, Looked(env, s, txn), f) && AllCommitted(Looked(env, s, txn))
  {
    hide Sound;
    if txn.from.Some? { FetchSound(env.db, s, txn.from.value, f); }
  }

  /** Over every list of transactions, complete or cut short, the caches stand for the flat maps. */
  lemma {:induction false} TxnsRefine(env: Env, block: Block, s: State, used: nat, txns: seq<Txn>, f: Flat)
    requires (forall txn <- txns :: Checked(txn)) && DbOk(env.db) && Between(env.db, s, f) && AllCommitted(s)
    requires FlatTxns(env, block, s, used, txns, f).Some?
    ensures Between(env.db, ExecuteTxns(env, block, s, used, txns).state, FlatTxns(env, block, s, used, txns, f).value)
    ensures AllCommitted(ExecuteTxns(env, block, s, used, txns).state)
    decreases |txns|
  {
    hide Between, LegalTxn, FlatTxn, ExecuteTransaction, Looked, Checked, Validate, DbOk, AllCommitted;
    if txns != [] {
      var s1, txn := Looked(env, s, txns[0]), txns[0];
      LookedBetween(env, s, txn, f);
      if Validate(env, block, used, s, txn) == Ok {
        Admitted(env, block, used, s, txn);
        assert Between(env.db, ExecuteTransaction(env, block.beneficiary, s1, txn).state, FlatTxn(env, block.beneficiary, s1, txn, f))
          && AllCommitted(ExecuteTransaction(env, block.beneficiary, s1, txn).state) by { TransactionCommits(env, block.beneficiary, s1, txn, f); }
        var t := ExecuteTransaction(env, block.beneficiary, s1, txn);
        TxnsRefine(env, block, t.state, used + t.gasUsed, txns[1..], FlatTxn(env, block.beneficiary, s1, txn, f));
      }
    }
  }

  lemma TransactionCommits(env: Env, beneficiary: Address, s: State, txn: Txn, f: Flat)
    requires txn.from.Some? && Checked(txn) && DbOk(env.db) && Between(env.db, s, f)
    requires LegalTxn(env, beneficiary, s, txn, f)
    ensures Between(env.db, ExecuteTransaction(env, beneficiary, s, txn).state, FlatTxn(env, beneficiary, s, txn, f))
    ensures AllCommitted(ExecuteTransaction(env, beneficiary, s, txn).state)
  {
    hide Between, LegalTxn, FlatTxn, ExecuteTransaction, Checked, DbOk;
    TransactionRefines(env, beneficiary, s, txn, f);
  }

  lemma MoveBetween(env: Env, s: State, op: Op, f: Flat)
    requires DbOk(env.db) && Between(env.db, s, f) && AllCommitted(s) && (MovesBalance(op) || op.ReadAccount?)
    ensures Between(env.db, env.Apply(s, op), FlatApply(env.db, env.keccak, f, op)) && AllCommitted(env.Apply(s, op))
    ensures FlatApply(env.db, env.keccak, f, op).anchored == f.anchored
  {
    hide Sound, DbOk, ChangeBalance, Edited, Fetch;
    ApplySound(env.db, env.keccak, s, op, f);
    match op
    case SetBalance(a, v) => BalanceStorage(env.db, s, a, ToBalance(v));
    case AddToBalance(a, v) => BalanceStorage(env.db, s, a, Credit(v));
    case SubtractFromBalance(a, v) => BalanceStorage(env.db, s, a, Debit(v));
    case ReadAccount(a) => FetchRest(env.db, s, a);
  }

  lemma BalanceStorage(db: Db, s: State, a: Address, e: Edit)
    ensures ChangeBalance(db, s, a, e).storage == s.storage
  {
    hide Put, Touch;
    PutShape(db, s, a, e);
    TouchRest(Put(db, s, a, e), a);
  }

  function FlatBalance(f: Flat, a: Address): (v: Word)
  {
    if a in f.accounts then f.accounts[a].balance else 0
  }

  function FlatDrain(env: Env, f: Flat, children: seq<Address>, refund: Address): (g: Flat)
    decreases |children|
  {
    if children == [] then f
    else
      var f1 := FlatApply(env.db, env.keccak, f, AddToBalance(refund, FlatBalance(f, children[0])));
      FlatDrain(env, FlatApply(env.db, env.keccak, f1, SetBalance(children[0], 0)), children[1..], refund)
  }

  lemma {:induction false} DrainRefines(env: Env, s: State, children: seq<Address>, refund: Address, f: Flat)
    requires DbOk(env.db) && Between(env.db, s, f) && AllCommitted(s)
    ensures Between(env.db, DrainAll(env, s, children, refund), FlatDrain(env, f, children, refund))
    ensures AllCommitted(DrainAll(env, s, children, refund)) && FlatDrain(env, f, children, refund).anchored == f.anchored
    decreases |children|
  {
    hide Between, AllCommitted, DbOk, Journal.Apply, FlatApply, BalanceIn;
    if children != [] {
      var a, v := children[0], BalanceOf(env.db, s, children[0]);
      BalanceSeen(env.db, s, f, a);
      var s1 := env.Apply(s, ReadAccount(a));
      var s2 := env.Apply(s1, AddToBalance(refund, v));
      var f2 := FlatApply(env.db, env.keccak, f, AddToBalance(refund, v));
      MoveBetween(env, s, ReadAccount(a), f);
      ReadFlat(env, f, a);
      MoveBetween(env, s1, AddToBalance(refund, v), f);
      MoveBetween(env, s2, SetBalance(a, 0), f2);
      DrainRefines(env, env.Apply(s2, SetBalance(a, 0)), children[1..], refund, FlatApply(env.db, env.keccak, f2, SetBalance(a, 0)));
    }
  }

  lemma ReadFlat(env: Env, f: Flat, a: Address)
    ensures FlatApply(env.db, env.keccak, f, ReadAccount(a)) == f
  {
  }

  lemma BalanceSeen(db: Db, s: State, f: Flat, a: Address)
    requires Between(db, s, f)
    ensures BalanceOf(db, s, a) == FlatBalance(f, a)
  {
    assert ViewAt(db, a, ObjectIn(db, s.objects, a), StorageIn(s.storage, a), f);
  }

  function FlatOmmers(env: Env, block: Block, f: Flat, ommers: seq<Ommer>): (g: Flat)
    decreases |ommers|
  {
    if ommers == [] then f
    else FlatOmmers(env, block,
           FlatApply(env.db, env.keccak, f, AddToBalance(ommers[0].beneficiary, OmmerReward(BlockReward(env.rev), block.number, ommers[0]))), ommers[1..])
  }

  lemma {:induction false} OmmersRefine(env: Env, block: Block, s: State, ommers: seq<Ommer>, f: Flat)
    requires DbOk(env.db) && Between(env.db, s, f) && AllCommitted(s)
    ensures Between(env.db, RewardOmmers(env, block, s, ommers), FlatOmmers(env, block, f, ommers))
    ensures AllCommitted(RewardOmmers(env, block, s, ommers)) && FlatOmmers(env, block, f, ommers).anchored == f.anchored
    decreases |ommers|
  {
    hide Between, AllCommitted, DbOk, Journal.Apply, FlatApply, OmmerReward, BlockReward;
    if ommers != [] {
      var op := AddToBalance(ommers[0].beneficiary, OmmerReward(BlockReward(env.rev), block.number, ommers[0]));
      MoveBetween(env, s, op, f);
      OmmersRefine(env, block, env.Apply(s, op), ommers[1..], FlatApply(env.db, env.keccak, f, op));
    }
  }

  function FlatRewarded(env: Env, block: Block, f: Flat): (g: Flat)
  {
    FlatApply(env.db, env.keccak, FlatOmmers(env, block, f, block.ommers),
              AddToBalance(block.beneficiary, MinerReward(env.rev, |block.ommers|)))
  }

  /** The state and the flat maps from which the transactions of a block start. */
  function Opening(env: Env, fork: Option<Fork>): (s: State)
  {
    if fork.Some? then DrainAll(env, FRESH_STATE, fork.value.children, fork.value.refund) else FRESH_STATE
  }

  ghost function FlatOpening(env: Env, fork: Option<Fork>): (f: Flat)
  {
    if fork.Some? then FlatDrain(env, FlatOf(env.db), fork.value.children, fork.value.refund) else FlatOf(env.db)
  }

  /** The flat maps after a block, from those that the database stands for. */
  ghost function FlatExecuted(env: Env, block: Block, fork: Option<Fork>): (g: Option<Flat>)
    requires forall txn <- block.txns :: Checked(txn)
  {
    match FlatTxns(env, block, Opening(env, fork), 0, block.txns, FlatOpening(env, fork))
    case None => None
    case Some(f) => Some(FlatRewarded(env, block, f))
  }

  /** A block that is accepted leaves the caches standing for the flat maps that its transactions,
      the fork and the rewards lead to. */
  lemma ExecutedBlockRefines(env: Env, block: Block, fork: Option<Fork>)
    requires (forall txn <- block.txns :: Checked(txn)) && DbOk(env.db)
    requires FlatExecuted(env, block, fork).Some? && ExecuteBlock(env, block, FRESH_STATE, fork).verdict == Ok
    ensures var s := ExecuteBlock(env, block, FRESH_STATE, fork).state;
      Sound(env.db, s, FlatExecuted(env, block, fork).value) && AllCommitted(s)
  {
    hide DbOk, Checked, FlatTxns, DrainAll, FlatDrain, ExecuteTxns, RewardOmmers, FlatOmmers, FlatApply, Journal.Apply, MinerReward, FlatOf, Sound;
    var db := env.db;
    FreshBetween(db);
    var s0, f0 := Opening(env, fork), FlatOpening(env, fork);
    if fork.Some? { DrainRefines(env, FRESH_STATE, fork.value.children, fork.value.refund, FlatOf(db)); }
    TxnsRefine(env, block, s0, 0, block.txns, f0);
    var s1, f1 := ExecuteTxns(env, block, s0, 0, block.txns).state, FlatTxns(env, block, s0, 0, block.txns, f0).value;
    OmmersRefine(env, block, s1, block.ommers, f1);
    MoveBetween(env, RewardOmmers(env, block, s1, block.ommers), AddToBalance(block.beneficiary, MinerReward(env.rev, |block.ommers|)),
                FlatOmmers(env, block, f1, block.ommers));
  }

  lemma FreshBetween(db: Db)
    ensures Between(db, FRESH_STATE, FlatOf(db)) && AllCommitted(FRESH_STATE)
  {
    hide Sound, FlatOf;
    FreshSound(db);
    FlatOfAccounts(db);
  }
}
