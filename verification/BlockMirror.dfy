/** Transactions and blocks do the same on databases that are the same up to incarnation numbers: same receipts,
    same verdict, and written tables that are again the same up to these numbers. */
module BlockMirrors {
  import opened Basics
  import opened World
  import opened Journal
  import opened FlatState
  import opened MemoryBuffers
  import opened IntraBlock
  import opened Ether
  import opened Refunds
  import opened Evm
  import opened Processor
  import opened Traces
  import opened Refinement
  import opened Renumbering
  import opened Mirrors
  import C = ChainStates

  // --- runs of host steps ---

  /** The two runs of `steps` are legal and agree on every creation. */
  ghost predicate AgreeHostRun(d: Db, e: Db, keccak: Bytes -> Word, f: Flat, g: Flat, x: seq<Flat>, y: seq<Flat>, steps: seq<HostStep>)
    decreases |steps|
  {
    steps == [] ||
    (LegalHostStep(f, x, steps[0]) && LegalHostStep(g, y, steps[0]) &&
     (steps[0].Other? ==> Agree(d, e, f, g, steps[0].op)) &&
     var (f', x') := FlatHostNext(d, keccak, f, x, steps[0]);
     var (g', y') := FlatHostNext(e, keccak, g, y, steps[0]);
     AgreeHostRun(d, e, keccak, f', g', x', y', steps[1..]))
  }

  lemma {:induction false} AgreeLegal(d: Db, e: Db, keccak: Bytes -> Word, f: Flat, g: Flat, x: seq<Flat>, y: seq<Flat>, steps: seq<HostStep>)
    requires AgreeHostRun(d, e, keccak, f, g, x, y, steps)
    ensures LegalHostRun(d, keccak, f, x, steps) && LegalHostRun(e, keccak, g, y, steps)
    decreases |steps|
  {
    hide FlatApply, Legal, Agree;
    if steps != [] {
      var (f', x') := FlatHostNext(d, keccak, f, x, steps[0]);
      var (g', y') := FlatHostNext(e, keccak, g, y, steps[0]);
      AgreeLegal(d, e, keccak, f', g', x', y', steps[1..]);
    }
  }

  lemma {:induction false} AgreePrefix(d: Db, e: Db, keccak: Bytes -> Word, f: Flat, g: Flat, x: seq<Flat>, y: seq<Flat>,
                                       steps: seq<HostStep>, more: seq<HostStep>)
    requires AgreeHostRun(d, e, keccak, f, g, x, y, steps + more)
    ensures AgreeHostRun(d, e, keccak, f, g, x, y, steps)
    decreases |steps|
  {
    hide FlatApply, Legal, Agree;
    if steps != [] {
      assert (steps + more)[0] == steps[0] && (steps + more)[1..] == steps[1..] + more;
      var (f', x') := FlatHostNext(d, keccak, f, x, steps[0]);
      var (g', y') := FlatHostNext(e, keccak, g, y, steps[0]);
      AgreePrefix(d, e, keccak, f', g', x', y', steps[1..], more);
    }
  }

  lemma HostNextTwins(d: Db, e: Db, keccak: Bytes -> Word, f: Flat, g: Flat, x: seq<Flat>, y: seq<Flat>, step: HostStep)
    requires Renumbered(d, e) && Twins(f, g) && AllTwins(x, y) && LegalHostStep(f, x, step) && LegalHostStep(g, y, step)
    requires step.Other? ==> Agree(d, e, f, g, step.op)
    ensures var (f', x') := FlatHostNext(d, keccak, f, x, step);
      var (g', y') := FlatHostNext(e, keccak, g, y, step);
      Twins(f', g') && AllTwins(x', y')
  {
    hide Twins, FlatApply, Agree, Renumbered, At, AllTwins;
    match step
    case Store(a, k, v) =>
      StoreTwins(f, g, a, k, v);
      assert At(f.current, a, k) == At(g.current, a, k) by { CellTwins(f, g, a, k); }
    case _ =>
      NextTwins(d, e, keccak, f, g, x, y, PlainStep(step));
  }

  lemma CellTwins(f: Flat, g: Flat, a: Address, k: Word)
    requires Twins(f, g)
    ensures At(f.current, a, k) == At(g.current, a, k) && At(f.original, a, k) == At(g.original, a, k)
  {
  }

  /** Both runs end with flat maps that agree up to incarnation numbers, and with the same refund counter. */
  lemma {:induction false} HostRunTwins(d: Db, e: Db, keccak: Bytes -> Word, rev: Revision, f: Flat, g: Flat, x: seq<Flat>, y: seq<Flat>,
                                        c: Counter, steps: seq<HostStep>)
    requires Renumbered(d, e) && Twins(f, g) && AllTwins(x, y) && |c.marks| == |x| == |y|
    requires AgreeHostRun(d, e, keccak, f, g, x, y, steps)
    ensures LegalHostRun(d, keccak, f, x, steps) && LegalHostRun(e, keccak, g, y, steps)
    ensures Twins(FlatHostRun(d, keccak, f, x, steps), FlatHostRun(e, keccak, g, y, steps))
    ensures CountRun(d, keccak, rev, f, x, c, steps) == CountRun(e, keccak, rev, g, y, c, steps)
    decreases |steps|
  {
    hide Twins, Agree, Legal, FlatApply, AllTwins, Renumbered, Worth;
    AgreeLegal(d, e, keccak, f, g, x, y, steps);
    if steps != [] {
      HostNextTwins(d, e, keccak, f, g, x, y, steps[0]);
      CountTwins(rev, f, g, c, steps[0]);
      var (f', x') := FlatHostNext(d, keccak, f, x, steps[0]);
      var (g', y') := FlatHostNext(e, keccak, g, y, steps[0]);
      HostRunTwins(d, e, keccak, rev, f', g', x', y', Count(rev, f, c, steps[0]), steps[1..]);
    }
  }

  lemma CountTwins(rev: Revision, f: Flat, g: Flat, c: Counter, step: HostStep)
    requires Twins(f, g) && (step.Back? ==> step.i < |c.marks|)
    ensures Count(rev, f, c, step) == Count(rev, g, c, step)
  {
    hide Twins, At;
    if step.Store? { CellTwins(f, g, step.a, step.k); }
  }

  // --- transactions ---

  /** Between two transactions: the caches of both sides stand for flat maps that agree up to incarnation numbers. */
  ghost predicate Sides(codeOf: Word -> Bytes, x: Env, y: Env, s: State, t: State, f: Flat, g: Flat)
  {
    && Paired(codeOf, x, y) && Renumbered(x.db, y.db) && DbOk(x.db) && DbOk(y.db)
    && Between(x.db, s, f) && Between(y.db, t, g) && Twins(Begun(f), Begun(g))
    && Resolved(codeOf, x.db, s) && Resolved(codeOf, y.db, t)
  }

  lemma SidesMirror(codeOf: Word -> Bytes, x: Env, y: Env, s: State, t: State, f: Flat, g: Flat)
    requires Sides(codeOf, x, y, s, t, f, g)
    ensures Mirror(codeOf, x.db, s, y.db, t)
  {
    hide Resolved, DbOk, Renumbered, Paired;
    forall a ensures C.Bare(AccountOf(x.db, s, a)) == C.Bare(AccountOf(y.db, t, a)) {
      AccountSeen(x.db, s, f, a);
      AccountSeen(y.db, t, g, a);
      assert C.Bare(Get(Begun(f).accounts, a)) == C.Bare(Get(Begun(g).accounts, a));
    }
  }

  lemma AccountSeen(db: Db, s: State, f: Flat, a: Address)
    requires Between(db, s, f)
    ensures AccountOf(db, s, a) == Get(f.accounts, a)
  {
    assert ViewAt(db, a, ObjectIn(db, s.objects, a), StorageIn(s.storage, a), f);
  }

  lemma {:induction false} OpsMirror(codeOf: Word -> Bytes, x: Env, y: Env, s: State, t: State, ops: seq<Op>)
    requires Paired(codeOf, x, y) && Mirror(codeOf, x.db, s, y.db, t) && forall op <- ops :: !op.DeployCode?
    ensures Mirror(codeOf, x.db, ApplyAll(x.db, x.keccak, s, ops), y.db, ApplyAll(y.db, y.keccak, t, ops))
    decreases |ops|
  {
    hide Mirror, Paired, Journal.Apply;
    if ops != [] {
      ApplyMirror(codeOf, x, y, s, t, ops[0]);
      OpsMirror(codeOf, x, y, x.Apply(s, ops[0]), y.Apply(t, ops[0]), ops[1..]);
    }
  }

  lemma PrepareMirror(codeOf: Word -> Bytes, x: Env, y: Env, s: State, t: State, txn: Txn)
    requires txn.from.Some? && Paired(codeOf, x, y) && Mirror(codeOf, x.db, s, y.db, t)
    ensures Mirror(codeOf, x.db, Prepare(x, s, txn), y.db, Prepare(y, t, txn))
  {
    hide Mirror, Paired, ApplyAll, Prepare, WarmOps, SameObjects;
    var s0, t0 := ClearSubstate(s), ClearSubstate(t);
    SameObjectsReflexive(x.db, s.objects);
    SameObjectsReflexive(y.db, t.objects);
    StillMirror(codeOf, x.db, s, s0, y.db, t, t0);
    WarmOnly(txn.accessList);
    OpsMirror(codeOf, x, y, s0, t0, PrepareOps(txn));
    PrepareState(x, s, txn);
    PrepareState(y, t, txn);
  }

  /** The message takes the same steps on both sides and returns the same. */
  lemma MainMirror(codeOf: Word -> Bytes, x: Env, y: Env, s: State, t: State, txn: Txn)
    requires txn.from.Some? && Checked(txn) && Paired(codeOf, x, y) && Mirror(codeOf, x.db, s, y.db, t)
    requires Honest(codeOf, x.keccak, txn.program)
    ensures MainSteps(x, s, txn) == MainSteps(y, t, txn)
    ensures var o, q := ExecuteMessage(x, Prepare(x, s, txn), txn), ExecuteMessage(y, Prepare(y, t, txn), txn);
      o.result == q.result && Mirror(codeOf, x.db, o.state, y.db, q.state)
  {
    hide Mirror, Paired, Prepare, Others, TraceCall, TraceCreate, RunCall, RunCreate, PrepareOps, Honest;
    PrepareMirror(codeOf, x, y, s, t, txn);
    var s1, t1 := Prepare(x, s, txn), Prepare(y, t, txn);
    if txn.to.None? {
      CreateMirror(codeOf, x, y, s1, t1, 0, MessageOf(txn), txn.program);
    } else {
      CallMirror(codeOf, x, y, s1, t1, 0, MessageOf(txn), txn.program);
    }
  }

  /** The same gas comes back on both sides. */
  lemma ReturnedMirror(codeOf: Word -> Bytes, x: Env, y: Env, s: State, t: State, txn: Txn, f: Flat, g: Flat)
    requires txn.from.Some? && Checked(txn) && Sides(codeOf, x, y, s, t, f, g) && Honest(codeOf, x.keccak, txn.program)
    requires AgreeHostRun(x.db, y.db, x.keccak, Begun(f), Begun(g), [], [], MainSteps(x, s, txn))
    ensures Returned(x, s, txn) == Returned(y, t, txn)
  {
    hide Mirror, Twins, Prepare, ExecuteMessage, Honest, AgreeHostRun, MainSteps, FlatHostRun, CountRun, LegalHostRun, Sound,
      Resolved, Renumbered, DbOk, Cleared, ClearRefund;
    SidesMirror(codeOf, x, y, s, t, f, g);
    MainMirror(codeOf, x, y, s, t, txn);
    var steps := MainSteps(x, s, txn);
    HostRunTwins(x.db, y.db, x.keccak, x.rev, Begun(f), Begun(g), [], [], Counter(0, []), steps);
    TransactionRefund(x, s, txn, f);
    TransactionRefund(y, t, txn, g);
    PendingSame(FlatHostRun(x.db, x.keccak, Begun(f), [], steps), FlatHostRun(y.db, y.keccak, Begun(g), [], steps));
    MessageGas(x, Prepare(x, s, txn), txn);
    MessageGas(y, Prepare(y, t, txn), txn);
  }

  lemma PendingSame(f: Flat, g: Flat)
    requires Twins(f, g)
    ensures f.sub == g.sub
  {
  }

  lemma FinishResolved(codeOf: Word -> Bytes, env: Env, s: State)
    requires Resolved(codeOf, env.db, s)
    ensures Resolved(codeOf, env.db, Finish(env, s))
  {
    hide Finish, DestructAll;
    var db, t, u := env.db, Finish(env, s), EndTransaction(env.db, s, env.rev >= SPURIOUS_DRAGON);
    FinishIsEnd(env, s);
    FinishCode(env, s);
    forall a | Live(db, t, a)
      ensures var h := AccountOf(db, t, a).value.codeHash; h == EMPTY_HASH || h in t.code || h in db.code
    {
      assert ObjectIn(db, u.objects, a) == ObjectIn(db, t.objects, a);
      DestructedObject(db, s, Gone(db, s, env.rev >= SPURIOUS_DRAGON), a);
      assert Live(db, s, a);
    }
  }

  lemma FinishCode(env: Env, s: State)
    ensures Finish(env, s).code == s.code
  {
  }

  lemma AwardedResolved(codeOf: Word -> Bytes, env: Env, beneficiary: Address, s: State, txn: Txn, back: nat)
    requires txn.from.Some? && back <= txn.gasLimit && Resolved(codeOf, env.db, s)
    requires forall h <- env.db.code :: env.db.code[h] == codeOf(h)
    ensures Resolved(codeOf, env.db, Awarded(env, beneficiary, s, txn, back))
  {
    hide Resolved, Journal.Apply, Product;
    var op := AddToBalance(txn.from.value, Product(back, txn.gasPrice));
    ApplyResolved(codeOf, env.db, env.keccak, s, op);
    ApplyResolved(codeOf, env.db, env.keccak, env.Apply(s, op), AddToBalance(beneficiary, Product(txn.gasLimit - back, txn.gasPrice)));
  }

  lemma TransactionResolved(codeOf: Word -> Bytes, env: Env, beneficiary: Address, s: State, txn: Txn)
    requires txn.from.Some? && Checked(txn) && (forall h <- env.db.code :: env.db.code[h] == codeOf(h))
    requires Resolved(codeOf, env.db, ExecuteMessage(env, Prepare(env, s, txn), txn).state)
    ensures Resolved(codeOf, env.db, ExecuteTransaction(env, beneficiary, s, txn).state)
  {
    hide Resolved, Awarded, Finish, ExecuteMessage, Prepare, ExecuteTransaction;
    TxnEnds(env, beneficiary, s, txn);
    var m, back := ExecuteMessage(env, Prepare(env, s, txn), txn), Returned(env, s, txn);
    AwardedResolved(codeOf, env, beneficiary, m.state, txn, back);
    FinishResolved(codeOf, env, BeforeFinish(env, beneficiary, s, txn));
  }

  /** A transaction does the same on both sides. */
  lemma TransactionMirror(codeOf: Word -> Bytes, x: Env, y: Env, beneficiary: Address, s: State, t: State, txn: Txn, f: Flat, g: Flat)
    requires txn.from.Some? && Checked(txn) && Sides(codeOf, x, y, s, t, f, g) && Honest(codeOf, x.keccak, txn.program)
    requires AgreeHostRun(x.db, y.db, x.keccak, Begun(f), Begun(g), [], [], TxnSteps(x, beneficiary, s, txn))
    ensures TxnSteps(x, beneficiary, s, txn) == TxnSteps(y, beneficiary, t, txn)
    ensures LegalTxn(x, beneficiary, s, txn, f) && LegalTxn(y, beneficiary, t, txn, g)
    ensures var o, q := ExecuteTransaction(x, beneficiary, s, txn), ExecuteTransaction(y, beneficiary, t, txn);
      && o.success == q.success && o.gasUsed == q.gasUsed && o.state.logs == q.state.logs && AllCommitted(o.state) && AllCommitted(q.state)
      && Sides(codeOf, x, y, o.state, q.state, FlatTxn(x, beneficiary, s, txn, f), FlatTxn(y, beneficiary, t, txn, g))
  {
    hide Mirror, Twins, Prepare, ExecuteMessage, Honest, AgreeHostRun, MainSteps, FlatHostRun, CountRun, LegalHostRun, Sound,
      Resolved, Renumbered, DbOk, ExecuteTransaction, Others, AwardOps, Returned, FlatEnd, AllCommitted, Between;
    SidesMirror(codeOf, x, y, s, t, f, g);
    MainMirror(codeOf, x, y, s, t, txn);
    AgreePrefix(x.db, y.db, x.keccak, Begun(f), Begun(g), [], [], MainSteps(x, s, txn), Others(AwardOps(beneficiary, txn, Returned(x, s, txn))));
    ReturnedMirror(codeOf, x, y, s, t, txn, f, g);
    var steps := TxnSteps(x, beneficiary, s, txn);
    HostRunTwins(x.db, y.db, x.keccak, x.rev, Begun(f), Begun(g), [], [], Counter(0, []), steps);
    TransactionLogs(x, beneficiary, s, txn, f);
    TransactionLogs(y, beneficiary, t, txn, g);
    PendingSame(FlatHostRun(x.db, x.keccak, Begun(f), [], steps), FlatHostRun(y.db, y.keccak, Begun(g), [], steps));
    TransactionCommits(x, beneficiary, s, txn, f);
    TransactionCommits(y, beneficiary, t, txn, g);
    EndTwins(FlatHostRun(x.db, x.keccak, Begun(f), [], steps), FlatHostRun(y.db, y.keccak, Begun(g), [], steps), x.rev >= SPURIOUS_DRAGON);
    BegunTwins(FlatTxn(x, beneficiary, s, txn, f), FlatTxn(y, beneficiary, t, txn, g));
    TxnEnds(x, beneficiary, s, txn);
    TxnEnds(y, beneficiary, t, txn);
    MirrorResolved(codeOf, x.db, ExecuteMessage(x, Prepare(x, s, txn), txn).state, y.db, ExecuteMessage(y, Prepare(y, t, txn), txn).state);
    TransactionResolved(codeOf, x, beneficiary, s, txn);
    TransactionResolved(codeOf, y, beneficiary, t, txn);
  }

  lemma MirrorResolved(codeOf: Word -> Bytes, d: Db, s: State, e: Db, t: State)
    requires Mirror(codeOf, d, s, e, t)
    ensures Resolved(codeOf, d, s) && Resolved(codeOf, e, t)
  {
  }

  lemma BegunTwins(f: Flat, g: Flat)
    requires Twins(f, g)
    ensures Twins(Begun(f), Begun(g))
  {
  }

  // --- lists of transactions ---

  /** The transactions that are executed agree, on both sides, on every creation. */
  ghost predicate AgreeTxns(x: Env, y: Env, block: Block, s: State, t: State, used: nat, txns: seq<Txn>, f: Flat, g: Flat)
    requires forall txn <- txns :: Checked(txn)
    decreases |txns|
  {
    if txns == [] || Validate(x, block, used, s, txns[0]) != Ok then true
    else
      var txn, s1, t1 := txns[0], Looked(x, s, txns[0]), Looked(y, t, txns[0]);
      && AgreeHostRun(x.db, y.db, x.keccak, Begun(f), Begun(g), [], [], TxnSteps(x, block.beneficiary, s1, txn))
      && LegalTxn(x, block.beneficiary, s1, txn, f) && LegalTxn(y, block.beneficiary, t1, txn, g)
      && var o, q := ExecuteTransaction(x, block.beneficiary, s1, txn), ExecuteTransaction(y, block.beneficiary, t1, txn);
         AgreeTxns(x, y, block, o.state, q.state, used + o.gasUsed, txns[1..],
                   FlatTxn(x, block.beneficiary, s1, txn, f), FlatTxn(y, block.beneficiary, t1, txn, g))
  }

  lemma LookedSides(codeOf: Word -> Bytes, x: Env, y: Env, s: State, t: State, txn: Txn, f: Flat, g: Flat)
    requires Sides(codeOf, x, y, s, t, f, g) && AllCommitted(s) && AllCommitted(t)
    ensures Sides(codeOf, x, y, Looked(x, s, txn), Looked(y, t, txn), f, g)
  {
    hide Between, Twins, Resolved, Journal.Apply, Renumbered, DbOk, AllCommitted;
    LookedBetween(x, s, txn, f);
    LookedBetween(y, t, txn, g);
    if txn.from.Some? {
      ApplyResolved(codeOf, x.db, x.keccak, s, ReadAccount(txn.from.value));
      ApplyResolved(codeOf, y.db, y.keccak, t, ReadAccount(txn.from.value));
    }
  }

  lemma ValidateMirror(codeOf: Word -> Bytes, x: Env, y: Env, block: Block, used: nat, s: State, t: State, txn: Txn, f: Flat, g: Flat)
    requires Sides(codeOf, x, y, s, t, f, g)
    ensures Validate(x, block, used, s, txn) == Validate(y, block, used, t, txn)
  {
    hide Between, Twins, Resolved, Renumbered, DbOk, Mirror, BalanceIn, NonceOf, AvailableGas;
    SidesMirror(codeOf, x, y, s, t, f, g);
    if txn.from.Some? { MirrorReads(codeOf, x, y, s, t, txn.from.value); }
  }

  /** Over every list of transactions, complete or cut short, both sides give the same receipts and the same verdict. */
  lemma {:induction false} TxnsMirror(codeOf: Word -> Bytes, x: Env, y: Env, block: Block, s: State, t: State, used: nat, txns: seq<Txn>, f: Flat, g: Flat)
    requires (forall txn <- txns :: Checked(txn) && Honest(codeOf, x.keccak, txn.program)) && Sides(codeOf, x, y, s, t, f, g)
    requires AllCommitted(s) && AllCommitted(t) && AgreeTxns(x, y, block, s, t, used, txns, f, g)
    ensures FlatTxns(x, block, s, used, txns, f).Some? && FlatTxns(y, block, t, used, txns, g).Some?
    ensures Twins(Begun(FlatTxns(x, block, s, used, txns, f).value), Begun(FlatTxns(y, block, t, used, txns, g).value))
    ensures var o, q := ExecuteTxns(x, block, s, used, txns), ExecuteTxns(y, block, t, used, txns);
      o.receipts == q.receipts && o.verdict == q.verdict
    decreases |txns|
  {
    hide Twins, LegalTxn, FlatTxn, ExecuteTransaction, Looked, Checked, Validate, AllCommitted, Honest, AgreeHostRun, TxnSteps, Sides;
    if txns == [] {
      SidesTwins(codeOf, x, y, s, t, f, g);
    } else {
      var txn, s1, t1 := txns[0], Looked(x, s, txns[0]), Looked(y, t, txns[0]);
      ValidateMirror(codeOf, x, y, block, used, s, t, txn, f, g);
      SidesTwins(codeOf, x, y, s, t, f, g);
      if Validate(x, block, used, s, txn) == Ok {
        Admitted(x, block, used, s, txn);
        Admitted(y, block, used, t, txn);
        LookedSides(codeOf, x, y, s, t, txn, f, g);
        TransactionMirror(codeOf, x, y, block.beneficiary, s1, t1, txn, f, g);
        var o, q := ExecuteTransaction(x, block.beneficiary, s1, txn), ExecuteTransaction(y, block.beneficiary, t1, txn);
        TxnsMirror(codeOf, x, y, block, o.state, q.state, used + o.gasUsed, txns[1..],
                   FlatTxn(x, block.beneficiary, s1, txn, f), FlatTxn(y, block.beneficiary, t1, txn, g));
      }
    }
  }

  lemma SidesTwins(codeOf: Word -> Bytes, x: Env, y: Env, s: State, t: State, f: Flat, g: Flat)
    requires Sides(codeOf, x, y, s, t, f, g)
    ensures Twins(Begun(f), Begun(g))
  {
  }

  // --- blocks ---

  lemma BalanceTwins(f: Flat, g: Flat, a: Address)
    requires Twins(Begun(f), Begun(g))
    ensures FlatBalance(f, a) == FlatBalance(g, a)
  {
    assert C.Bare(Get(Begun(f).accounts, a)) == C.Bare(Get(Begun(g).accounts, a));
  }

  lemma MoveTwins(f: Flat, g: Flat, a: Address, e: Edit)
    requires Twins(Begun(f), Begun(g))
    ensures Twins(Begun(FlatTouch(FlatEdit(f, a, e), a)), Begun(FlatTouch(FlatEdit(g, a, e), a)))
  {
    hide Twins, FlatEdit;
    EditTwins(Begun(f), Begun(g), a, e);
    assert Begun(FlatTouch(FlatEdit(f, a, e), a)) == FlatEdit(Begun(f), a, e) by { BegunEdit(f, a, e); }
    assert Begun(FlatTouch(FlatEdit(g, a, e), a)) == FlatEdit(Begun(g), a, e) by { BegunEdit(g, a, e); }
  }

  lemma BegunEdit(f: Flat, a: Address, e: Edit)
    ensures Begun(FlatTouch(FlatEdit(f, a, e), a)) == FlatEdit(Begun(f), a, e)
  {
    hide Edited;
  }

  lemma {:induction false} DrainTwins(x: Env, y: Env, f: Flat, g: Flat, children: seq<Address>, refund: Address)
    requires Twins(Begun(f), Begun(g))
    ensures Twins(Begun(FlatDrain(x, f, children, refund)), Begun(FlatDrain(y, g, children, refund)))
    decreases |children|
  {
    hide Twins, FlatEdit, FlatTouch, Begun, FlatBalance;
    if children != [] {
      var a, v := children[0], FlatBalance(f, children[0]);
      BalanceTwins(f, g, a);
      MoveTwins(f, g, refund, Credit(v));
      var f1, g1 := FlatTouch(FlatEdit(f, refund, Credit(v)), refund), FlatTouch(FlatEdit(g, refund, Credit(v)), refund);
      MoveTwins(f1, g1, a, ToBalance(0));
      DrainTwins(x, y, FlatTouch(FlatEdit(f1, a, ToBalance(0)), a), FlatTouch(FlatEdit(g1, a, ToBalance(0)), a), children[1..], refund);
    }
  }

  lemma {:induction false} OmmersTwins(x: Env, y: Env, block: Block, f: Flat, g: Flat, ommers: seq<Ommer>)
    requires Twins(Begun(f), Begun(g)) && x.rev == y.rev
    ensures Twins(Begun(FlatOmmers(x, block, f, ommers)), Begun(FlatOmmers(y, block, g, ommers)))
    decreases |ommers|
  {
    hide Twins, FlatEdit, FlatTouch, Begun, OmmerReward, BlockReward;
    if ommers != [] {
      var a, e := ommers[0].beneficiary, Credit(OmmerReward(BlockReward(x.rev), block.number, ommers[0]));
      MoveTwins(f, g, a, e);
      OmmersTwins(x, y, block, FlatTouch(FlatEdit(f, a, e), a), FlatTouch(FlatEdit(g, a, e), a), ommers[1..]);
    }
  }

  lemma {:induction false} DrainResolved(codeOf: Word -> Bytes, env: Env, s: State, children: seq<Address>, refund: Address)
    requires Resolved(codeOf, env.db, s) && forall h <- env.db.code :: env.db.code[h] == codeOf(h)
    ensures Resolved(codeOf, env.db, DrainAll(env, s, children, refund))
    decreases |children|
  {
    hide Resolved, Journal.Apply, BalanceIn;
    if children != [] {
      var a, v := children[0], BalanceOf(env.db, s, children[0]);
      ApplyResolved(codeOf, env.db, env.keccak, s, ReadAccount(a));
      var s1 := env.Apply(s, ReadAccount(a));
      ApplyResolved(codeOf, env.db, env.keccak, s1, AddToBalance(refund, v));
      var s2 := env.Apply(s1, AddToBalance(refund, v));
      ApplyResolved(codeOf, env.db, env.keccak, s2, SetBalance(a, 0));
      DrainResolved(codeOf, env, env.Apply(s2, SetBalance(a, 0)), children[1..], refund);
    }
  }

  /** The databases are the same up to incarnation numbers, and all code is genuine and at hand. */
  ghost predicate Counterparts(codeOf: Word -> Bytes, x: Env, y: Env)
  {
    && Paired(codeOf, x, y) && Renumbered(x.db, y.db) && DbOk(x.db) && DbOk(y.db)
    && Resolved(codeOf, x.db, FRESH_STATE) && Resolved(codeOf, y.db, FRESH_STATE)
  }

  lemma OpeningSides(codeOf: Word -> Bytes, x: Env, y: Env, fork: Option<Fork>)
    requires Counterparts(codeOf, x, y)
    ensures Sides(codeOf, x, y, Opening(x, fork), Opening(y, fork), FlatOpening(x, fork), FlatOpening(y, fork))
    ensures AllCommitted(Opening(x, fork)) && AllCommitted(Opening(y, fork))
  {
    hide Between, Twins, Resolved, Renumbered, DbOk, AllCommitted, FlatOf, DrainAll, FlatDrain;
    FreshBetween(x.db);
    FreshBetween(y.db);
    assert Twins(Begun(FlatOf(x.db)), Begun(FlatOf(y.db))) by {
      RenumberedTwins(x.db, y.db);
      BegunTwins(FlatOf(x.db), FlatOf(y.db));
    }
    if fork.Some? {
      var Fork(children, refund) := fork.value;
      DrainRefines(x, FRESH_STATE, children, refund, FlatOf(x.db));
      DrainRefines(y, FRESH_STATE, children, refund, FlatOf(y.db));
      DrainTwins(x, y, FlatOf(x.db), FlatOf(y.db), children, refund);
      DrainResolved(codeOf, x, FRESH_STATE, children, refund);
      DrainResolved(codeOf, y, FRESH_STATE, children, refund);
    }
  }

  /** A block gives the same receipts and the same verdict on databases that are the same up to incarnation
      numbers, and leads to flat maps that are the same up to them. */
  lemma BlockMirror(codeOf: Word -> Bytes, x: Env, y: Env, block: Block, fork: Option<Fork>)
    requires Counterparts(codeOf, x, y) && forall txn <- block.txns :: Checked(txn) && Honest(codeOf, x.keccak, txn.program)
    requires AgreeTxns(x, y, block, Opening(x, fork), Opening(y, fork), 0, block.txns, FlatOpening(x, fork), FlatOpening(y, fork))
    ensures var o, q := ExecuteBlock(x, block, FRESH_STATE, fork), ExecuteBlock(y, block, FRESH_STATE, fork);
      o.receipts == q.receipts && o.verdict == q.verdict
    ensures FlatExecuted(x, block, fork).Some? && FlatExecuted(y, block, fork).Some?
    ensures Twins(Begun(FlatExecuted(x, block, fork).value), Begun(FlatExecuted(y, block, fork).value))
  {
    hide Twins, Checked, Honest, AgreeTxns, FlatTxns, ExecuteTxns, DrainAll, FlatDrain, ApplyRewards, FlatOmmers, MinerReward,
      FlatEdit, FlatTouch, Begun, FlatOf, Sides;
    OpeningSides(codeOf, x, y, fork);
    var s, t, f, g := Opening(x, fork), Opening(y, fork), FlatOpening(x, fork), FlatOpening(y, fork);
    TxnsMirror(codeOf, x, y, block, s, t, 0, block.txns, f, g);
    var f1, g1 := FlatTxns(x, block, s, 0, block.txns, f).value, FlatTxns(y, block, t, 0, block.txns, g).value;
    OmmersTwins(x, y, block, f1, g1, block.ommers);
    MoveTwins(FlatOmmers(x, block, f1, block.ommers), FlatOmmers(y, block, g1, block.ommers),
              block.beneficiary, Credit(MinerReward(x.rev, |block.ommers|)));
  }

  /** Written, it leaves two databases that are the same up to incarnation numbers. */
  lemma WrittenMirror(codeOf: Word -> Bytes, x: Env, y: Env, block: Block, fork: Option<Fork>, b: Buffer, c: Buffer, r: Buffer, q: Buffer)
    requires Counterparts(codeOf, x, y) && x.db == b.db && y.db == c.db
    requires forall txn <- block.txns :: Checked(txn) && Honest(codeOf, x.keccak, txn.program)
    requires AgreeTxns(x, y, block, Opening(x, fork), Opening(y, fork), 0, block.txns, FlatOpening(x, fork), FlatOpening(y, fork))
    requires FlatExecuted(x, block, fork).Some? ==> FlatExecuted(x, block, fork).value.anchored
    requires FlatExecuted(y, block, fork).Some? ==> FlatExecuted(y, block, fork).value.anchored
    requires ExecuteBlock(x, block, FRESH_STATE, fork).verdict == Ok
    requires Wrote(b, ExecuteBlock(x, block, FRESH_STATE, fork).state, block.number, r)
    requires Wrote(c, ExecuteBlock(y, block, FRESH_STATE, fork).state, block.number, q)
    ensures C.Same(C.TablesOf(r), C.TablesOf(q))
  {
    hide Twins, Checked, Honest, AgreeTxns, ExecuteBlock, FlatExecuted, Wrote, Sound, Holds, DbOk, Renumbered, Resolved, Paired, C.Same;
    BlockMirror(codeOf, x, y, block, fork);
    ExecutedBlockRefines(x, block, fork);
    ExecutedBlockRefines(y, block, fork);
    var s, t := ExecuteBlock(x, block, FRESH_STATE, fork).state, ExecuteBlock(y, block, FRESH_STATE, fork).state;
    var f, g := FlatExecuted(x, block, fork).value, FlatExecuted(y, block, fork).value;
    WrittenHolds(b, s, f, block.number, r);
    WrittenHolds(c, t, g, block.number, q);
    HeldBegun(r.db, f);
    HeldBegun(q.db, g);
    HeldSame(r, q, Begun(f), Begun(g));
  }

  lemma HeldBegun(db: Db, f: Flat)
    requires Holds(db, f)
    ensures Holds(db, Begun(f))
  {
  }
}
