/** Ether is neither made nor lost by call trees, save for what self-destruction burns. */
module EvmSupply {
  import opened Basics
  import opened World
  import opened Journal
  import opened Ether
  import opened Refunds
  import opened Evm

  /** `t` is reached from `s` without moving any balance. */
  ghost predicate Quiet(db: Db, s: State, t: State)
  {
    && Descends(db, s, t) && s.selfDestructs <= t.selfDestructs
    && forall b :: BalanceIn(db, t.objects, b) == BalanceIn(db, s.objects, b)
  }

  /** `t` is reached from `s`, and `burned` ether has disappeared on the way, by self-destruction
      (as long as the sum of all balances is a 256-bit number). */
  ghost predicate Conserves(db: Db, s: State, t: State, burned: nat)
  {
    && Descends(db, s, t) && (Supply(db, s) < TWO_256 ==> Supply(db, t) + burned == Supply(db, s))
    && s.selfDestructs <= t.selfDestructs && (burned > 0 ==> t.selfDestructs != {})
  }

  lemma DescendsReflexive(db: Db, s: State)
    ensures Descends(db, s, s)
  {
    hide Undoable;
    RestoresReflexive(db, s);
    Unjournaled(db, s, s);
  }

  lemma DescendsTransitive(db: Db, s: State, t: State, u: State)
    requires Descends(db, s, t) && Descends(db, t, u)
    ensures Descends(db, s, u)
  {
    hide Undoable;
    UndoableTransitive(db, s, t, u);
  }

  lemma ApplyDescends(env: Env, s: State, op: Op)
    ensures Descends(env.db, s, env.Apply(s, op))
    ensures s.selfDestructs <= env.Apply(s, op).selfDestructs
    ensures op.SelfDestruct? ==> op.a in env.Apply(s, op).selfDestructs
  {
    hide Undoable, Journal.Apply;
    ApplyDestructs(env, s, op);
    ApplyUndoable(env.db, env.keccak, s, op);
    ApplyExtendsLogs(env.db, env.keccak, s, op);
  }

  lemma ApplyDestructs(env: Env, s: State, op: Op)
    ensures s.selfDestructs <= env.Apply(s, op).selfDestructs
    ensures op.SelfDestruct? ==> op.a in env.Apply(s, op).selfDestructs
  {
    hide Put, FetchStorage, SetStorage, CreateContract;
    match op
    case SetBalance(a, v) => PutDestructs(env.db, s, a, ToBalance(v));
    case AddToBalance(a, v) => PutDestructs(env.db, s, a, Credit(v));
    case SubtractFromBalance(a, v) => PutDestructs(env.db, s, a, Debit(v));
    case SetNonce(a, n) => PutDestructs(env.db, s, a, ToNonce(n));
    case DeployCode(a, code) => PutDestructs(env.db, s, a, ToCodeHash(env.keccak(code)));
    case ReadStorage(a, k, original) => FetchStorageDestructs(env.db, s, a, k, original);
    case WriteStorage(a, k, v) => SetStorageDestructs(env.db, s, a, k, v);
    case MakeContract(a) => CreateDestructs(env.db, s, a);
    case _ =>
  }

  lemma PutDestructs(db: Db, s: State, a: Address, e: Edit)
    ensures Put(db, s, a, e).selfDestructs == s.selfDestructs
  {
    hide Edited;
  }

  lemma FetchStorageDestructs(db: Db, s: State, a: Address, k: Word, original: bool)
    ensures FetchStorage(db, s, a, k, original).selfDestructs == s.selfDestructs
  {
    hide Filled;
  }

  lemma SetStorageDestructs(db: Db, s: State, a: Address, k: Word, v: Word)
    ensures SetStorage(db, s, a, k, v).selfDestructs == s.selfDestructs
  {
    hide FetchStorage, CurrentStorage;
    FetchStorageDestructs(db, s, a, k, false);
  }

  lemma CreateDestructs(db: Db, s: State, a: Address)
    ensures CreateContract(db, s, a).selfDestructs == s.selfDestructs
  {
    hide NewIncarnation;
  }

  lemma QuietOp(env: Env, s: State, op: Op)
    requires !MovesBalance(op)
    ensures Quiet(env.db, s, env.Apply(s, op))
  {
    hide Descends, Journal.Apply;
    ApplyDescends(env, s, op);
    ApplyKeeps(env.db, env.keccak, s, op);
  }

  lemma QuietReflexive(db: Db, s: State)
    ensures Quiet(db, s, s)
  {
    DescendsReflexive(db, s);
  }

  lemma QuietThen(db: Db, s: State, t: State, u: State)
    requires Quiet(db, s, t) && Quiet(db, t, u)
    ensures Quiet(db, s, u)
  {
    hide Descends, BalanceIn;
    DescendsTransitive(db, s, t, u);
  }

  lemma QuietConserves(db: Db, s: State, t: State)
    requires Quiet(db, s, t)
    ensures Conserves(db, s, t, 0)
  {
    hide Descends;
    SameBalances(db, s, t);
  }

  lemma ConservesThen(db: Db, s: State, t: State, u: State, burned: nat, more: nat)
    requires Conserves(db, s, t, burned) && Conserves(db, t, u, more)
    ensures Conserves(db, s, u, burned + more)
  {
    hide Descends;
    DescendsTransitive(db, s, t, u);
  }

  lemma TransferConserves(env: Env, s: State, from: Address, to: Address, value: Word)
    requires value <= BalanceOf(env.db, s, from)
    ensures Conserves(env.db, s, Transfer(env, s, from, to, value), 0)
  {
    hide Descends, Journal.Apply, BalanceIn, Supply;
    var s1 := env.Apply(s, SubtractFromBalance(from, value));
    ApplyMoves(env.db, env.keccak, s, SubtractFromBalance(from, value));
    ApplyMoves(env.db, env.keccak, s1, AddToBalance(to, value));
    ApplyDescends(env, s, SubtractFromBalance(from, value));
    ApplyDescends(env, s1, AddToBalance(to, value));
    DescendsTransitive(env.db, s, s1, Transfer(env, s, from, to, value));
  }

  lemma SelfDestructConserves(env: Env, s: State, a: Address, beneficiary: Address)
    ensures Conserves(env.db, s, RunSelfDestruct(env, s, a, beneficiary),
                      if a == beneficiary then BalanceOf(env.db, s, a) else 0)
  {
    hide Descends, Journal.Apply, BalanceIn, Supply, Quiet;
    var db, v := env.db, BalanceOf(env.db, s, a);
    var s0 := env.Apply(s, Op.SelfDestruct(a));
    var s1 := env.Apply(s0, ReadAccount(a));
    var s2 := env.Apply(s1, AddToBalance(beneficiary, v));
    ApplyDescends(env, s, Op.SelfDestruct(a));
    QuietOp(env, s, Op.SelfDestruct(a));
    ApplyDescends(env, s0, ReadAccount(a));
    QuietOp(env, s0, ReadAccount(a));
    QuietThen(db, s, s0, s1);
    QuietConserves(db, s, s1);
    assert BalanceOf(db, s1, a) == v by { QuietBalance(db, s, s1, a); }
    ApplyMoves(db, env.keccak, s1, AddToBalance(beneficiary, v));
    ApplyMoves(db, env.keccak, s2, SetBalance(a, 0));
    ApplyDescends(env, s1, AddToBalance(beneficiary, v));
    ApplyDescends(env, s2, SetBalance(a, 0));
    DescendsTransitive(db, s1, s2, RunSelfDestruct(env, s, a, beneficiary));
    DescendsTransitive(db, s, s1, RunSelfDestruct(env, s, a, beneficiary));
    if a != beneficiary {
      TwoBalances(db, s1, a, beneficiary);
    }
  }

  lemma QuietBalance(db: Db, s: State, t: State, a: Address)
    requires Quiet(db, s, t)
    ensures BalanceOf(db, t, a) == BalanceOf(db, s, a)
  {
  }

  lemma {:induction false} QuietOps(env: Env, s: State, ops: seq<Op>)
    requires forall op <- ops :: !MovesBalance(op)
    ensures Quiet(env.db, s, ApplyAll(env.db, env.keccak, s, ops))
    decreases |ops|
  {
    hide Quiet, Journal.Apply;
    if ops == [] {
      QuietReflexive(env.db, s);
    } else {
      QuietOp(env, s, ops[0]);
      QuietOps(env, env.Apply(s, ops[0]), ops[1..]);
      QuietThen(env.db, s, env.Apply(s, ops[0]), ApplyAll(env.db, env.keccak, s, ops));
    }
  }

  lemma WriteQuiet(env: Env, s: State, a: Address, k: Word, v: Word)
    ensures Quiet(env.db, s, ApplyAll(env.db, env.keccak, s, WriteOps(env.db, env.rev, s, a, k, v)))
  {
    hide ApplyAll, Quiet, CurrentStorage, OriginalStorage;
    QuietOps(env, s, WriteOps(env.db, env.rev, s, a, k, v));
  }

  /** A frame that fails gives everything back. */
  lemma CloseConserves(db: Db, saved: State, o: Outcome)
    requires Conserves(db, saved, o.state, o.burned)
    ensures Conserves(db, saved, Close(saved, o).state, Close(saved, o).burned)
  {
    hide Undoable, Restores, Supply;
    if o.result.status != SUCCESS {
      RevertRestores(db, saved, o.state);
      var t := BackTo(saved, o.state);
      assert t == Revert(o.state, TakeSnapshot(saved));
      forall b
        ensures BalanceIn(db, t.objects, b) == BalanceIn(db, saved.objects, b)
      {
        assert AccountOf(db, t, b) == AccountOf(db, saved, b);
      }
      SameBalances(db, saved, t);
      DescendsReflexive(db, saved);
      UndoableFrom(db, saved, saved, t);
    }
  }

  // --- call trees ---

  lemma {:induction false} PerformConserves(env: Env, s: State, action: Action)
    ensures Conserves(env.db, s, Perform(env, s, action).state, Perform(env, s, action).burned)
    decreases action, 1
  {
    hide Conserves, Supply, Journal.Apply, ApplyAll, WriteOps, RunSelfDestruct, Quiet, RunCall, RunCreate;
    match action
    case Observe(op) =>
      if Observes(op) { QuietOp(env, s, op); } else { QuietReflexive(env.db, s); }
      QuietConserves(env.db, s, Perform(env, s, action).state);
    case Store(a, k, v) =>
      WriteQuiet(env, s, a, k, v);
      QuietConserves(env.db, s, Perform(env, s, action).state);
    case Destroy(a, beneficiary) => SelfDestructConserves(env, s, a, beneficiary);
    case Invoke(m, p) => DispatchConserves(env, s, m, p);
  }

  /** For every call tree, executing a message changes the sum of all balances by exactly what
      self-destruction in favour of oneself burned. */
  lemma {:induction false} DispatchConserves(env: Env, s: State, m: Message, p: Program)
    ensures Conserves(env.db, s, Dispatch(env, s, m, p).state, Dispatch(env, s, m, p).burned)
    decreases p, 2
  {
    hide Conserves, Supply, RunCall, RunCreate;
    if m.kind == CREATE || m.kind == CREATE2 {
      CreateConserves(env, s, m, p);
    } else {
      CallConserves(env, s, m, p);
    }
  }

  lemma {:induction false} PerformAllConserves(env: Env, s: State, actions: seq<Action>)
    ensures Conserves(env.db, s, PerformAll(env, s, actions).state, PerformAll(env, s, actions).burned)
    decreases actions
  {
    hide Supply, Perform, Descends, Quiet;
    if actions == [] {
      QuietReflexive(env.db, s);
      QuietConserves(env.db, s, s);
    } else {
      var o := Perform(env, s, actions[0]);
      PerformConserves(env, s, actions[0]);
      PerformAllConserves(env, o.state, actions[1..]);
      ConservesThen(env.db, s, o.state, PerformAll(env, o.state, actions[1..]).state,
                    o.burned, PerformAll(env, o.state, actions[1..]).burned);
    }
  }

  lemma {:induction false} ExecuteConserves(env: Env, s: State, p: Program)
    ensures Conserves(env.db, s, Execute(env, s, p).state, Execute(env, s, p).burned)
    decreases p, 0
  {
    PerformAllConserves(env, s, p.actions);
  }

  lemma {:induction false} CallConserves(env: Env, s: State, m: Message, p: Program)
    ensures Conserves(env.db, s, RunCall(env, s, m, p).state, RunCall(env, s, m, p).burned)
    decreases p, 1
  {
    hide Conserves, Supply, Journal.Apply, Quiet, Paid, Close, Execute, Live, BalanceIn, CodeOf, Descends;
    var db := env.db;
    var s1 := if m.kind != DELEGATECALL then env.Apply(s, ReadAccount(m.sender)) else s;
    assert Quiet(db, s, s1) by { if m.kind != DELEGATECALL { QuietOp(env, s, ReadAccount(m.sender)); } else { QuietReflexive(db, s); } }
    var mayBeAbsent := m.value == 0 && env.rev >= SPURIOUS_DRAGON;
    var s2 := if mayBeAbsent then env.Apply(s1, ReadAccount(m.destination)) else s1;
    assert Quiet(db, s1, s2) by { if mayBeAbsent { QuietOp(env, s1, ReadAccount(m.destination)); } else { QuietReflexive(db, s1); } }
    QuietThen(db, s, s1, s2);
    QuietConserves(db, s, s1);
    QuietConserves(db, s, s2);
    QuietBalance(db, s, s2, m.sender);
    if !(m.kind != DELEGATECALL && BalanceOf(db, s, m.sender) < m.value) {
      var s3 := Paid(env, s2, m);
      CallMoves(env, s2, m);
      CloseAfter(db, s, s2, Outcome(s3, RunPrecompiled(env, m), 0));
      var s4 := env.Apply(s3, ReadCode(m.destination));
      QuietOp(env, s3, ReadCode(m.destination));
      QuietConserves(db, s3, s4);
      ConservesThen(db, s2, s3, s4, 0, 0);
      ConservesThen(db, s, s2, s4, 0, 0);
      ExecuteConserves(env, s4, p);
      ConservesThen(db, s2, s4, Execute(env, s4, p).state, 0, Execute(env, s4, p).burned);
      CloseAfter(db, s, s2, Execute(env, s4, p));
    }
  }

  lemma CallMoves(env: Env, s: State, m: Message)
    requires m.kind == CALL ==> m.value <= BalanceOf(env.db, s, m.sender)
    ensures Conserves(env.db, s, Paid(env, s, m), 0)
  {
    hide Conserves, Supply, Journal.Apply, Quiet, Transfer;
    if m.kind != CALL {
      QuietReflexive(env.db, s);
      QuietConserves(env.db, s, s);
    } else if m.readOnly {
      QuietOp(env, s, TouchAccount(m.destination));
      QuietConserves(env.db, s, env.Apply(s, TouchAccount(m.destination)));
    } else {
      TransferConserves(env, s, m.sender, m.destination, m.value);
    }
  }

  lemma CloseAfter(db: Db, s: State, saved: State, o: Outcome)
    requires Conserves(db, s, saved, 0) && Conserves(db, saved, o.state, o.burned)
    ensures Conserves(db, s, Close(saved, o).state, Close(saved, o).burned)
  {
    hide Conserves, Close;
    CloseConserves(db, saved, o);
    ConservesThen(db, s, saved, Close(saved, o).state, 0, Close(saved, o).burned);
  }

  lemma {:induction false} CreateConserves(env: Env, s: State, m: Message, p: Program)
    ensures Conserves(env.db, s, RunCreate(env, s, m, p).state, RunCreate(env, s, m, p).burned)
    decreases p, 1
  {
    hide Conserves, Supply, Journal.Apply, Quiet, Founded, Close, Execute, BalanceIn, Deploy, NonceOf, CodeHashOf, Descends;
    var db := env.db;
    var s1 := env.Apply(s, ReadAccount(m.sender));
    QuietOp(env, s, ReadAccount(m.sender));
    QuietConserves(db, s, s1);
    if BalanceOf(db, s, m.sender) >= m.value {
      var nonce := NonceOf(db, s1, m.sender);
      var a := env.newAddress(m, nonce);
      var s2 := Announced(env, s1, m.sender, nonce, a);
      QuietThree(env, s1, SetNonce(m.sender, (nonce + 1) % TWO_64), WarmAccount(a), ReadAccount(a));
      QuietThen(db, s, s1, s2);
      QuietConserves(db, s, s2);
      QuietBalance(db, s, s2, m.sender);
      if NonceOf(db, s2, a) == 0 && CodeHashOf(db, s2, a) == EMPTY_HASH {
        var s5 := Founded(env, s2, m, a);
        CreateMoves(env, s2, m, a);
        ExecuteConserves(env, s5, p);
        var o := Execute(env, s5, p);
        ConservesThen(db, s2, s5, o.state, 0, o.burned);
        DeployConserves(env, s2, a, o);
        CloseAfter(db, s, s2, Deploy(env, a, o));
      }
    }
  }

  lemma QuietThree(env: Env, s: State, x: Op, y: Op, z: Op)
    requires !MovesBalance(x) && !MovesBalance(y) && !MovesBalance(z)
    ensures Quiet(env.db, s, env.Apply(env.Apply(env.Apply(s, x), y), z))
  {
    hide Quiet, Journal.Apply;
    QuietOp(env, s, x);
    QuietOp(env, env.Apply(s, x), y);
    QuietOp(env, env.Apply(env.Apply(s, x), y), z);
    QuietThen(env.db, s, env.Apply(s, x), env.Apply(env.Apply(s, x), y));
    QuietThen(env.db, s, env.Apply(env.Apply(s, x), y), env.Apply(env.Apply(env.Apply(s, x), y), z));
  }

  lemma CreateMoves(env: Env, s: State, m: Message, a: Address)
    requires m.value <= BalanceOf(env.db, s, m.sender)
    ensures Conserves(env.db, s, Founded(env, s, m, a), 0)
  {
    hide Conserves, Supply, Journal.Apply, Quiet, Transfer, BalanceIn;
    var db := env.db;
    var s3 := env.Apply(s, MakeContract(a));
    var s4 := if env.rev >= SPURIOUS_DRAGON then env.Apply(s3, SetNonce(a, 1)) else s3;
    QuietOp(env, s, MakeContract(a));
    assert Quiet(db, s3, s4) by { if env.rev >= SPURIOUS_DRAGON { QuietOp(env, s3, SetNonce(a, 1)); } else { QuietReflexive(db, s3); } }
    QuietThen(db, s, s3, s4);
    QuietConserves(db, s, s4);
    QuietBalance(db, s, s4, m.sender);
    TransferConserves(env, s4, m.sender, a, m.value);
    ConservesThen(db, s, s4, Transfer(env, s4, m.sender, a, m.value), 0, 0);
  }

  lemma DeployConserves(env: Env, s: State, a: Address, o: Outcome)
    requires Conserves(env.db, s, o.state, o.burned)
    ensures Conserves(env.db, s, Deploy(env, a, o).state, Deploy(env, a, o).burned)
  {
    hide Conserves, Journal.Apply, Quiet;
    QuietOp(env, o.state, DeployCode(a, o.result.output));
    QuietConserves(env.db, o.state, env.Apply(o.state, DeployCode(a, o.result.output)));
    ConservesThen(env.db, s, o.state, env.Apply(o.state, DeployCode(a, o.result.output)), o.burned, 0);
  }
}
