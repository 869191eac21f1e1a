/** If every frame writes the storage of its own account only, every run of a call tree is legal: only contracts
    write storage. */
module Ownership {
  import opened Basics
  import opened World
  import opened Journal
  import opened FlatState
  import opened Ether
  import opened Refunds
  import opened Evm
  import opened EvmSupply
  import opened Traces
  import opened Frames
  import opened Mirrors
  import opened Processor
  import opened Refinement
  import C = ChainStates

  // --- contracts stay contracts ---

  ghost predicate ContractAt(db: Db, s: State, a: Address)
  {
    AccountOf(db, s, a).Some? && AccountOf(db, s, a).value.incarnation > 0
  }

  predicate CodedAccount(c: Option<Account>)
  {
    c.Some? && c.value.codeHash != EMPTY_HASH ==> c.value.incarnation > 0
  }

  /** Accounts with code are contracts. */
  ghost predicate Coded(db: Db, s: State)
  {
    forall a :: CodedAccount(AccountOf(db, s, a))
  }

  /** `t` is coded, and the contracts of `s` are contracts in `t`. */
  ghost predicate Keeps(db: Db, s: State, t: State)
  {
    && (forall a :: CodedAccount(AccountOf(db, t, a)))
    && (forall a | ContractAt(db, s, a) :: ContractAt(db, t, a))
  }

  lemma KeepsReflexive(db: Db, s: State)
    requires Coded(db, s)
    ensures Keeps(db, s, s)
  {
  }

  lemma KeepsTransitive(db: Db, s: State, t: State, u: State)
    requires Keeps(db, s, t) && Keeps(db, t, u)
    ensures Keeps(db, s, u)
  {
  }

  lemma KeepsCoded(db: Db, s: State, t: State)
    requires Keeps(db, s, t)
    ensures Coded(db, t)
  {
  }

  lemma ApplyKeepsContracts(env: Env, s: State, op: Op)
    requires Coded(env.db, s) && (op.DeployCode? ==> ContractAt(env.db, s, op.a))
    ensures Keeps(env.db, s, env.Apply(s, op))
  {
    hide Journal.Apply;
    forall a
      ensures CodedAccount(AccountOf(env.db, env.Apply(s, op), a))
      ensures ContractAt(env.db, s, a) ==> ContractAt(env.db, env.Apply(s, op), a)
    {
      assert CodedAccount(AccountOf(env.db, s, a));
      ApplyAfter(env.db, env.keccak, s, op, a);
      AfterKeeps(env.keccak, op, a, C.Bare(AccountOf(env.db, s, a)));
    }
  }

  lemma AfterKeeps(keccak: Bytes -> Word, op: Op, b: Address, c: Option<Account>)
    requires CodedAccount(c) && (op.DeployCode? && op.a == b ==> c.Some? && c.value.incarnation > 0)
    ensures var r := AccountAfter(keccak, op, b, c);
      CodedAccount(r) && (c.Some? && c.value.incarnation > 0 ==> r.Some? && r.value.incarnation > 0)
  {
  }

  lemma {:induction false} OpsKeepContracts(env: Env, s: State, ops: seq<Op>)
    requires Coded(env.db, s) && forall op <- ops :: !op.DeployCode?
    ensures Keeps(env.db, s, ApplyAll(env.db, env.keccak, s, ops))
    decreases |ops|
  {
    hide Coded, Keeps, Journal.Apply;
    if ops == [] {
      KeepsReflexive(env.db, s);
    } else {
      var t := env.Apply(s, ops[0]);
      ApplyKeepsContracts(env, s, ops[0]);
      KeepsCoded(env.db, s, t);
      OpsKeepContracts(env, t, ops[1..]);
      KeepsTransitive(env.db, s, t, ApplyAll(env.db, env.keccak, s, ops));
    }
  }

  lemma CloseKeeps(db: Db, s: State, o: Outcome)
    requires Coded(db, s) && Keeps(db, s, o.state) && Descends(db, s, o.state)
    ensures Keeps(db, s, Close(s, o).state)
  {
    hide Undoable;
    if o.result.status != SUCCESS {
      RevertRestores(db, s, o.state);
      var u := BackTo(s, o.state);
      forall a ensures AccountOf(db, u, a) == AccountOf(db, s, a) && CodedAccount(AccountOf(db, s, a)) {
      }
    }
  }

  // --- the start of a program ---

  /** Code of another account runs for a contract only. */
  ghost predicate Entitled(db: Db, s: State, self: Address, m: Message)
  {
    m.kind == DELEGATECALL || m.kind == CALLCODE ==> ContractAt(db, s, Runner(self, m))
  }

  /** The accounts on the way to the start of a program. */
  lemma EnterKeeps(env: Env, s: State, self: Address, m: Message)
    requires Coded(env.db, s) && Enter(env, s, self, m).Some? && Entitled(env.db, s, self, m)
    ensures var e := Enter(env, s, self, m).value;
      Keeps(env.db, s, e.state) && ContractAt(env.db, e.state, e.self)
  {
    hide Coded, Keeps, Journal.Apply, Paid, BalanceIn, Live, CodeOf, NonceOf, CodeHashOf, Founded, Passes, ContractAt, BeforePayment, Counted;
    if Creates(m) {
      CountedKeeps(env, s, m);
      KeepsCoded(env.db, s, Counted(env, s, m));
      FoundedKeeps(env, Counted(env, s, m), m, NewAddress(env, s, m));
      KeepsTransitive(env.db, s, Counted(env, s, m), Enter(env, s, self, m).value.state);
    } else {
      var s2 := BeforePayment(env, s, m);
      var s3 := Paid(env, s2, m);
      BeforeKeeps(env, s, m);
      KeepsCoded(env.db, s, s2);
      PaidKeeps(env, s2, m);
      KeepsCoded(env.db, s2, s3);
      KeepsTransitive(env.db, s, s2, s3);
      CodeContract(env.db, s3, m.destination);
      var s4 := env.Apply(s3, ReadCode(m.destination));
      ApplyKeepsContracts(env, s3, ReadCode(m.destination));
      KeepsTransitive(env.db, s, s3, s4);
      KeptContract(env.db, s3, s4, m.destination);
      if m.kind == DELEGATECALL || m.kind == CALLCODE { KeptContract(env.db, s, s4, Runner(self, m)); }
    }
  }

  lemma KeptContract(db: Db, s: State, t: State, a: Address)
    requires Keeps(db, s, t) && ContractAt(db, s, a)
    ensures ContractAt(db, t, a)
  {
  }

  lemma CodeContract(db: Db, s: State, a: Address)
    requires Coded(db, s) && CodeOf(db, s, a) != []
    ensures ContractAt(db, s, a)
  {
    assert CodedAccount(AccountOf(db, s, a));
  }

  lemma BeforeKeeps(env: Env, s: State, m: Message)
    requires Coded(env.db, s)
    ensures Keeps(env.db, s, BeforePayment(env, s, m))
  {
    hide Coded, Keeps, Journal.Apply;
    KeepsReflexive(env.db, s);
    ApplyKeepsContracts(env, s, ReadAccount(m.sender));
    var s1 := if m.kind != DELEGATECALL then env.Apply(s, ReadAccount(m.sender)) else s;
    KeepsCoded(env.db, s, s1);
    ApplyKeepsContracts(env, s1, ReadAccount(m.destination));
    KeepsTransitive(env.db, s, s1, env.Apply(s1, ReadAccount(m.destination)));
  }

  lemma PaidKeeps(env: Env, s: State, m: Message)
    requires Coded(env.db, s)
    ensures Keeps(env.db, s, Paid(env, s, m))
  {
    hide Coded, Keeps, Journal.Apply, Paid, ApplyAll;
    PaidState(env, s, m);
    OpsKeepContracts(env, s, PaidOps(m));
  }

  lemma CountedKeeps(env: Env, s: State, m: Message)
    requires Coded(env.db, s)
    ensures Keeps(env.db, s, Counted(env, s, m))
  {
    hide Coded, Keeps, Journal.Apply, ApplyAll, Announced, NonceOf;
    var s1, nonce, a := env.Apply(s, ReadAccount(m.sender)), NewNonce(env, s, m), NewAddress(env, s, m);
    ApplyKeepsContracts(env, s, ReadAccount(m.sender));
    KeepsCoded(env.db, s, s1);
    AnnouncedState(env, s1, m.sender, nonce, a);
    OpsKeepContracts(env, s1, AnnouncedOps(m.sender, nonce, a));
    KeepsTransitive(env.db, s, s1, Counted(env, s, m));
  }

  lemma FoundedKeeps(env: Env, s: State, m: Message, a: Address)
    requires Coded(env.db, s)
    ensures Keeps(env.db, s, Founded(env, s, m, a)) && ContractAt(env.db, Founded(env, s, m, a), a)
  {
    hide Coded, Keeps, Journal.Apply, ApplyAll, Founded;
    FoundedState(env, s, m, a);
    OpsKeepContracts(env, s, FoundedOps(env, m, a));
    var s1, rest := env.Apply(s, MakeContract(a)), FoundedOps(env, m, a)[1..];
    assert FoundedOps(env, m, a) == [MakeContract(a)] + rest;
    ApplyAllAppend(env.db, env.keccak, s, [MakeContract(a)], rest);
    OneOp(env, s, MakeContract(a));
    ApplyKeepsContracts(env, s, MakeContract(a));
    KeepsCoded(env.db, s, s1);
    OpsKeepContracts(env, s1, rest);
    MadeContract(env, s, a);
    KeptContract(env.db, s1, Founded(env, s, m, a), a);
  }

  lemma MadeContract(env: Env, s: State, a: Address)
    ensures ContractAt(env.db, env.Apply(s, MakeContract(a)), a)
  {
    hide Journal.Apply;
    ApplyAfter(env.db, env.keccak, s, MakeContract(a), a);
  }

  // --- call trees keep contracts ---

  lemma {:induction false} ActionKeeps(env: Env, s: State, action: Action)
    requires Coded(env.db, s)
    ensures Keeps(env.db, s, Perform(env, s, action).state)
    decreases action, 1
  {
    hide Coded, Keeps, Journal.Apply, ApplyAll, WriteOps, RunCall, RunCreate, BalanceIn;
    match action
    case Observe(op) =>
      KeepsReflexive(env.db, s);
      if Observes(op) { ApplyKeepsContracts(env, s, op); }
    case Store(a, k, v) =>
      WriteStill(env.db, env.rev, s, a, k, v);
      OpsKeepContracts(env, s, WriteOps(env.db, env.rev, s, a, k, v));
    case Destroy(a, beneficiary) =>
      var ops := [Op.SelfDestruct(a), ReadAccount(a), AddToBalance(beneficiary, BalanceOf(env.db, s, a)), SetBalance(a, 0)];
      FourOps(env, s, ops[0], ops[1], ops[2], ops[3]);
      OpsKeepContracts(env, s, ops);
    case Invoke(m, p) => MessageKeeps(env, s, m, p);
  }

  lemma {:induction false} MessageKeeps(env: Env, s: State, m: Message, p: Program)
    requires Coded(env.db, s)
    ensures Keeps(env.db, s, Dispatch(env, s, m, p).state)
    decreases p, 3
  {
    hide Coded, Keeps, RunCall, RunCreate;
    if Creates(m) { CreateKeeps(env, s, m, p); } else { CallKeeps(env, s, m, p); }
  }

  lemma {:induction false} AllKeep(env: Env, s: State, actions: seq<Action>)
    requires Coded(env.db, s)
    ensures Keeps(env.db, s, PerformAll(env, s, actions).state)
    decreases actions
  {
    hide Coded, Keeps, Perform;
    if actions == [] {
      KeepsReflexive(env.db, s);
    } else {
      var t := Perform(env, s, actions[0]).state;
      ActionKeeps(env, s, actions[0]);
      KeepsCoded(env.db, s, t);
      AllKeep(env, t, actions[1..]);
      KeepsTransitive(env.db, s, t, PerformAll(env, t, actions[1..]).state);
    }
  }

  lemma {:induction false} CallKeeps(env: Env, s: State, m: Message, p: Program)
    requires Coded(env.db, s)
    ensures Keeps(env.db, s, RunCall(env, s, m, p).state)
    decreases p, 2
  {
    hide Coded, Keeps, Journal.Apply, Paid, BalanceIn, Live, CodeOf, Close, PerformAll, Descends, IsPrecompiled, RunPrecompiled;
    KeepsReflexive(env.db, s);
    ApplyKeepsContracts(env, s, ReadAccount(m.sender));
    BeforeKeeps(env, s, m);
    var s2 := BeforePayment(env, s, m);
    var s3 := Paid(env, s2, m);
    var s4 := env.Apply(s3, ReadCode(m.destination));
    KeepsCoded(env.db, s, s2);
    PaidKeeps(env, s2, m);
    KeepsCoded(env.db, s2, s3);
    ApplyKeepsContracts(env, s3, ReadCode(m.destination));
    KeepsTransitive(env.db, s2, s3, s4);
    KeepsTransitive(env.db, s, s2, s4);
    KeepsCoded(env.db, s2, s4);
    AllKeep(env, s4, p.actions);
    KeepsTransitive(env.db, s2, s4, Execute(env, s4, p).state);
    CalledDescends(env, s2, m, p);
    CloseKeeps(env.db, s2, Execute(env, s4, p));
    KeepsTransitive(env.db, s, s2, Close(s2, Execute(env, s4, p)).state);
    var o := Outcome(s3, RunPrecompiled(env, m), 0);
    CloseKeeps(env.db, s2, o);
    KeepsTransitive(env.db, s, s2, Close(s2, o).state);
  }

  lemma {:induction false} CreateKeeps(env: Env, s: State, m: Message, p: Program)
    requires Coded(env.db, s)
    ensures Keeps(env.db, s, RunCreate(env, s, m, p).state)
    decreases p, 2
  {
    hide Coded, Keeps, Journal.Apply, BalanceIn, Close, PerformAll, Announced, Founded, Deploy, NonceOf, CodeHashOf, Descends;
    ApplyKeepsContracts(env, s, ReadAccount(m.sender));
    CountedKeeps(env, s, m);
    var a, s2 := NewAddress(env, s, m), Counted(env, s, m);
    var s3 := Founded(env, s2, m, a);
    KeepsCoded(env.db, s, s2);
    FoundedKeeps(env, s2, m, a);
    KeepsCoded(env.db, s2, s3);
    AllKeep(env, s3, p.actions);
    var o := Execute(env, s3, p);
    KeepsTransitive(env.db, s2, s3, o.state);
    KeptContract(env.db, s3, o.state, a);
    FoundedDescends(env, s2, m, a);
    ExecuteDescends(env, s3, p);
    DescendsTransitive(env.db, s2, s3, o.state);
    DeployKeeps(env, s2, a, o);
    CloseKeeps(env.db, s2, Deploy(env, a, o));
    KeepsTransitive(env.db, s, s2, Close(s2, Deploy(env, a, o)).state);
  }

  lemma ExecuteDescends(env: Env, s: State, p: Program)
    ensures Descends(env.db, s, Execute(env, s, p).state)
  {
    hide Descends, Supply, PerformAll;
    ExecuteConserves(env, s, p);
  }

  lemma DeployKeeps(env: Env, s: State, a: Address, o: Outcome)
    requires Keeps(env.db, s, o.state) && ContractAt(env.db, o.state, a) && Descends(env.db, s, o.state)
    ensures Keeps(env.db, s, Deploy(env, a, o).state) && Descends(env.db, s, Deploy(env, a, o).state)
  {
    hide Keeps, Coded, Journal.Apply, Descends, ContractAt;
    var op := DeployCode(a, o.result.output);
    KeepsCoded(env.db, s, o.state);
    ApplyKeepsContracts(env, o.state, op);
    KeepsTransitive(env.db, s, o.state, env.Apply(o.state, op));
    ApplyDescends(env, o.state, op);
    DescendsTransitive(env.db, s, o.state, env.Apply(o.state, op));
  }

  // --- frames that write their own storage ---

  ghost predicate OwnAction(env: Env, s: State, self: Address, action: Action)
    decreases action, 1
  {
    match action
    case Store(a, _, _) => a == self
    case Invoke(m, p) => (m.kind == CALLCODE ==> m.sender == self) && OwnMessage(env, s, self, m, p)
    case _ => true
  }

  ghost predicate OwnMessage(env: Env, s: State, self: Address, m: Message, p: Program)
    decreases p, 2
  {
    match Enter(env, s, self, m)
    case Some(e) => OwnAll(env, e.state, e.self, p.actions)
    case None => true
  }

  /** The frame of account `self` and the frames it starts write the storage of their own accounts only. */
  ghost predicate OwnAll(env: Env, s: State, self: Address, actions: seq<Action>)
    decreases actions
  {
    actions == [] ||
    (OwnAction(env, s, self, actions[0]) && OwnAll(env, Perform(env, s, actions[0]).state, self, actions[1..]))
  }

  // --- legal runs ---

  /** The flat maps and the copies kept after a run. */
  function FlatAfter(db: Db, keccak: Bytes -> Word, f: Flat, saved: seq<Flat>, steps: seq<HostStep>): (r: (Flat, seq<Flat>))
    requires LegalHostRun(db, keccak, f, saved, steps)
    ensures r.0 == FlatHostRun(db, keccak, f, saved, steps)
    decreases |steps|
  {
    if steps == [] then (f, saved)
    else
      var (g, kept) := FlatHostNext(db, keccak, f, saved, steps[0]);
      FlatAfter(db, keccak, g, kept, steps[1..])
  }

  lemma {:induction false} LegalConcat(db: Db, keccak: Bytes -> Word, f: Flat, saved: seq<Flat>, x: seq<HostStep>, y: seq<HostStep>)
    requires LegalHostRun(db, keccak, f, saved, x)
    requires var (g, kept) := FlatAfter(db, keccak, f, saved, x); LegalHostRun(db, keccak, g, kept, y)
    ensures LegalHostRun(db, keccak, f, saved, x + y)
    decreases |x|
  {
    hide FlatApply, Legal;
    if x == [] {
      assert x + y == y;
    } else {
      assert (x + y)[0] == x[0] && (x + y)[1..] == x[1..] + y;
      var (g, kept) := FlatHostNext(db, keccak, f, saved, x[0]);
      LegalConcat(db, keccak, g, kept, x[1..], y);
    }
  }

  lemma {:induction false} SavedAfter(db: Db, keccak: Bytes -> Word, f: Flat, saved: seq<Flat>, steps: seq<HostStep>)
    requires LegalHostRun(db, keccak, f, saved, steps)
    ensures |FlatAfter(db, keccak, f, saved, steps).1| == After(|saved|, steps)
    decreases |steps|
  {
    hide FlatApply, Legal;
    if steps != [] {
      var (g, kept) := FlatHostNext(db, keccak, f, saved, steps[0]);
      SavedAfter(db, keccak, g, kept, steps[1..]);
    }
  }

  lemma {:induction false} PlainLegal(db: Db, keccak: Bytes -> Word, f: Flat, saved: seq<Flat>, steps: seq<HostStep>)
    requires AllPlain(steps) && HostProper(|saved|, steps)
    ensures LegalHostRun(db, keccak, f, saved, steps)
    decreases |steps|
  {
    hide FlatApply;
    if steps != [] {
      assert Plain(steps[0]);
      var (g, kept) := FlatHostNext(db, keccak, f, saved, steps[0]);
      PlainLegal(db, keccak, g, kept, steps[1..]);
    }
  }

  /** The steps so far lead from the start of a transaction to `s`, legally, with `n` snapshots held. */
  ghost predicate Reaches(env: Env, s0: State, f0: Flat, steps: seq<HostStep>, s: State, n: nat)
  {
    && Starts(env.db, s0, f0) && Leads(env, s0, 0, steps, s) && After(0, steps) == n
    && LegalHostRun(env.db, env.keccak, f0, [], steps)
  }

  lemma ReachesMatches(env: Env, s0: State, f0: Flat, steps: seq<HostStep>, s: State, n: nat)
    requires Reaches(env, s0, f0, steps, s, n)
    ensures Matches(env.db, s, FlatHostRun(env.db, env.keccak, f0, [], steps))
  {
    hide Starts, Leads, Matches, LegalHostRun, FlatHostRun, NeverWraps, HostRun, CountRun, Cleared, After;
    LeadsRuns(env, s0, steps, s);
    RefundCoversCleared(env.db, env.keccak, env.rev, s0, f0, steps);
  }

  /** Plain steps that lead on. */
  lemma ReachesOn(env: Env, s0: State, f0: Flat, pre: seq<HostStep>, s: State, n: nat, steps: seq<HostStep>, t: State)
    requires Reaches(env, s0, f0, pre, s, n) && Leads(env, s, n, steps, t) && AllPlain(steps)
    ensures Reaches(env, s0, f0, pre + steps, t, After(n, steps))
  {
    hide Starts, FlatAfter, LegalHostRun, After, AllPlain;
    LeadsThen(env, s0, 0, pre, s, steps, t);
    AfterConcat(0, pre, steps);
    SavedAfter(env.db, env.keccak, f0, [], pre);
    var (g, kept) := FlatAfter(env.db, env.keccak, f0, [], pre);
    PlainLegal(env.db, env.keccak, g, kept, steps);
    LegalConcat(env.db, env.keccak, f0, [], pre, steps);
  }

  lemma StoreLegal(env: Env, s0: State, f0: Flat, pre: seq<HostStep>, s: State, n: nat, a: Address, k: Word, v: Word)
    requires Reaches(env, s0, f0, pre, s, n) && ContractAt(env.db, s, a)
    ensures LegalHostRun(env.db, env.keccak, f0, [], pre + [HostStep.Store(a, k, v)])
  {
    hide Starts, Leads, FlatAfter, FlatHostRun, Reaches, Sound;
    ReachesMatches(env, s0, f0, pre, s, n);
    assert LegalHostRun(env.db, env.keccak, f0, [], pre) by { ReachesLegal(env, s0, f0, pre, s, n); }
    var (g, kept) := FlatAfter(env.db, env.keccak, f0, [], pre);
    FlatAccount(env.db, s, g, a);
    var step := HostStep.Store(a, k, v);
    assert [step][1..] == [];
    assert LegalHostRun(env.db, env.keccak, g, kept, [step]);
    LegalConcat(env.db, env.keccak, f0, [], pre, [step]);
  }

  lemma ReachesLegal(env: Env, s0: State, f0: Flat, pre: seq<HostStep>, s: State, n: nat)
    requires Reaches(env, s0, f0, pre, s, n)
    ensures LegalHostRun(env.db, env.keccak, f0, [], pre)
  {
  }

  lemma FlatAccount(db: Db, s: State, f: Flat, a: Address)
    requires Sound(db, s, f)
    ensures AccountOf(db, s, a) == Get(f.accounts, a)
  {
    assert ViewAt(db, a, ObjectIn(db, s.objects, a), StorageIn(s.storage, a), f);
  }

  /** The run so far, followed by what leads on legally. */
  lemma ReachesThen(env: Env, s0: State, f0: Flat, pre: seq<HostStep>, s: State, n: nat, steps: seq<HostStep>, t: State)
    requires Reaches(env, s0, f0, pre, s, n) && Leads(env, s, n, steps, t)
    requires LegalHostRun(env.db, env.keccak, f0, [], pre + steps)
    ensures Reaches(env, s0, f0, pre + steps, t, After(n, steps))
  {
    hide Starts, Leads, LegalHostRun, After;
    LeadsThen(env, s0, 0, pre, s, steps, t);
    AfterConcat(0, pre, steps);
  }

  lemma {:induction false} ActionLegal(env: Env, s0: State, f0: Flat, pre: seq<HostStep>, s: State, n: nat, self: Address, action: Action)
    requires Reaches(env, s0, f0, pre, s, n) && Coded(env.db, s) && ContractAt(env.db, s, self) && OwnAction(env, s, self, action)
    ensures Reaches(env, s0, f0, pre + Trace(env, s, n, action), Perform(env, s, action).state, After(n, Trace(env, s, n, action)))
    decreases action, 1
  {
    hide Reaches, Coded, ContractAt, Leads, After, Perform, Others, Enter, BalanceIn;
    TraceLeads(env, s, n, action);
    var steps, t := Trace(env, s, n, action), Perform(env, s, action).state;
    match action
    case Observe(op) => ReachesOn(env, s0, f0, pre, s, n, steps, t);
    case Store(a, k, v) =>
      StoreLegal(env, s0, f0, pre, s, n, a, k, v);
      ReachesThen(env, s0, f0, pre, s, n, steps, t);
    case Destroy(a, beneficiary) =>
      OthersPlain([Op.SelfDestruct(a), ReadAccount(a), AddToBalance(beneficiary, BalanceOf(env.db, s, a)), SetBalance(a, 0)]);
      ReachesOn(env, s0, f0, pre, s, n, steps, t);
    case Invoke(m, p) =>
      MessageLegal(env, s0, f0, pre, s, n, self, m, p);
      DispatchPerformed(env, s, m, p);
  }

  lemma DispatchPerformed(env: Env, s: State, m: Message, p: Program)
    ensures Perform(env, s, Invoke(m, p)) == Dispatch(env, s, m, p)
  {
  }

  lemma {:induction false} AllLegal(env: Env, s0: State, f0: Flat, pre: seq<HostStep>, s: State, n: nat, self: Address, actions: seq<Action>)
    requires Reaches(env, s0, f0, pre, s, n) && Coded(env.db, s) && ContractAt(env.db, s, self) && OwnAll(env, s, self, actions)
    ensures Reaches(env, s0, f0, pre + TraceAll(env, s, n, actions), PerformAll(env, s, actions).state, After(n, TraceAll(env, s, n, actions)))
    decreases actions
  {
    hide Reaches, Coded, ContractAt, After, Trace, Perform, OwnAction;
    if actions == [] {
      assert pre + [] == pre;
      AfterNothing(n);
    } else {
      var first, t := Trace(env, s, n, actions[0]), Perform(env, s, actions[0]).state;
      ActionLegal(env, s0, f0, pre, s, n, self, actions[0]);
      ActionKeeps(env, s, actions[0]);
      assert Coded(env.db, t) && ContractAt(env.db, t, self) by {
        KeepsCoded(env.db, s, t);
        KeptContract(env.db, s, t, self);
      }
      AllLegal(env, s0, f0, pre + first, t, After(n, first), self, actions[1..]);
      var rest := TraceAll(env, t, After(n, first), actions[1..]);
      assert pre + (first + rest) == pre + first + rest;
      AfterConcat(n, first, rest);
    }
  }

  /** Every message whose frames write their own storage only runs legally. */
  lemma {:induction false} MessageLegal(env: Env, s0: State, f0: Flat, pre: seq<HostStep>, s: State, n: nat, self: Address, m: Message, p: Program)
    requires Reaches(env, s0, f0, pre, s, n) && Coded(env.db, s) && OwnMessage(env, s, self, m, p)
    requires Entitled(env.db, s, self, m)
    ensures var steps := TraceMessage(env, s, n, m, p);
      Reaches(env, s0, f0, pre + steps, Dispatch(env, s, m, p).state, After(n, steps))
    decreases p, 2
  {
    hide Reaches, Coded, ContractAt, Leads, After, TraceMessage, Dispatch, Enter, Prelude, Coda, TraceAll, Keeps;
    MessageLeads(env, s, n, m, p);
    var steps, t := TraceMessage(env, s, n, m, p), Dispatch(env, s, m, p).state;
    match Enter(env, s, self, m)
    case None =>
      IdlePlain(env, s, self, n, m, p);
      ReachesOn(env, s0, f0, pre, s, n, steps, t);
    case Some(e) =>
      EnterKeeps(env, s, self, m);
      KeepsCoded(env.db, s, e.state);
      PreludeLeads(env, s, self, n, m);
      AroundPlain(env, s, n, m, p);
      MessageTrace(env, s, self, n, m, p);
      var before, inner, after := Prelude(env, s, m), TraceAll(env, e.state, n + 1, p.actions), Coda(env, s, n, m, p);
      ReachesOn(env, s0, f0, pre, s, n, before, e.state);
      AllLegal(env, s0, f0, pre + before, e.state, n + 1, e.self, p.actions);
      MessageEnds(env, s0, f0, pre, s, n, before, inner, after, PerformAll(env, e.state, p.actions).state, t);
  }

  /** What comes after the program is legal, since the whole message is proper. */
  lemma MessageEnds(env: Env, s0: State, f0: Flat, pre: seq<HostStep>, s: State, n: nat,
                    before: seq<HostStep>, inner: seq<HostStep>, after: seq<HostStep>, u: State, t: State)
    requires Reaches(env, s0, f0, pre, s, n) && Leads(env, s, n, before + inner + after, t) && AllPlain(after)
    requires Reaches(env, s0, f0, pre + before + inner, u, After(n + 1, inner)) && After(n, before) == n + 1
    ensures Reaches(env, s0, f0, pre + (before + inner + after), t, After(n, before + inner + after))
  {
    hide Starts, FlatAfter, LegalHostRun, After, AllPlain;
    var all := pre + (before + inner + after);
    LeadsThen(env, s0, 0, pre, s, before + inner + after, t);
    AfterConcat(0, pre, before + inner + after);
    assert pre + before + inner + after == all;
    SavedAfter(env.db, env.keccak, f0, [], pre + before + inner);
    var (g, kept) := FlatAfter(env.db, env.keccak, f0, [], pre + before + inner);
    AfterConcat(0, pre + before, inner);
    AfterConcat(n, before, inner);
    ProperTail(n, before + inner, after);
    PlainLegal(env.db, env.keccak, g, kept, after);
    LegalConcat(env.db, env.keccak, f0, [], pre + before + inner, after);
  }

  lemma {:induction false} ProperTail(n: nat, x: seq<HostStep>, y: seq<HostStep>)
    requires HostProper(n, x + y)
    ensures HostProper(After(n, x), y)
    decreases |x|
  {
    if x == [] {
      assert x + y == y;
    } else {
      assert (x + y)[0] == x[0] && (x + y)[1..] == x[1..] + y;
      ProperTail(match x[0] case Snap => n + 1 case Back(i) => i + 1 case _ => n, x[1..], y);
    }
  }

  // --- transactions and blocks ---

  /** The frames of a transaction write the storage of their own accounts only. */
  ghost predicate OwnTxn(env: Env, s: State, txn: Txn)
    requires txn.from.Some? && Checked(txn)
  {
    OwnMessage(env, Prepare(env, s, txn), 0, MessageOf(txn), txn.program)
  }

  lemma SameCoded(db: Db, s: State, t: State)
    requires Coded(db, s) && SameObjects(db, s.objects, t.objects)
    ensures Coded(db, t)
  {
    forall a ensures CodedAccount(AccountOf(db, t, a)) {
      assert ObjectIn(db, s.objects, a) == ObjectIn(db, t.objects, a) && CodedAccount(AccountOf(db, s, a));
    }
  }

  lemma PrepareKeeps(env: Env, s: State, txn: Txn)
    requires txn.from.Some? && Coded(env.db, s)
    ensures Coded(env.db, Prepare(env, s, txn))
    ensures forall op <- PrepareOps(txn) :: !op.DeployCode? && !op.WriteStorage? && !op.AddRefund? && !op.SubtractRefund?
  {
    hide Coded, ApplyAll, Prepare, WarmOps, SameObjects;
    SameObjectsReflexive(env.db, s.objects);
    SameCoded(env.db, s, ClearSubstate(s));
    WarmOnly(txn.accessList);
    PrepareState(env, s, txn);
    OpsKeepContracts(env, ClearSubstate(s), PrepareOps(txn));
    KeepsCoded(env.db, ClearSubstate(s), Prepare(env, s, txn));
  }

  lemma MessageOfTrace(env: Env, s: State, txn: Txn)
    requires txn.from.Some? && Checked(txn)
    ensures MessageSteps(env, s, txn) == TraceMessage(env, s, 0, MessageOf(txn), txn.program)
    ensures ExecuteMessage(env, s, txn).state == Dispatch(env, s, MessageOf(txn), txn.program).state
  {
    hide TraceCall, TraceCreate, RunCall, RunCreate;
  }

  /** A transaction whose frames write their own storage only is legal. */
  lemma TransactionLegal(env: Env, beneficiary: Address, s: State, txn: Txn, f: Flat)
    requires txn.from.Some? && Checked(txn) && DbOk(env.db) && Between(env.db, s, f) && Coded(env.db, s) && OwnTxn(env, s, txn)
    ensures LegalTxn(env, beneficiary, s, txn, f)
    ensures Coded(env.db, ExecuteTransaction(env, beneficiary, s, txn).state)
  {
    hide Reaches, Coded, Between, DbOk, After, Leads, Prepare, TraceMessage, Dispatch, OwnMessage, LegalHostRun, Others, PrepareOps, ApplyAll,
      ExecuteMessage, Starts, Returned, ExecuteTransaction, MessageSteps, AllPlain, AwardOps, MessageOf;
    var s0, f0, s1 := ClearSubstate(s), Begun(f), Prepare(env, s, txn);
    BetweenStarts(env.db, s, f);
    ReachesStart(env, s0, f0);
    PrepareKeeps(env, s, txn);
    PrepareState(env, s, txn);
    LeadsOps(env, s0, 0, PrepareOps(txn));
    OthersPlain(PrepareOps(txn));
    ReachesOn(env, s0, f0, [], s0, 0, Others(PrepareOps(txn)), s1);
    assert [] + Others(PrepareOps(txn)) == Others(PrepareOps(txn));
    MessageOfTrace(env, s1, txn);
    assert MessageOf(txn).kind == CREATE || MessageOf(txn).kind == CALL by { MessageKind(txn); }
    MessageLegal(env, s0, f0, Others(PrepareOps(txn)), s1, 0, 0, MessageOf(txn), txn.program);
    MessageKeeps(env, s1, MessageOf(txn), txn.program);
    var m := ExecuteMessage(env, s1, txn).state;
    KeepsCoded(env.db, s1, m);
    var steps, n := MainSteps(env, s, txn), After(0, MessageSteps(env, s1, txn));
    AwardLegal(env, beneficiary, s, txn, f0, m, steps, n);
    TransactionCoded(env, beneficiary, s, txn);
  }

  lemma MessageKind(txn: Txn)
    requires txn.from.Some? && Checked(txn)
    ensures MessageOf(txn).kind == CREATE || MessageOf(txn).kind == CALL
  {
  }

  lemma ReachesStart(env: Env, s: State, f: Flat)
    requires Starts(env.db, s, f)
    ensures Reaches(env, s, f, [], s, 0)
  {
    hide Starts;
    LeadsNowhere(env, s, 0);
  }

  lemma AwardLegal(env: Env, beneficiary: Address, s: State, txn: Txn, f0: Flat, m: State, steps: seq<HostStep>, n: nat)
    requires txn.from.Some? && Checked(txn) && steps == MainSteps(env, s, txn)
    requires Reaches(env, ClearSubstate(s), f0, steps, m, n)
    ensures LegalHostRun(env.db, env.keccak, f0, [], TxnSteps(env, beneficiary, s, txn))
  {
    hide Reaches, After, Leads, MainSteps, Others, ApplyAll, LegalHostRun, AllPlain, Returned, Product;
    var ops := AwardOps(beneficiary, txn, Returned(env, s, txn));
    LeadsOps(env, m, n, ops);
    OthersPlain(ops);
    ReachesOn(env, ClearSubstate(s), f0, steps, m, n, Others(ops), ApplyAll(env.db, env.keccak, m, ops));
    ReachesLegal(env, ClearSubstate(s), f0, steps + Others(ops), ApplyAll(env.db, env.keccak, m, ops), After(n, Others(ops)));
  }

  lemma TransactionCoded(env: Env, beneficiary: Address, s: State, txn: Txn)
    requires txn.from.Some? && Checked(txn) && Coded(env.db, ExecuteMessage(env, Prepare(env, s, txn), txn).state)
    ensures Coded(env.db, ExecuteTransaction(env, beneficiary, s, txn).state)
  {
    hide Coded, ApplyAll, ExecuteMessage, Prepare, Finish, Returned, Journal.Apply, Product, GasBack, Held;
    TxnEnds(env, beneficiary, s, txn);
    var m, back := ExecuteMessage(env, Prepare(env, s, txn), txn).state, Returned(env, s, txn);
    var ops := AwardOps(beneficiary, txn, back);
    OpsKeepContracts(env, m, ops);
    TwoOps(env, m, ops[0], ops[1]);
    KeepsCoded(env.db, m, ApplyAll(env.db, env.keccak, m, ops));
    FinishCoded(env, BeforeFinish(env, beneficiary, s, txn));
  }

  lemma FinishCoded(env: Env, s: State)
    requires Coded(env.db, s)
    ensures Coded(env.db, Finish(env, s))
  {
    hide Finish, DestructAll;
    var db, t, u := env.db, Finish(env, s), EndTransaction(env.db, s, env.rev >= SPURIOUS_DRAGON);
    FinishIsEnd(env, s);
    forall a ensures CodedAccount(AccountOf(db, t, a)) {
      assert ObjectIn(db, u.objects, a) == ObjectIn(db, t.objects, a);
      DestructedObject(db, s, Gone(db, s, env.rev >= SPURIOUS_DRAGON), a);
      assert CodedAccount(AccountOf(db, s, a));
    }
  }

  /** The transactions that are executed write the storage of their own accounts only. */
  ghost predicate OwnTxns(env: Env, block: Block, s: State, used: nat, txns: seq<Txn>)
    requires forall txn <- txns :: Checked(txn)
    decreases |txns|
  {
    if txns == [] || Validate(env, block, used, s, txns[0]) != Ok then true
    else
      var s1, txn := Looked(env, s, txns[0]), txns[0];
      var t := ExecuteTransaction(env, block.beneficiary, s1, txn);
      OwnTxn(env, s1, txn) && OwnTxns(env, block, t.state, used + t.gasUsed, txns[1..])
  }

  lemma {:induction false} TxnsLegal(env: Env, block: Block, s: State, used: nat, txns: seq<Txn>, f: Flat)
    requires (forall txn <- txns :: Checked(txn)) && DbOk(env.db) && Between(env.db, s, f) && AllCommitted(s) && Coded(env.db, s)
    requires OwnTxns(env, block, s, used, txns)
    ensures FlatTxns(env, block, s, used, txns, f).Some?
    decreases |txns|
  {
    hide Between, LegalTxn, FlatTxn, ExecuteTransaction, Looked, Checked, Validate, DbOk, AllCommitted, Coded, OwnTxn;
    if txns != [] && Validate(env, block, used, s, txns[0]) == Ok {
      var s1, txn := Looked(env, s, txns[0]), txns[0];
      LookedBetween(env, s, txn, f);
      LookedCoded(env, s, txn);
      Admitted(env, block, used, s, txn);
      TransactionLegal(env, block.beneficiary, s1, txn, f);
      TransactionCommits(env, block.beneficiary, s1, txn, f);
      var t := ExecuteTransaction(env, block.beneficiary, s1, txn);
      TxnsLegal(env, block, t.state, used + t.gasUsed, txns[1..], FlatTxn(env, block.beneficiary, s1, txn, f));
    }
  }

  lemma LookedCoded(env: Env, s: State, txn: Txn)
    requires Coded(env.db, s)
    ensures Coded(env.db, Looked(env, s, txn))
  {
    hide Coded, Journal.Apply;
    if txn.from.Some? {
      ApplyKeepsContracts(env, s, ReadAccount(txn.from.value));
      KeepsCoded(env.db, s, Looked(env, s, txn));
    }
  }

  lemma {:induction false} DrainCoded(env: Env, s: State, children: seq<Address>, refund: Address)
    requires Coded(env.db, s)
    ensures Coded(env.db, DrainAll(env, s, children, refund))
    decreases |children|
  {
    hide Coded, Journal.Apply, BalanceIn, ApplyAll;
    if children != [] {
      var ops := [ReadAccount(children[0]), AddToBalance(refund, BalanceOf(env.db, s, children[0])), SetBalance(children[0], 0)];
      var t := ApplyAll(env.db, env.keccak, s, ops);
      ThreeOps(env, s, ops[0], ops[1], ops[2]);
      OpsKeepContracts(env, s, ops);
      KeepsCoded(env.db, s, t);
      DrainCoded(env, t, children[1..], refund);
    }
  }

  /** If accounts with code are contracts, a block whose frames write their own storage only is legal. */
  lemma BlockLegal(env: Env, block: Block, fork: Option<Fork>)
    requires (forall txn <- block.txns :: Checked(txn)) && DbOk(env.db) && Coded(env.db, FRESH_STATE)
    requires OwnTxns(env, block, Opening(env, fork), 0, block.txns)
    ensures FlatExecuted(env, block, fork).Some?
  {
    hide Between, DbOk, Checked, FlatTxns, OwnTxns, DrainAll, FlatDrain, Coded, AllCommitted, FlatOf, FlatRewarded;
    FreshBetween(env.db);
    var f := FlatOpening(env, fork);
    if fork.Some? {
      DrainRefines(env, FRESH_STATE, fork.value.children, fork.value.refund, FlatOf(env.db));
      DrainCoded(env, FRESH_STATE, fork.value.children, fork.value.refund);
    }
    TxnsLegal(env, block, Opening(env, fork), 0, block.txns, f);
  }
}
