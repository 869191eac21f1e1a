/** Every call tree of core/silkworm/execution/evm.cpp is a run of host steps: operations, storage writes,
    snapshots and reverts. What holds over all such runs holds for messages, transactions and blocks. */
module Traces {
  import opened Basics
  import opened World
  import opened Journal
  import opened FlatState
  import opened Ether
  import opened Refunds
  import opened Evm
  import opened EvmSupply

  // --- runs one after the other ---

  /** The number of snapshots held after some steps. */
  function After(n: nat, steps: seq<HostStep>): (r: nat)
    decreases |steps|
  {
    if steps == [] then n
    else After(match steps[0] case Snap => n + 1 case Back(i) => i + 1 case _ => n, steps[1..])
  }

  lemma {:induction false} AfterConcat(n: nat, x: seq<HostStep>, y: seq<HostStep>)
    ensures After(n, x + y) == After(After(n, x), y)
    ensures HostProper(n, x) && HostProper(After(n, x), y) ==> HostProper(n, x + y)
    decreases |x|
  {
    if x == [] {
      assert x + y == y;
    } else {
      assert (x + y)[0] == x[0] && (x + y)[1..] == x[1..] + y;
      AfterConcat(match x[0] case Snap => n + 1 case Back(i) => i + 1 case _ => n, x[1..], y);
    }
  }

  lemma {:induction false} RunConcat(env: Env, m: Machine, x: seq<HostStep>, y: seq<HostStep>)
    requires Consistent(env.db, m) && HostProper(|m.marks|, x) && HostProper(After(|m.marks|, x), y)
    ensures HostProper(|m.marks|, x + y)
    ensures |HostRun(env.db, env.keccak, env.rev, m, x).marks| == After(|m.marks|, x)
    ensures HostRun(env.db, env.keccak, env.rev, m, x + y) ==
            HostRun(env.db, env.keccak, env.rev, HostRun(env.db, env.keccak, env.rev, m, x), y)
    decreases |x|
  {
    hide HostNext, Consistent;
    AfterConcat(|m.marks|, x, y);
    if x == [] {
      assert x + y == y;
    } else {
      assert (x + y)[0] == x[0] && (x + y)[1..] == x[1..] + y;
      RunConcat(env, HostNext(env.db, env.keccak, env.rev, m, x[0]), x[1..], y);
    }
  }

  /** From `s`, with `n` snapshots held, the steps lead to `t` and leave those snapshots alone. */
  ghost predicate Leads(env: Env, s: State, n: nat, steps: seq<HostStep>, t: State)
  {
    && HostProper(n, steps) && After(n, steps) >= n
    && forall m: Machine | m.now == s && |m.marks| == n && Consistent(env.db, m) ::
         Arrives(env, m, steps, t)
  }

  ghost predicate Arrives(env: Env, m: Machine, steps: seq<HostStep>, t: State)
    requires Consistent(env.db, m) && HostProper(|m.marks|, steps)
  {
    var r := HostRun(env.db, env.keccak, env.rev, m, steps);
    r.now == t && |r.marks| >= |m.marks| && r.marks[..|m.marks|] == m.marks
  }

  lemma LeadsNowhere(env: Env, s: State, n: nat)
    ensures Leads(env, s, n, [], s)
  {
  }

  lemma LeadsThen(env: Env, s: State, n: nat, x: seq<HostStep>, t: State, y: seq<HostStep>, u: State)
    requires Leads(env, s, n, x, t) && Leads(env, t, After(n, x), y, u)
    ensures Leads(env, s, n, x + y, u)
  {
    hide Consistent, HostRun, HostProper, After;
    AfterConcat(n, x, y);
    forall m: Machine | m.now == s && |m.marks| == n && Consistent(env.db, m)
      ensures Arrives(env, m, x + y, u)
    {
      assert Arrives(env, m, x, t);
      RunConcat(env, m, x, y);
      var r := HostRun(env.db, env.keccak, env.rev, m, x);
      assert Arrives(env, r, y, u);
      var q := HostRun(env.db, env.keccak, env.rev, r, y);
      assert q.marks[..n] == q.marks[..|r.marks|][..n] == r.marks[..n];
    }
  }

  lemma RunOne(env: Env, m: Machine, step: HostStep)
    requires Consistent(env.db, m) && !step.Back?
    ensures HostProper(|m.marks|, [step])
    ensures HostRun(env.db, env.keccak, env.rev, m, [step]) == HostNext(env.db, env.keccak, env.rev, m, step)
  {
    hide Consistent, HostNext;
    assert [step][1..] == [];
  }

  lemma LeadsOp(env: Env, s: State, n: nat, op: Op)
    ensures Leads(env, s, n, [Other(op)], env.Apply(s, op))
    ensures After(n, [Other(op)]) == n
  {
    hide Consistent, Journal.Apply, HostRun;
    var steps := [Other(op)];
    assert steps[1..] == [] && HostProper(n, []) && HostProper(n, steps);
    assert After(n, steps) == After(n, []);
    forall m: Machine | m.now == s && |m.marks| == n && Consistent(env.db, m)
      ensures Arrives(env, m, steps, env.Apply(s, op))
    {
      RunOne(env, m, Other(op));
    }
  }

  lemma LeadsStore(env: Env, s: State, n: nat, a: Address, k: Word, v: Word)
    ensures Leads(env, s, n, [HostStep.Store(a, k, v)], ApplyAll(env.db, env.keccak, s, WriteOps(env.db, env.rev, s, a, k, v)))
    ensures After(n, [HostStep.Store(a, k, v)]) == n
  {
    hide Consistent, ApplyAll, WriteOps, HostRun;
    var steps := [HostStep.Store(a, k, v)];
    assert steps[1..] == [] && HostProper(n, []) && HostProper(n, steps);
    assert After(n, steps) == After(n, []);
    forall m: Machine | m.now == s && |m.marks| == n && Consistent(env.db, m)
      ensures Arrives(env, m, steps, ApplyAll(env.db, env.keccak, s, WriteOps(env.db, env.rev, s, a, k, v)))
    {
      RunOne(env, m, HostStep.Store(a, k, v));
    }
  }

  function Others(ops: seq<Op>): (steps: seq<HostStep>)
  {
    if ops == [] then [] else [Other(ops[0])] + Others(ops[1..])
  }

  lemma {:induction false} LeadsOps(env: Env, s: State, n: nat, ops: seq<Op>)
    ensures Leads(env, s, n, Others(ops), ApplyAll(env.db, env.keccak, s, ops))
    ensures After(n, Others(ops)) == n
    decreases |ops|
  {
    hide Leads, Journal.Apply, After;
    if ops == [] {
      LeadsNowhere(env, s, n);
      AfterNothing(n);
    } else {
      LeadsOp(env, s, n, ops[0]);
      LeadsOps(env, env.Apply(s, ops[0]), n, ops[1..]);
      LeadsThen(env, s, n, [Other(ops[0])], env.Apply(s, ops[0]), Others(ops[1..]), ApplyAll(env.db, env.keccak, s, ops));
      AfterConcat(n, [Other(ops[0])], Others(ops[1..]));
    }
  }

  lemma AfterNothing(n: nat)
    ensures After(n, []) == n
  {
  }

  lemma LeadsSnap(env: Env, s: State, n: nat)
    ensures HostProper(n, [Snap]) && After(n, [Snap]) == n + 1
    ensures forall m: Machine | m.now == s && |m.marks| == n && Consistent(env.db, m) ::
      HostRun(env.db, env.keccak, env.rev, m, [Snap]) == Machine(s, m.marks + [Mark(TakeSnapshot(s), s)])
  {
    hide Consistent;
    assert [Snap][1..] == [];
  }

  /** A frame that succeeds keeps what its body did. */
  lemma LeadsFrame(env: Env, saved: State, n: nat, body: seq<HostStep>, t: State)
    requires Leads(env, saved, n + 1, body, t)
    ensures Leads(env, saved, n, [Snap] + body, t)
  {
    hide Consistent, HostRun, HostProper, After;
    LeadsSnap(env, saved, n);
    AfterConcat(n, [Snap], body);
    forall m: Machine | m.now == saved && |m.marks| == n && Consistent(env.db, m)
      ensures Arrives(env, m, [Snap] + body, t)
    {
      RunConcat(env, m, [Snap], body);
      var q := HostRun(env.db, env.keccak, env.rev, m, [Snap]);
      assert Arrives(env, q, body, t);
      var r := HostRun(env.db, env.keccak, env.rev, q, body);
      assert r.marks[..n] == r.marks[..n + 1][..n] == m.marks;
    }
  }

  /** A frame that fails goes back to where it began. */
  lemma LeadsBack(env: Env, saved: State, n: nat, body: seq<HostStep>, t: State)
    requires Leads(env, saved, n + 1, body, t)
    ensures Leads(env, saved, n, [Snap] + body + [Back(n)], BackTo(saved, t))
  {
    hide Consistent, HostRun, HostProper, After;
    LeadsSnap(env, saved, n);
    AfterConcat(n, [Snap], body);
    BackProper(n, After(n + 1, body));
    AfterConcat(n, [Snap] + body, [Back(n)]);
    forall m: Machine | m.now == saved && |m.marks| == n && Consistent(env.db, m)
      ensures Arrives(env, m, [Snap] + body + [Back(n)], BackTo(saved, t))
    {
      RunConcat(env, m, [Snap], body);
      RunConcat(env, m, [Snap] + body, [Back(n)]);
      var q := HostRun(env.db, env.keccak, env.rev, m, [Snap]);
      assert Arrives(env, q, body, t);
      var r := HostRun(env.db, env.keccak, env.rev, q, body);
      assert r.marks[n] == r.marks[..n + 1][n] == Mark(TakeSnapshot(saved), saved);
      BackRuns(env, r, n, saved);
      assert r.marks[..n] == r.marks[..n + 1][..n] == m.marks;
    }
  }

  lemma BackProper(n: nat, k: nat)
    requires n < k
    ensures HostProper(k, [Back(n)]) && After(k, [Back(n)]) == n + 1
  {
    assert [Back(n)][1..] == [];
  }

  lemma BackRuns(env: Env, r: Machine, n: nat, saved: State)
    requires Consistent(env.db, r) && n < |r.marks| && r.marks[n] == Mark(TakeSnapshot(saved), saved)
    ensures HostProper(|r.marks|, [Back(n)])
    ensures HostRun(env.db, env.keccak, env.rev, r, [Back(n)]) == Machine(BackTo(saved, r.now), r.marks[..n + 1])
  {
    hide Consistent, Revert;
    BackProper(n, |r.marks|);
    assert [Back(n)][1..] == [];
    NextConsistent(env.db, env.keccak, r, RevertTo(n));
  }

  // --- the steps of a call tree ---

  function Trace(env: Env, s: State, n: nat, action: Action): (steps: seq<HostStep>)
    decreases action, 1
  {
    match action
    case Observe(op) => if Observes(op) then [Other(op)] else []
    case Store(a, k, v) => [HostStep.Store(a, k, v)]
    case Destroy(a, beneficiary) =>
      Others([Op.SelfDestruct(a), ReadAccount(a), AddToBalance(beneficiary, BalanceOf(env.db, s, a)), SetBalance(a, 0)])
    case Invoke(m, p) => TraceMessage(env, s, n, m, p)
  }

  function TraceMessage(env: Env, s: State, n: nat, m: Message, p: Program): (steps: seq<HostStep>)
    decreases p, 2
  {
    if m.kind == CREATE || m.kind == CREATE2 then TraceCreate(env, s, n, m, p) else TraceCall(env, s, n, m, p)
  }

  function TraceAll(env: Env, s: State, n: nat, actions: seq<Action>): (steps: seq<HostStep>)
    decreases actions
  {
    if actions == [] then []
    else
      var first := Trace(env, s, n, actions[0]);
      first + TraceAll(env, Perform(env, s, actions[0]).state, After(n, first), actions[1..])
  }

  function PaidOps(m: Message): (ops: seq<Op>)
  {
    if m.kind != CALL then []
    else if m.readOnly then [TouchAccount(m.destination)]
    else [SubtractFromBalance(m.sender, m.value), AddToBalance(m.destination, m.value)]
  }

  function TraceCall(env: Env, s: State, n: nat, m: Message, p: Program): (steps: seq<HostStep>)
    decreases p, 1
  {
    var look := if m.kind != DELEGATECALL then [Other(ReadAccount(m.sender))] else [];
    var s1 := if m.kind != DELEGATECALL then env.Apply(s, ReadAccount(m.sender)) else s;
    if m.kind != DELEGATECALL && BalanceOf(env.db, s, m.sender) < m.value then look
    else
      var mayBeAbsent := m.value == 0 && env.rev >= SPURIOUS_DRAGON;
      var look2 := look + if mayBeAbsent then [Other(ReadAccount(m.destination))] else [];
      var s2 := if mayBeAbsent then env.Apply(s1, ReadAccount(m.destination)) else s1;
      if mayBeAbsent && !Live(env.db, s1, m.destination) && !IsPrecompiled(env.rev, m.destination) then look2
      else
        var s3 := Paid(env, s2, m);
        if IsPrecompiled(env.rev, m.destination) then
          look2 + Framed(n, Others(PaidOps(m)), RunPrecompiled(env, m).status)
        else
          var body := Others(PaidOps(m) + [ReadCode(m.destination)]);
          if CodeOf(env.db, s3, m.destination) == [] then look2 + ([Snap] + body)
          else
            var s4 := env.Apply(s3, ReadCode(m.destination));
            look2 + Framed(n, body + TraceAll(env, s4, n + 1, p.actions), p.result.status)
  }

  /** A frame and its end. */
  function Framed(n: nat, body: seq<HostStep>, status: Status): (steps: seq<HostStep>)
  {
    if status == SUCCESS then [Snap] + body else [Snap] + body + [Back(n)]
  }

  function AnnouncedOps(sender: Address, nonce: nat, a: Address): (ops: seq<Op>)
  {
    [SetNonce(sender, (nonce + 1) % TWO_64), WarmAccount(a), ReadAccount(a)]
  }

  function FoundedOps(env: Env, m: Message, a: Address): (ops: seq<Op>)
  {
    [MakeContract(a)] + (if env.rev >= SPURIOUS_DRAGON then [SetNonce(a, 1)] else []) +
    [SubtractFromBalance(m.sender, m.value), AddToBalance(a, m.value)]
  }

  /** The code is stored if the gas pays for it. */
  function DeployOps(env: Env, a: Address, res: Result): (ops: seq<Op>)
  {
    if res.status == SUCCESS && !(env.rev >= SPURIOUS_DRAGON && |res.output| > MAX_CODE_SIZE) && res.gasLeft >= |res.output| * CODE_DEPOSIT
    then [DeployCode(a, res.output)] else []
  }

  function TraceCreate(env: Env, s: State, n: nat, m: Message, p: Program): (steps: seq<HostStep>)
    decreases p, 1
  {
    var look := [Other(ReadAccount(m.sender))];
    var s1 := env.Apply(s, ReadAccount(m.sender));
    if BalanceOf(env.db, s, m.sender) < m.value then look
    else
      var nonce := NonceOf(env.db, s1, m.sender);
      var a := env.newAddress(m, nonce);
      var look2 := look + Others(AnnouncedOps(m.sender, nonce, a));
      var s2 := Announced(env, s1, m.sender, nonce, a);
      if NonceOf(env.db, s2, a) != 0 || CodeHashOf(env.db, s2, a) != EMPTY_HASH then look2
      else
        var s3 := Founded(env, s2, m, a);
        var o := Execute(env, s3, p);
        look2 + Framed(n, Others(FoundedOps(env, m, a)) + TraceAll(env, s3, n + 1, p.actions) + Others(DeployOps(env, a, p.result)),
                       Deploy(env, a, o).result.status)
  }

  // --- every call tree is the run of its steps ---

  lemma {:induction false} TraceLeads(env: Env, s: State, n: nat, action: Action)
    ensures Leads(env, s, n, Trace(env, s, n, action), Perform(env, s, action).state)
    decreases action, 1
  {
    hide Leads, Journal.Apply, ApplyAll, WriteOps, RunCall, RunCreate, TraceCall, TraceCreate, Others;
    match action
    case Observe(op) =>
      if Observes(op) { LeadsOp(env, s, n, op); } else { LeadsNowhere(env, s, n); }
    case Store(a, k, v) => LeadsStore(env, s, n, a, k, v);
    case Destroy(a, beneficiary) => DestroyLeads(env, s, n, a, beneficiary);
    case Invoke(m, p) => MessageLeads(env, s, n, m, p);
  }

  lemma FourOps(env: Env, s: State, w: Op, x: Op, y: Op, z: Op)
    ensures ApplyAll(env.db, env.keccak, s, [w, x, y, z]) ==
            env.Apply(env.Apply(env.Apply(env.Apply(s, w), x), y), z)
  {
    hide Journal.Apply;
    assert [w, x, y, z][1..] == [x, y, z] && [x, y, z][1..] == [y, z];
    TwoOps(env, env.Apply(env.Apply(s, w), x), y, z);
  }

  lemma TwoOps(env: Env, s: State, x: Op, y: Op)
    ensures ApplyAll(env.db, env.keccak, s, [x, y]) == env.Apply(env.Apply(s, x), y)
  {
    hide Journal.Apply;
    assert [x, y][1..] == [y];
    OneOp(env, env.Apply(s, x), y);
  }

  lemma OneOp(env: Env, s: State, x: Op)
    ensures ApplyAll(env.db, env.keccak, s, [x]) == env.Apply(s, x)
  {
    hide Journal.Apply;
    assert [x][1..] == [];
    NoOps(env, env.Apply(s, x));
  }

  lemma NoOps(env: Env, s: State)
    ensures ApplyAll(env.db, env.keccak, s, []) == s
  {
  }

  lemma ThreeOps(env: Env, s: State, x: Op, y: Op, z: Op)
    ensures ApplyAll(env.db, env.keccak, s, [x, y, z]) == env.Apply(env.Apply(env.Apply(s, x), y), z)
  {
    hide Journal.Apply;
    assert [x, y, z][1..] == [y, z];
    TwoOps(env, env.Apply(s, x), y, z);
  }

  lemma DestroyLeads(env: Env, s: State, n: nat, a: Address, beneficiary: Address)
    ensures Leads(env, s, n,
      Others([Op.SelfDestruct(a), ReadAccount(a), AddToBalance(beneficiary, BalanceOf(env.db, s, a)), SetBalance(a, 0)]),
      RunSelfDestruct(env, s, a, beneficiary))
  {
    hide Leads, Journal.Apply, ApplyAll, Others, BalanceIn;
    var v := BalanceOf(env.db, s, a);
    LeadsOps(env, s, n, [Op.SelfDestruct(a), ReadAccount(a), AddToBalance(beneficiary, v), SetBalance(a, 0)]);
    FourOps(env, s, Op.SelfDestruct(a), ReadAccount(a), AddToBalance(beneficiary, v), SetBalance(a, 0));
  }

  /** For every call tree, executing a message is a run of host steps. */
  lemma {:induction false} MessageLeads(env: Env, s: State, n: nat, m: Message, p: Program)
    ensures Leads(env, s, n, TraceMessage(env, s, n, m, p), Dispatch(env, s, m, p).state)
    decreases p, 2
  {
    hide Leads, RunCall, RunCreate, TraceCall, TraceCreate;
    if m.kind == CREATE || m.kind == CREATE2 { CreateLeads(env, s, n, m, p); } else { CallLeads(env, s, n, m, p); }
  }

  lemma {:induction false} AllLeads(env: Env, s: State, n: nat, actions: seq<Action>)
    ensures Leads(env, s, n, TraceAll(env, s, n, actions), PerformAll(env, s, actions).state)
    decreases actions
  {
    hide Leads, Trace, Perform, After;
    if actions == [] {
      LeadsNowhere(env, s, n);
    } else {
      var first, t := Trace(env, s, n, actions[0]), Perform(env, s, actions[0]).state;
      TraceLeads(env, s, n, actions[0]);
      AllLeads(env, t, After(n, first), actions[1..]);
      LeadsThen(env, s, n, first, t, TraceAll(env, t, After(n, first), actions[1..]), PerformAll(env, t, actions[1..]).state);
    }
  }

  lemma PaidLeads(env: Env, s: State, n: nat, m: Message)
    ensures Leads(env, s, n, Others(PaidOps(m)), Paid(env, s, m)) && After(n, Others(PaidOps(m))) == n
  {
    hide Leads, Journal.Apply, ApplyAll, Others, After;
    LeadsOps(env, s, n, PaidOps(m));
    if m.kind != CALL {
      NoOps(env, s);
    } else if m.readOnly {
      OneOp(env, s, TouchAccount(m.destination));
    } else {
      TwoOps(env, s, SubtractFromBalance(m.sender, m.value), AddToBalance(m.destination, m.value));
    }
  }

  lemma PaidCodeLeads(env: Env, s: State, n: nat, m: Message)
    ensures var steps := Others(PaidOps(m) + [ReadCode(m.destination)]);
      Leads(env, s, n, steps, env.Apply(Paid(env, s, m), ReadCode(m.destination))) && After(n, steps) == n
  {
    hide Leads, Journal.Apply, ApplyAll, Others, After, Paid;
    var ops := PaidOps(m) + [ReadCode(m.destination)];
    LeadsOps(env, s, n, ops);
    ApplyAllAppend(env.db, env.keccak, s, PaidOps(m), [ReadCode(m.destination)]);
    PaidState(env, s, m);
    OneOp(env, Paid(env, s, m), ReadCode(m.destination));
  }

  lemma PaidState(env: Env, s: State, m: Message)
    ensures ApplyAll(env.db, env.keccak, s, PaidOps(m)) == Paid(env, s, m)
  {
    hide Journal.Apply, ApplyAll;
    if m.kind != CALL {
      NoOps(env, s);
    } else if m.readOnly {
      OneOp(env, s, TouchAccount(m.destination));
    } else {
      TwoOps(env, s, SubtractFromBalance(m.sender, m.value), AddToBalance(m.destination, m.value));
    }
  }

  /** The end of a frame, in steps and in states. */
  lemma FramedLeads(env: Env, saved: State, n: nat, body: seq<HostStep>, o: Outcome)
    requires Leads(env, saved, n + 1, body, o.state)
    ensures Leads(env, saved, n, Framed(n, body, o.result.status), Close(saved, o).state)
  {
    hide Leads, BackTo;
    LeadsFrame(env, saved, n, body, o.state);
    LeadsBack(env, saved, n, body, o.state);
  }

  lemma LookLeads(env: Env, s: State, n: nat, look: bool, a: Address)
    ensures Leads(env, s, n, if look then [Other(ReadAccount(a))] else [], if look then env.Apply(s, ReadAccount(a)) else s)
    ensures After(n, if look then [Other(ReadAccount(a))] else []) == n
  {
    hide Leads, Journal.Apply;
    if look { LeadsOp(env, s, n, ReadAccount(a)); } else { LeadsNowhere(env, s, n); }
  }

  lemma {:induction false} CallLeads(env: Env, s: State, n: nat, m: Message, p: Program)
    ensures Leads(env, s, n, TraceCall(env, s, n, m, p), RunCall(env, s, m, p).state)
    decreases p, 1
  {
    hide Leads, Journal.Apply, Others, After, Paid, BalanceIn, Live, CodeOf, Framed, Close, TraceAll, PerformAll;
    var look1 := m.kind != DELEGATECALL;
    var x1 := if look1 then [Other(ReadAccount(m.sender))] else [];
    var s1 := if look1 then env.Apply(s, ReadAccount(m.sender)) else s;
    LookLeads(env, s, n, look1, m.sender);
    if !(look1 && BalanceOf(env.db, s, m.sender) < m.value) {
      var look2 := m.value == 0 && env.rev >= SPURIOUS_DRAGON;
      var x2 := if look2 then [Other(ReadAccount(m.destination))] else [];
      var s2 := if look2 then env.Apply(s1, ReadAccount(m.destination)) else s1;
      LookLeads(env, s1, n, look2, m.destination);
      LeadsThen(env, s, n, x1, s1, x2, s2);
      AfterConcat(n, x1, x2);
      var s3 := Paid(env, s2, m);
      PaidLeads(env, s2, n + 1, m);
      PaidCodeLeads(env, s2, n + 1, m);
      var o1 := Outcome(s3, RunPrecompiled(env, m), 0);
      FramedLeads(env, s2, n, Others(PaidOps(m)), o1);
      LeadsThen(env, s, n, x1 + x2, s2, Framed(n, Others(PaidOps(m)), o1.result.status), Close(s2, o1).state);
      var body := Others(PaidOps(m) + [ReadCode(m.destination)]);
      var s4 := env.Apply(s3, ReadCode(m.destination));
      LeadsFrame(env, s2, n, body, s4);
      LeadsThen(env, s, n, x1 + x2, s2, [Snap] + body, s4);
      AllLeads(env, s4, n + 1, p.actions);
      var inner, o2 := TraceAll(env, s4, n + 1, p.actions), Execute(env, s4, p);
      LeadsThen(env, s2, n + 1, body, s4, inner, o2.state);
      FramedLeads(env, s2, n, body + inner, o2);
      LeadsThen(env, s, n, x1 + x2, s2, Framed(n, body + inner, o2.result.status), Close(s2, o2).state);
    }
  }

  lemma FoundedState(env: Env, s: State, m: Message, a: Address)
    ensures ApplyAll(env.db, env.keccak, s, FoundedOps(env, m, a)) == Founded(env, s, m, a)
  {
    hide Journal.Apply, ApplyAll;
    var make, pay := [MakeContract(a)], [SubtractFromBalance(m.sender, m.value), AddToBalance(a, m.value)];
    var number := if env.rev >= SPURIOUS_DRAGON then [SetNonce(a, 1)] else [];
    var s1 := env.Apply(s, MakeContract(a));
    var s2 := if env.rev >= SPURIOUS_DRAGON then env.Apply(s1, SetNonce(a, 1)) else s1;
    ApplyAllAppend(env.db, env.keccak, s, make + number, pay);
    ApplyAllAppend(env.db, env.keccak, s, make, number);
    OneOp(env, s, MakeContract(a));
    if env.rev >= SPURIOUS_DRAGON { OneOp(env, s1, SetNonce(a, 1)); } else { NoOps(env, s1); }
    TwoOps(env, s2, SubtractFromBalance(m.sender, m.value), AddToBalance(a, m.value));
  }

  lemma DeployState(env: Env, a: Address, o: Outcome)
    ensures ApplyAll(env.db, env.keccak, o.state, DeployOps(env, a, o.result)) == Deploy(env, a, o).state
  {
    hide Journal.Apply, ApplyAll;
    OneOp(env, o.state, DeployCode(a, o.result.output));
    NoOps(env, o.state);
  }

  lemma {:induction false} CreateLeads(env: Env, s: State, n: nat, m: Message, p: Program)
    ensures Leads(env, s, n, TraceCreate(env, s, n, m, p), RunCreate(env, s, m, p).state)
    decreases p, 1
  {
    hide Leads, Journal.Apply, Others, After, BalanceIn, Framed, Close, TraceAll, PerformAll, Announced, Founded, Deploy,
      NonceOf, CodeHashOf, ApplyAll, FoundedOps, DeployOps, AnnouncedOps;
    var x1 := [Other(ReadAccount(m.sender))];
    var s1 := env.Apply(s, ReadAccount(m.sender));
    LeadsOp(env, s, n, ReadAccount(m.sender));
    if BalanceOf(env.db, s, m.sender) >= m.value {
      var nonce := NonceOf(env.db, s1, m.sender);
      var a := env.newAddress(m, nonce);
      var x2, s2 := Others(AnnouncedOps(m.sender, nonce, a)), Announced(env, s1, m.sender, nonce, a);
      LeadsOps(env, s1, n, AnnouncedOps(m.sender, nonce, a));
      AnnouncedState(env, s1, m.sender, nonce, a);
      LeadsThen(env, s, n, x1, s1, x2, s2);
      AfterConcat(n, x1, x2);
      var found, s3 := Others(FoundedOps(env, m, a)), Founded(env, s2, m, a);
      LeadsOps(env, s2, n + 1, FoundedOps(env, m, a));
      FoundedState(env, s2, m, a);
      var inner, o := TraceAll(env, s3, n + 1, p.actions), Execute(env, s3, p);
      AllLeads(env, s3, n + 1, p.actions);
      LeadsThen(env, s2, n + 1, found, s3, inner, o.state);
      AfterConcat(n + 1, found, inner);
      var last, d := Others(DeployOps(env, a, p.result)), Deploy(env, a, o);
      LeadsOps(env, o.state, After(n + 1, found + inner), DeployOps(env, a, p.result));
      DeployState(env, a, o);
      LeadsThen(env, s2, n + 1, found + inner, o.state, last, d.state);
      FramedLeads(env, s2, n, found + inner + last, d);
      LeadsThen(env, s, n, x1 + x2, s2, Framed(n, found + inner + last, d.result.status), Close(s2, d).state);
    }
  }

  lemma AnnouncedState(env: Env, s: State, sender: Address, nonce: nat, a: Address)
    ensures ApplyAll(env.db, env.keccak, s, AnnouncedOps(sender, nonce, a)) == Announced(env, s, sender, nonce, a)
  {
    hide Journal.Apply, ApplyAll;
    ThreeOps(env, s, SetNonce(sender, (nonce + 1) % TWO_64), WarmAccount(a), ReadAccount(a));
  }
}
