/** Message calls and contract creation (`EVM::create`, `EVM::call`, `EvmHost::selfdestruct` of
    core/silkworm/execution/evm.cpp). The interpreter is an arbitrary tree of host operations. */
module Evm {
  import opened Basics
  import opened World
  import opened Journal
  import opened Ether
  import opened Refunds

  datatype Kind = CALL | DELEGATECALL | CALLCODE | CREATE | CREATE2

  datatype Message = Message(
    kind: Kind, readOnly: bool, gas: nat, destination: Address, sender: Address, input: Bytes, value: Word)

  datatype Status =
    SUCCESS | REVERT | OUT_OF_GAS | INVALID_INSTRUCTION | INSUFFICIENT_BALANCE | PRECOMPILE_FAILURE | OTHER_FAILURE

  datatype Result = Result(status: Status, gasLeft: nat, output: Bytes)

  /** What the interpreter does with one message, and how it ends. */
  datatype Program = Program(actions: seq<Action>, result: Result)

  datatype Action =
    | Observe(op: Op)
    | Store(a: Address, k: Word, v: Word)
    | Destroy(a: Address, beneficiary: Address)
    | Invoke(message: Message, program: Program)

  /** Host calls other than the three that have their own cases. */
  predicate Observes(op: Op)
  {
    op.ReadAccount? || op.ReadCode? || op.ReadStorage? || op.WarmAccount? || op.WarmStorage? || op.AddLog?
  }

  /** What a precompiled contract charges, which may be negative, and its output unless it fails. */
  datatype Precompiled = Precompiled(gas: int, output: Option<Bytes>)

  datatype Env = Env(
    db: Db, keccak: Bytes -> Word, rev: Revision,
    precompile: (Address, Bytes) -> Precompiled,
    newAddress: (Message, nat) -> Address)
  {
    function Apply(s: State, op: Op): (t: State)
    {
      Journal.Apply(db, keccak, s, op)
    }
  }

  predicate IsPrecompiled(rev: Revision, a: Address)
  {
    0 < a <= if rev >= ISTANBUL then 9 else if rev >= BYZANTIUM then 8 else 4
  }

  const CODE_DEPOSIT: nat := 200
  const MAX_CODE_SIZE: nat := 0x6000

  /** A state after some host calls, what they returned, and the ether that they destroyed. */
  datatype Outcome = Outcome(state: State, result: Result, burned: nat)

  function NonceOf(db: Db, s: State, a: Address): (n: nat)
  {
    match AccountOf(db, s, a) case Some(c) => c.nonce case None => 0
  }

  function CodeHashOf(db: Db, s: State, a: Address): (h: Word)
  {
    match AccountOf(db, s, a) case Some(c) => c.codeHash case None => EMPTY_HASH
  }

  /** `revert_to_snapshot` for a snapshot taken in `saved`. */
  function BackTo(saved: State, s: State): (t: State)
  {
    var snapshot := TakeSnapshot(saved);
    if snapshot.journalSize <= |s.journal| && snapshot.logSize <= |s.logs| then Revert(s, snapshot) else s
  }

  function Transfer(env: Env, s: State, from: Address, to: Address, value: Word): (t: State)
  {
    env.Apply(env.Apply(s, SubtractFromBalance(from, value)), AddToBalance(to, value))
  }

  function RunSelfDestruct(env: Env, s: State, a: Address, beneficiary: Address): (t: State)
  {
    var s1 := env.Apply(env.Apply(s, Op.SelfDestruct(a)), ReadAccount(a));
    env.Apply(env.Apply(s1, AddToBalance(beneficiary, BalanceOf(env.db, s, a))), SetBalance(a, 0))
  }

  /** The end of a frame: only success keeps its effects, and only a revert keeps its gas. */
  function Close(saved: State, o: Outcome): (r: Outcome)
  {
    if o.result.status == SUCCESS then o
    else Outcome(BackTo(saved, o.state),
                 if o.result.status == REVERT then o.result else o.result.(gasLeft := 0), 0)
  }

  function Perform(env: Env, s: State, action: Action): (o: Outcome)
    decreases action, 1
  {
    match action
    case Observe(op) => Outcome(if Observes(op) then env.Apply(s, op) else s, Result(SUCCESS, 0, []), 0)
    case Store(a, k, v) =>
      Outcome(ApplyAll(env.db, env.keccak, s, WriteOps(env.db, env.rev, s, a, k, v)), Result(SUCCESS, 0, []), 0)
    case Destroy(a, beneficiary) =>
      Outcome(RunSelfDestruct(env, s, a, beneficiary), Result(SUCCESS, 0, []),
              if a == beneficiary then BalanceOf(env.db, s, a) else 0)
    case Invoke(m, p) => Dispatch(env, s, m, p)
  }

  function Dispatch(env: Env, s: State, m: Message, p: Program): (o: Outcome)
    decreases p, 2
  {
    if m.kind == CREATE || m.kind == CREATE2 then
      var o := RunCreate(env, s, m, p);
      if o.result.status == REVERT then o else o.(result := o.result.(output := []))
    else RunCall(env, s, m, p)
  }

  function PerformAll(env: Env, s: State, actions: seq<Action>): (o: Outcome)
    decreases actions
  {
    if actions == [] then Outcome(s, Result(SUCCESS, 0, []), 0)
    else
      var o := Perform(env, s, actions[0]);
      var rest := PerformAll(env, o.state, actions[1..]);
      rest.(burned := o.burned + rest.burned)
  }

  function Execute(env: Env, s: State, p: Program): (o: Outcome)
    decreases p, 0
  {
    PerformAll(env, s, p.actions).(result := p.result)
  }

  /** The value of a call changes hands. */
  function Paid(env: Env, s: State, m: Message): (t: State)
  {
    if m.kind != CALL then s
    else if m.readOnly then env.Apply(s, TouchAccount(m.destination))
    else Transfer(env, s, m.sender, m.destination, m.value)
  }

  /** The contract account is created and endowed. */
  function Founded(env: Env, s: State, m: Message, a: Address): (t: State)
  {
    var s1 := env.Apply(s, MakeContract(a));
    Transfer(env, if env.rev >= SPURIOUS_DRAGON then env.Apply(s1, SetNonce(a, 1)) else s1, m.sender, a, m.value)
  }

  function RunCall(env: Env, s: State, m: Message, p: Program): (o: Outcome)
    decreases p, 1
  {
    var untouched := Result(SUCCESS, m.gas, []);
    var s1 := if m.kind != DELEGATECALL then env.Apply(s, ReadAccount(m.sender)) else s;
    if m.kind != DELEGATECALL && BalanceOf(env.db, s, m.sender) < m.value then
      Outcome(s1, untouched.(status := INSUFFICIENT_BALANCE), 0)
    else
      var mayBeAbsent := m.value == 0 && env.rev >= SPURIOUS_DRAGON;
      var s2 := if mayBeAbsent then env.Apply(s1, ReadAccount(m.destination)) else s1;
      if mayBeAbsent && !Live(env.db, s1, m.destination) && !IsPrecompiled(env.rev, m.destination) then
        Outcome(s2, untouched, 0)
      else
        var s3 := Paid(env, s2, m);
        if IsPrecompiled(env.rev, m.destination) then
          Close(s2, Outcome(s3, RunPrecompiled(env, m), 0))
        else
          var s4 := env.Apply(s3, ReadCode(m.destination));
          if CodeOf(env.db, s3, m.destination) == [] then Outcome(s4, untouched, 0)
          else Close(s2, Execute(env, s4, p))
  }

  function RunPrecompiled(env: Env, m: Message): (r: Result)
  {
    var c := env.precompile(m.destination, m.input);
    if c.gas < 0 || c.gas > m.gas then Result(OUT_OF_GAS, m.gas, [])
    else if c.output.None? then Result(PRECOMPILE_FAILURE, m.gas, [])
    else Result(SUCCESS, m.gas - c.gas, c.output.value)
  }

  /** The sender counts the new contract, whose address becomes warm. */
  function Announced(env: Env, s: State, sender: Address, nonce: nat, a: Address): (t: State)
  {
    env.Apply(env.Apply(env.Apply(s, SetNonce(sender, (nonce + 1) % TWO_64)), WarmAccount(a)), ReadAccount(a))
  }

  function RunCreate(env: Env, s: State, m: Message, p: Program): (o: Outcome)
    decreases p, 1
  {
    var s1 := env.Apply(s, ReadAccount(m.sender));
    if BalanceOf(env.db, s, m.sender) < m.value then Outcome(s1, Result(INSUFFICIENT_BALANCE, m.gas, []), 0)
    else
      var nonce := NonceOf(env.db, s1, m.sender);
      var a := env.newAddress(m, nonce);
      var s2 := Announced(env, s1, m.sender, nonce, a);
      if NonceOf(env.db, s2, a) != 0 || CodeHashOf(env.db, s2, a) != EMPTY_HASH then
        Outcome(s2, Result(INVALID_INSTRUCTION, 0, []), 0)
      else
        Close(s2, Deploy(env, a, Execute(env, Founded(env, s2, m, a), p)))
  }

  /** Pays for the code of a contract and stores it. */
  function Deploy(env: Env, a: Address, o: Outcome): (r: Outcome)
  {
    var res := o.result;
    var cost := |res.output| * CODE_DEPOSIT;
    if res.status != SUCCESS then o
    else if env.rev >= SPURIOUS_DRAGON && |res.output| > MAX_CODE_SIZE then o.(result := res.(status := OUT_OF_GAS))
    else if res.gasLeft >= cost then
      Outcome(env.Apply(o.state, DeployCode(a, res.output)), res.(gasLeft := res.gasLeft - cost), o.burned)
    else if env.rev >= HOMESTEAD then o.(result := res.(status := OUT_OF_GAS))
    else o
  }
}
