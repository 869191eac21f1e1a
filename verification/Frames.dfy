/** A message and the program it starts: what comes before, where the program starts, and what comes after
    (core/silkworm/execution/evm.cpp). */
module Frames {
  import opened Basics
  import opened World
  import opened Journal
  import opened Ether
  import opened Refunds
  import opened Evm
  import opened Traces

  /** Where a program starts: the state, the account whose storage it writes, and its code. */
  datatype Entry = Entry(state: State, self: Address, code: Bytes)

  predicate Creates(m: Message)
  {
    m.kind == CREATE || m.kind == CREATE2
  }

  /** The state in which the value of a call is paid, after the checks. */
  function BeforePayment(env: Env, s: State, m: Message): (t: State)
  {
    var s1 := if m.kind != DELEGATECALL then env.Apply(s, ReadAccount(m.sender)) else s;
    if m.value == 0 && env.rev >= SPURIOUS_DRAGON then env.Apply(s1, ReadAccount(m.destination)) else s1
  }

  /** A call passes the check of the balance, and of an absent destination. */
  predicate Passes(env: Env, s: State, m: Message)
  {
    var s1 := if m.kind != DELEGATECALL then env.Apply(s, ReadAccount(m.sender)) else s;
    && !(m.kind != DELEGATECALL && BalanceOf(env.db, s, m.sender) < m.value)
    && !(m.value == 0 && env.rev >= SPURIOUS_DRAGON && !Live(env.db, s1, m.destination) && !IsPrecompiled(env.rev, m.destination))
  }

  function EnterCall(env: Env, s: State, self: Address, m: Message): (e: Option<Entry>)
  {
    if !Passes(env, s, m) || IsPrecompiled(env.rev, m.destination) then None
    else
      var s3 := Paid(env, BeforePayment(env, s, m), m);
      var code := CodeOf(env.db, s3, m.destination);
      if code == [] then None
      else Some(Entry(env.Apply(s3, ReadCode(m.destination)), Runner(self, m), code))
  }

  /** The account for which the code of a call runs: the top of `address_stack_`. */
  function Runner(self: Address, m: Message): (a: Address)
  {
    match m.kind
    case DELEGATECALL => self
    case CALLCODE => m.sender
    case _ => m.destination
  }

  /** The nonce and the address of a new contract. */
  function NewNonce(env: Env, s: State, m: Message): (n: nat)
  {
    NonceOf(env.db, env.Apply(s, ReadAccount(m.sender)), m.sender)
  }

  function NewAddress(env: Env, s: State, m: Message): (a: Address)
  {
    env.newAddress(m, NewNonce(env, s, m))
  }

  /** The state in which a contract is created, after the sender has counted it. */
  function Counted(env: Env, s: State, m: Message): (t: State)
  {
    Announced(env, env.Apply(s, ReadAccount(m.sender)), m.sender, NewNonce(env, s, m), NewAddress(env, s, m))
  }

  function EnterCreate(env: Env, s: State, m: Message): (e: Option<Entry>)
  {
    var a, s2 := NewAddress(env, s, m), Counted(env, s, m);
    if BalanceOf(env.db, s, m.sender) < m.value || NonceOf(env.db, s2, a) != 0 || CodeHashOf(env.db, s2, a) != EMPTY_HASH then None
    else Some(Entry(Founded(env, s2, m, a), a, m.input))
  }

  /** Where the program of message `m`, sent by the frame of account `self`, starts, if it does. */
  function Enter(env: Env, s: State, self: Address, m: Message): (e: Option<Entry>)
  {
    if Creates(m) then EnterCreate(env, s, m) else EnterCall(env, s, self, m)
  }

  // --- the steps around the program ---

  function Looks(env: Env, m: Message): (steps: seq<HostStep>)
  {
    (if m.kind != DELEGATECALL then [Other(ReadAccount(m.sender))] else []) +
    (if m.value == 0 && env.rev >= SPURIOUS_DRAGON then [Other(ReadAccount(m.destination))] else [])
  }

  function CreateLooks(env: Env, s: State, m: Message): (steps: seq<HostStep>)
  {
    [Other(ReadAccount(m.sender))] + Others(AnnouncedOps(m.sender, NewNonce(env, s, m), NewAddress(env, s, m)))
  }

  /** The steps before the program, its snapshot included. */
  function Prelude(env: Env, s: State, m: Message): (steps: seq<HostStep>)
  {
    if Creates(m) then CreateLooks(env, s, m) + ([Snap] + Others(FoundedOps(env, m, NewAddress(env, s, m))))
    else Looks(env, m) + ([Snap] + Others(PaidOps(m) + [ReadCode(m.destination)]))
  }

  /** How a creation ends, once its program has ended with `res`. */
  function Deployed(env: Env, res: Result): (status: Status)
  {
    if res.status != SUCCESS then res.status
    else if env.rev >= SPURIOUS_DRAGON && |res.output| > MAX_CODE_SIZE then OUT_OF_GAS
    else if res.gasLeft >= |res.output| * CODE_DEPOSIT then SUCCESS
    else if env.rev >= HOMESTEAD then OUT_OF_GAS
    else SUCCESS
  }

  /** The steps after the program. */
  function Coda(env: Env, s: State, n: nat, m: Message, p: Program): (steps: seq<HostStep>)
  {
    if Creates(m) then
      Others(DeployOps(env, NewAddress(env, s, m), p.result)) + if Deployed(env, p.result) == SUCCESS then [] else [Back(n)]
    else if p.result.status == SUCCESS then [] else [Back(n)]
  }

  /** The trace of a message whose program starts is what comes before, the trace of the program, and what comes after. */
  lemma MessageTrace(env: Env, s: State, self: Address, n: nat, m: Message, p: Program)
    requires Enter(env, s, self, m).Some?
    ensures TraceMessage(env, s, n, m, p) ==
            Prelude(env, s, m) + TraceAll(env, Enter(env, s, self, m).value.state, n + 1, p.actions) + Coda(env, s, n, m, p)
  {
    hide Journal.Apply, Others, BalanceIn, Live, CodeOf, NonceOf, CodeHashOf, TraceAll, PerformAll, Paid, Announced, Founded, IsPrecompiled,
      DeployOps, AnnouncedOps, FoundedOps, PaidOps;
    var e := Enter(env, s, self, m).value;
    var inner := TraceAll(env, e.state, n + 1, p.actions);
    if Creates(m) {
      var a := NewAddress(env, s, m);
      DeployedStatus(env, a, Execute(env, e.state, p));
      FrameParts(n, CreateLooks(env, s, m), Others(FoundedOps(env, m, a)), inner, Others(DeployOps(env, a, p.result)), Deployed(env, p.result));
    } else {
      FrameParts(n, Looks(env, m), Others(PaidOps(m) + [ReadCode(m.destination)]), inner, [], p.result.status);
    }
  }

  lemma DeployedStatus(env: Env, a: Address, o: Outcome)
    ensures Deploy(env, a, o).result.status == Deployed(env, o.result)
  {
    hide Journal.Apply;
  }

  lemma FrameParts(n: nat, looks: seq<HostStep>, before: seq<HostStep>, inner: seq<HostStep>, after: seq<HostStep>, status: Status)
    ensures looks + Framed(n, before + inner + after, status) ==
            looks + ([Snap] + before) + inner + (after + if status == SUCCESS then [] else [Back(n)])
  {
    assert looks + ([Snap] + (before + inner + after)) == looks + ([Snap] + before) + inner + after;
  }

  // --- plain steps ---

  /** A step that neither writes storage nor changes the refund. */
  predicate Plain(step: HostStep)
  {
    match step
    case Store(_, _, _) => false
    case Other(op) => !op.WriteStorage? && !op.AddRefund? && !op.SubtractRefund?
    case _ => true
  }

  predicate AllPlain(steps: seq<HostStep>)
  {
    forall step <- steps :: Plain(step)
  }

  lemma {:induction false} OthersPlain(ops: seq<Op>)
    requires forall op <- ops :: !op.WriteStorage? && !op.AddRefund? && !op.SubtractRefund?
    ensures AllPlain(Others(ops))
    decreases |ops|
  {
    if ops != [] { OthersPlain(ops[1..]); }
  }

  lemma AroundPlain(env: Env, s: State, n: nat, m: Message, p: Program)
    ensures AllPlain(Prelude(env, s, m)) && AllPlain(Coda(env, s, n, m, p))
  {
    hide Others, NewNonce, NewAddress;
    var a := NewAddress(env, s, m);
    OthersPlain(PaidOps(m) + [ReadCode(m.destination)]);
    OthersPlain(AnnouncedOps(m.sender, NewNonce(env, s, m), a));
    OthersPlain(FoundedOps(env, m, a));
    OthersPlain(DeployOps(env, a, p.result));
  }

  lemma IdlePlain(env: Env, s: State, self: Address, n: nat, m: Message, p: Program)
    requires Enter(env, s, self, m).None?
    ensures AllPlain(TraceMessage(env, s, n, m, p))
  {
    hide Journal.Apply, Others, BalanceIn, Live, CodeOf, NonceOf, CodeHashOf, TraceAll, PerformAll, Paid, Announced, Founded, IsPrecompiled;
    var nonce := NonceOf(env.db, env.Apply(s, ReadAccount(m.sender)), m.sender);
    OthersPlain(PaidOps(m));
    OthersPlain(PaidOps(m) + [ReadCode(m.destination)]);
    OthersPlain(AnnouncedOps(m.sender, nonce, env.newAddress(m, nonce)));
  }

  // --- the steps before the program lead to its start ---

  lemma PreludeLeads(env: Env, s: State, self: Address, n: nat, m: Message)
    requires Enter(env, s, self, m).Some?
    ensures Leads(env, s, n, Prelude(env, s, m), Enter(env, s, self, m).value.state)
    ensures After(n, Prelude(env, s, m)) == n + 1
  {
    hide Leads, Journal.Apply, Others, After, Paid, BalanceIn, Live, CodeOf, NonceOf, CodeHashOf, ApplyAll, Announced, Founded,
      AnnouncedOps, FoundedOps;
    if Creates(m) {
      var s1, nonce, a := env.Apply(s, ReadAccount(m.sender)), NewNonce(env, s, m), NewAddress(env, s, m);
      LeadsOp(env, s, n, ReadAccount(m.sender));
      LeadsOps(env, s1, n, AnnouncedOps(m.sender, nonce, a));
      AnnouncedState(env, s1, m.sender, nonce, a);
      var x, y := [Other(ReadAccount(m.sender))], Others(AnnouncedOps(m.sender, nonce, a));
      LeadsThen(env, s, n, x, s1, y, Counted(env, s, m));
      AfterConcat(n, x, y);
      LeadsOps(env, Counted(env, s, m), n + 1, FoundedOps(env, m, a));
      FoundedState(env, Counted(env, s, m), m, a);
      FrameStarts(env, s, n, x + y, Counted(env, s, m), Others(FoundedOps(env, m, a)), Founded(env, Counted(env, s, m), m, a));
    } else {
      var look1, look2 := m.kind != DELEGATECALL, m.value == 0 && env.rev >= SPURIOUS_DRAGON;
      var x1 := if look1 then [Other(ReadAccount(m.sender))] else [];
      var x2 := if look2 then [Other(ReadAccount(m.destination))] else [];
      var s1 := if look1 then env.Apply(s, ReadAccount(m.sender)) else s;
      var s2 := if look2 then env.Apply(s1, ReadAccount(m.destination)) else s1;
      LookLeads(env, s, n, look1, m.sender);
      LookLeads(env, s1, n, look2, m.destination);
      LeadsThen(env, s, n, x1, s1, x2, s2);
      AfterConcat(n, x1, x2);
      PaidCodeLeads(env, s2, n + 1, m);
      FrameStarts(env, s, n, x1 + x2, s2, Others(PaidOps(m) + [ReadCode(m.destination)]), env.Apply(Paid(env, s2, m), ReadCode(m.destination)));
    }
  }

  lemma FrameStarts(env: Env, s: State, n: nat, looks: seq<HostStep>, t: State, body: seq<HostStep>, u: State)
    requires Leads(env, s, n, looks, t) && After(n, looks) == n && Leads(env, t, n + 1, body, u) && After(n + 1, body) == n + 1
    ensures Leads(env, s, n, looks + ([Snap] + body), u) && After(n, looks + ([Snap] + body)) == n + 1
  {
    hide Leads, After;
    LeadsFrame(env, t, n, body, u);
    LeadsThen(env, s, n, looks, t, [Snap] + body, u);
    SnapAfter(n);
    AfterConcat(n, [Snap], body);
    AfterConcat(n, looks, [Snap] + body);
  }

  lemma SnapAfter(n: nat)
    ensures After(n, [Snap]) == n + 1
  {
    assert [Snap][1..] == [];
  }
}
