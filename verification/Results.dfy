/** What messages return, and what their programs find, told from the state before
    (core/silkworm/execution/evm.cpp). */
module Results {
  import opened Basics
  import opened World
  import opened Journal
  import opened Accounts
  import opened Ether
  import opened Refunds
  import opened Evm
  import opened Frames

  // --- which addresses are precompiled ---

  /** Addresses 1 to 4 always, 5 to 8 from Byzantium on, 9 from Istanbul on. */
  lemma PrecompiledAddresses(rev: Revision, a: Address)
    ensures IsPrecompiled(rev, a) <==>
      a in {1, 2, 3, 4} || (rev >= BYZANTIUM && a in {5, 6, 7, 8}) || (rev >= ISTANBUL && a == 9)
  {
  }

  // --- reads and payments do not change code ---

  lemma LookKeepsCode(env: Env, s: State, a: Address, b: Address)
    ensures var t := env.Apply(s, ReadAccount(a));
      && AccountOf(env.db, t, b) == AccountOf(env.db, s, b) && t.code == s.code
  {
    hide Fetch;
    FetchKeepsCode(env.db, s, a, 0, false);
    FetchUndoable(env.db, s, a);
    assert ObjectIn(env.db, s.objects, b) == ObjectIn(env.db, Fetch(env.db, s, a).objects, b);
  }

  lemma BalanceKeepsCode(db: Db, s: State, a: Address, e: Edit, b: Address)
    requires e.Credit? || e.Debit?
    ensures CodeOf(db, ChangeBalance(db, s, a, e), b) == CodeOf(db, s, b)
  {
    hide Put, Touch;
    ChangedBalance(db, s, a, e);
    PutCode(db, s, a, e);
    TouchRest(Put(db, s, a, e), a);
  }

  lemma PaidKeepsCode(env: Env, s: State, m: Message, b: Address)
    ensures CodeOf(env.db, Paid(env, s, m), b) == CodeOf(env.db, s, b)
  {
    hide ChangeBalance, Touch;
    if m.kind == CALL {
      if m.readOnly {
        TouchRest(s, m.destination);
      } else {
        BalanceKeepsCode(env.db, s, m.sender, Debit(m.value), b);
        BalanceKeepsCode(env.db, env.Apply(s, SubtractFromBalance(m.sender, m.value)), m.destination, Credit(m.value), b);
      }
    }
  }

  /** The checks before a call only read. */
  lemma BeforeKeepsCode(env: Env, s: State, m: Message, b: Address)
    ensures AccountOf(env.db, BeforePayment(env, s, m), b) == AccountOf(env.db, s, b)
    ensures CodeOf(env.db, BeforePayment(env, s, m), b) == CodeOf(env.db, s, b)
    ensures m.kind != DELEGATECALL ==> AccountOf(env.db, env.Apply(s, ReadAccount(m.sender)), b) == AccountOf(env.db, s, b)
  {
    hide Journal.Apply;
    LookKeepsCode(env, s, m.sender, b);
    var s1 := if m.kind != DELEGATECALL then env.Apply(s, ReadAccount(m.sender)) else s;
    LookKeepsCode(env, s1, m.destination, b);
  }

  // --- calls ---

  /** The sender cannot pay the value. */
  predicate Poor(env: Env, s: State, m: Message)
  {
    m.kind != DELEGATECALL && BalanceOf(env.db, s, m.sender) < m.value
  }

  /** A call that moves nothing, to nobody, does nothing (EIP-161). */
  predicate Absent(env: Env, s: State, m: Message)
  {
    m.value == 0 && env.rev >= SPURIOUS_DRAGON && AccountOf(env.db, s, m.destination) == None && !IsPrecompiled(env.rev, m.destination)
  }

  /** The program of the callee runs. */
  predicate Runs(env: Env, s: State, m: Message)
  {
    !Poor(env, s, m) && !Absent(env, s, m) && !IsPrecompiled(env.rev, m.destination) && CodeOf(env.db, s, m.destination) != []
  }

  lemma CallRuns(env: Env, s: State, self: Address, m: Message)
    requires !Creates(m)
    ensures Enter(env, s, self, m).Some? <==> Runs(env, s, m)
  {
    hide Journal.Apply, Paid, CodeOf, IsPrecompiled;
    BeforeKeepsCode(env, s, m, m.destination);
    PaidKeepsCode(env, BeforePayment(env, s, m), m, m.destination);
  }

  /** If no program runs, a call to an account without code costs nothing, and a precompiled contract what it charges,
      or everything if it fails. */
  lemma CallWithoutProgram(env: Env, s: State, m: Message, p: Program)
    requires !Runs(env, s, m)
    ensures var r := RunCall(env, s, m, p).result;
      if Poor(env, s, m) then r == Result(INSUFFICIENT_BALANCE, m.gas, [])
      else if Absent(env, s, m) || !IsPrecompiled(env.rev, m.destination) then r == Result(SUCCESS, m.gas, [])
      else
        var c := env.precompile(m.destination, m.input);
        if c.gas < 0 || c.gas > m.gas then r == Result(OUT_OF_GAS, 0, [])
        else if c.output.None? then r == Result(PRECOMPILE_FAILURE, 0, [])
        else r == Result(SUCCESS, m.gas - c.gas, c.output.value)
  {
    hide Journal.Apply, Paid, CodeOf, IsPrecompiled, BackTo, PerformAll;
    BeforeKeepsCode(env, s, m, m.destination);
    BeforeKeepsCode(env, s, m, m.sender);
    PaidKeepsCode(env, BeforePayment(env, s, m), m, m.destination);
  }

  /** If the program runs, its result is that of the call, but that gas is lost by every failure other than a revert. */
  lemma CallWithProgram(env: Env, s: State, m: Message, p: Program)
    requires Runs(env, s, m)
    ensures var r := RunCall(env, s, m, p).result;
      && r.status == p.result.status && r.output == p.result.output
      && (p.result.status == SUCCESS || p.result.status == REVERT ==> r.gasLeft == p.result.gasLeft)
      && (p.result.status != SUCCESS && p.result.status != REVERT ==> r.gasLeft == 0)
  {
    hide Journal.Apply, Paid, CodeOf, IsPrecompiled, BackTo, PerformAll;
    BeforeKeepsCode(env, s, m, m.destination);
    BeforeKeepsCode(env, s, m, m.sender);
    PaidKeepsCode(env, BeforePayment(env, s, m), m, m.destination);
  }

  // --- creations ---

  /** The address of the new contract has a nonce or code already. */
  predicate Taken(env: Env, s: State, m: Message)
  {
    var a, t := NewAddress(env, s, m), Counted(env, s, m);
    NonceOf(env.db, t, a) != 0 || CodeHashOf(env.db, t, a) != EMPTY_HASH
  }

  lemma CreateWithoutProgram(env: Env, s: State, m: Message, p: Program)
    requires BalanceOf(env.db, s, m.sender) < m.value || Taken(env, s, m)
    ensures RunCreate(env, s, m, p).result ==
      if BalanceOf(env.db, s, m.sender) < m.value then Result(INSUFFICIENT_BALANCE, m.gas, []) else Result(INVALID_INSTRUCTION, 0, [])
  {
    hide Journal.Apply, BalanceIn, NonceOf, CodeHashOf, Announced, PerformAll, Founded, BackTo;
  }

  /** A creation pays 200 gas for each byte of its code. From Spurious Dragon on, code of more than 24576 bytes is too long, and
      from Homestead on a contract that cannot pay fails; before, it is left without code. */
  lemma CreateWithProgram(env: Env, s: State, m: Message, p: Program)
    requires BalanceOf(env.db, s, m.sender) >= m.value && !Taken(env, s, m)
    ensures var r, cost := RunCreate(env, s, m, p).result, 200 * |p.result.output|;
      && r.output == p.result.output
      && (p.result.status == REVERT ==> r == p.result)
      && (p.result.status != SUCCESS && p.result.status != REVERT ==> r.status == p.result.status && r.gasLeft == 0)
      && (p.result.status == SUCCESS ==>
            if env.rev >= SPURIOUS_DRAGON && |p.result.output| > 24_576 then r.status == OUT_OF_GAS && r.gasLeft == 0
            else if p.result.gasLeft >= cost then r.status == SUCCESS && r.gasLeft == p.result.gasLeft - cost
            else if env.rev >= HOMESTEAD then r.status == OUT_OF_GAS && r.gasLeft == 0
            else r == p.result)
  {
    hide Journal.Apply, BalanceIn, NonceOf, CodeHashOf, Announced, PerformAll, Founded, BackTo;
  }

  /** After a creation that could pay for its code, the contract has that code; otherwise its code hash is what the program left. */
  lemma CreatedCode(env: Env, s: State, m: Message, p: Program)
    requires BalanceOf(env.db, s, m.sender) >= m.value && !Taken(env, s, m) && RunCreate(env, s, m, p).result.status == SUCCESS
    ensures var a, t := NewAddress(env, s, m), RunCreate(env, s, m, p).state;
      p.result.gasLeft >= 200 * |p.result.output| ==> CodeHashOf(env.db, t, a) == env.keccak(p.result.output)
    ensures p.result.gasLeft < 200 * |p.result.output| ==>
      RunCreate(env, s, m, p).state == Execute(env, Founded(env, Counted(env, s, m), m, NewAddress(env, s, m)), p).state
  {
    hide Journal.Apply, BalanceIn, NonceOf, Announced, PerformAll, Founded, BackTo;
    var a := NewAddress(env, s, m);
    var u := Execute(env, Founded(env, Counted(env, s, m), m, a), p).state;
    CodeIsSet(env.db, env.keccak, u, a, p.result.output);
  }

  /** The sender's nonce grows by one, whatever becomes of the creation, and the address comes from the nonce before. */
  lemma CreatorCounts(env: Env, s: State, m: Message)
    ensures NewAddress(env, s, m) == env.newAddress(m, NonceOf(env.db, s, m.sender))
    ensures NonceOf(env.db, Counted(env, s, m), m.sender) == (NonceOf(env.db, s, m.sender) + 1) % TWO_64
    ensures NewAddress(env, s, m) in Counted(env, s, m).accessedAddresses
    ensures forall b | b != m.sender :: AccountOf(env.db, Counted(env, s, m), b) == AccountOf(env.db, s, b)
    ensures forall b :: BalanceOf(env.db, Counted(env, s, m), b) == BalanceOf(env.db, s, b)
  {
    hide Journal.Apply;
    var s1 := env.Apply(s, ReadAccount(m.sender));
    var n, a := NewNonce(env, s, m), NewAddress(env, s, m);
    var s2 := env.Apply(s1, SetNonce(m.sender, (n + 1) % TWO_64));
    var s3 := env.Apply(s2, WarmAccount(a));
    LookKeepsCode(env, s, m.sender, m.sender);
    NonceIsSet(env.db, env.keccak, s1, m.sender, (n + 1) % TWO_64);
    WarmKeeps(env, s2, a);
    LookWarm(env, s3, a);
    forall b
      ensures AccountOf(env.db, Counted(env, s, m), b) == AccountOf(env.db, s2, b) && AccountOf(env.db, s1, b) == AccountOf(env.db, s, b)
      ensures BalanceOf(env.db, Counted(env, s, m), b) == BalanceOf(env.db, s, b)
    {
      LookKeepsCode(env, s, m.sender, b);
      LookKeepsCode(env, s3, a, b);
    }
  }

  lemma WarmKeeps(env: Env, s: State, a: Address)
    ensures var t := env.Apply(s, WarmAccount(a)); t.objects == s.objects && a in t.accessedAddresses
  {
  }

  lemma LookWarm(env: Env, s: State, a: Address)
    ensures env.Apply(s, ReadAccount(a)).accessedAddresses == s.accessedAddresses
  {
  }

  /** The program of a creation finds the new contract with nonce 1 (0 before Spurious Dragon), no code, and the value besides what
      was there, and the sender without the value. */
  lemma CreationStarts(env: Env, s: State, m: Message)
    requires BalanceOf(env.db, s, m.sender) >= m.value && !Taken(env, s, m) && NewAddress(env, s, m) != m.sender
    ensures var a := NewAddress(env, s, m);
      var t := EnterCreate(env, s, m).value.state;
      && EnterCreate(env, s, m) == Some(Entry(t, a, m.input))
      && CodeHashOf(env.db, t, a) == EMPTY_HASH
      && NonceOf(env.db, t, a) == (if env.rev >= SPURIOUS_DRAGON then 1 else 0)
      && BalanceOf(env.db, t, a) == (BalanceOf(env.db, s, a) + m.value) % TWO_256
      && BalanceOf(env.db, t, m.sender) == BalanceOf(env.db, s, m.sender) - m.value
      && NonceOf(env.db, t, m.sender) == (NonceOf(env.db, s, m.sender) + 1) % TWO_64
      && forall b | b != a && b != m.sender :: AccountOf(env.db, t, b) == AccountOf(env.db, s, b)
  {
    hide Journal.Apply, Counted, NewAddress, NewIncarnation, Transfer;
    CreatorCounts(env, s, m);
    var db, a, s2 := env.db, NewAddress(env, s, m), Counted(env, s, m);
    var s3 := env.Apply(s2, MakeContract(a));
    var s4 := if env.rev >= SPURIOUS_DRAGON then env.Apply(s3, SetNonce(a, 1)) else s3;
    ContractIsMade(db, env.keccak, s2, a);
    NonceIsSet(db, env.keccak, s3, a, 1);
    TransferMoves(env, s4, m.sender, a, m.value);
    CodeMoves(env, s4, m.sender, a, m.value);
  }

  lemma CodeMoves(env: Env, s: State, from: Address, to: Address, v: Word)
    requires from != to
    ensures CodeHashOf(env.db, Transfer(env, s, from, to, v), to) == CodeHashOf(env.db, s, to)
  {
    hide Journal.Apply;
    BalanceIsMoved(env.db, env.keccak, s, from, v);
    BalanceIsMoved(env.db, env.keccak, env.Apply(s, SubtractFromBalance(from, v)), to, v);
  }

  /** `v` has gone from one account to another, and nothing else has changed. */
  ghost predicate Delivered(db: Db, s: State, t: State, from: Address, to: Address, v: Word)
  {
    && BalanceOf(db, t, to) == (BalanceOf(db, s, to) + v) % TWO_256 && BalanceOf(db, t, from) as int == BalanceOf(db, s, from) as int - v as int
    && NonceOf(db, t, to) == NonceOf(db, s, to) && NonceOf(db, t, from) == NonceOf(db, s, from)
    && forall b | b != to && b != from :: AccountOf(db, t, b) == AccountOf(db, s, b)
  }

  /** What a call pays: nothing if it is read-only, or code of another account runs. */
  function Payment(m: Message): (v: Word)
  {
    if m.kind == CALL && !m.readOnly then m.value else 0
  }

  /** The program of a call finds the value with the destination instead of the sender, all else as it was, and runs for the
      account that the kind of call says. */
  lemma CallStarts(env: Env, s: State, self: Address, m: Message) returns (e: Entry)
    requires !Creates(m) && Runs(env, s, m) && m.sender != m.destination
    ensures EnterCall(env, s, self, m) == Some(e) && e.code == CodeOf(env.db, s, m.destination)
    ensures e.self == match m.kind case CALL => m.destination case CALLCODE => m.sender case _ => self
    ensures Delivered(env.db, s, e.state, m.sender, m.destination, Payment(m))
  {
    hide Journal.Apply, CodeOf, IsPrecompiled, BeforePayment, Paid, EnterCall, Runs, Delivered;
    CallRuns(env, s, self, m);
    EntryIs(env, s, self, m);
    e := EnterCall(env, s, self, m).value;
    var s2 := BeforePayment(env, s, m);
    var s3 := Paid(env, s2, m);
    BeforeKeepsCode(env, s, m, m.sender);
    BeforeKeepsCode(env, s, m, m.destination);
    PaidMoves(env, s2, m);
    PaidKeepsCode(env, s2, m, m.destination);
    forall b ensures AccountOf(env.db, e.state, b) == AccountOf(env.db, s3, b) && AccountOf(env.db, s2, b) == AccountOf(env.db, s, b) {
      ReadCodeKeeps(env, s3, m.destination, b);
      BeforeKeepsCode(env, s, m, b);
    }
    DeliveredSame(env.db, s, s2, s3, e.state, m.sender, m.destination, Payment(m));
  }

  lemma DeliveredSame(db: Db, s: State, s2: State, s3: State, t: State, from: Address, to: Address, v: Word)
    requires Delivered(db, s2, s3, from, to, v)
    requires forall b :: AccountOf(db, t, b) == AccountOf(db, s3, b) && AccountOf(db, s2, b) == AccountOf(db, s, b)
    ensures Delivered(db, s, t, from, to, v)
  {
    hide AccountIn;
    assert AccountOf(db, t, from) == AccountOf(db, s3, from) && AccountOf(db, s2, from) == AccountOf(db, s, from);
    assert AccountOf(db, t, to) == AccountOf(db, s3, to) && AccountOf(db, s2, to) == AccountOf(db, s, to);
    forall b | b != to && b != from ensures AccountOf(db, t, b) == AccountOf(db, s, b) {
      assert AccountOf(db, t, b) == AccountOf(db, s3, b) && AccountOf(db, s2, b) == AccountOf(db, s, b);
    }
  }

  lemma EntryIs(env: Env, s: State, self: Address, m: Message)
    requires EnterCall(env, s, self, m).Some?
    ensures var s3 := Paid(env, BeforePayment(env, s, m), m);
      EnterCall(env, s, self, m).value == Entry(env.Apply(s3, ReadCode(m.destination)), Runner(self, m), CodeOf(env.db, s3, m.destination))
    ensures m.kind == CALL ==> BalanceOf(env.db, s, m.sender) >= m.value
  {
    hide Journal.Apply, CodeOf, IsPrecompiled, BeforePayment, Paid;
  }

  lemma ReadCodeKeeps(env: Env, s: State, a: Address, b: Address)
    ensures AccountOf(env.db, env.Apply(s, ReadCode(a)), b) == AccountOf(env.db, s, b)
  {
    hide Fetch;
    FetchUndoable(env.db, s, a);
    assert ObjectIn(env.db, s.objects, b) == ObjectIn(env.db, Fetch(env.db, s, a).objects, b);
  }

  lemma PaidMoves(env: Env, s: State, m: Message)
    requires m.sender != m.destination && (m.kind == CALL ==> BalanceOf(env.db, s, m.sender) >= m.value)
    ensures Delivered(env.db, s, Paid(env, s, m), m.sender, m.destination, Payment(m))
  {
    hide Journal.Apply, Delivered, Transfer;
    if m.kind == CALL && !m.readOnly {
      TransferMoves(env, s, m.sender, m.destination, m.value);
    } else {
      TouchKeeps(env, s, m.destination);
      NothingMoves(env.db, s, Paid(env, s, m), m.sender, m.destination);
    }
  }

  lemma TransferMoves(env: Env, s: State, from: Address, to: Address, v: Word)
    requires from != to && BalanceOf(env.db, s, from) >= v
    ensures Delivered(env.db, s, Transfer(env, s, from, to, v), from, to, v)
  {
    hide Journal.Apply;
    BalanceIsMoved(env.db, env.keccak, s, from, v);
    BalanceIsMoved(env.db, env.keccak, env.Apply(s, SubtractFromBalance(from, v)), to, v);
  }

  lemma NothingMoves(db: Db, s: State, t: State, from: Address, to: Address)
    requires t.objects == s.objects
    ensures Delivered(db, s, t, from, to, 0)
  {
  }

  lemma TouchKeeps(env: Env, s: State, a: Address)
    ensures env.Apply(s, TouchAccount(a)).objects == s.objects
  {
    TouchRest(s, a);
  }

  /** Self-destruction gives the balance to the beneficiary, or burns it if that is the account itself, and leaves the account
      recorded and without a balance. */
  lemma SelfDestructPays(env: Env, s: State, a: Address, beneficiary: Address)
    ensures var t := RunSelfDestruct(env, s, a, beneficiary);
      && a in t.selfDestructs && BalanceOf(env.db, t, a) == 0
      && (beneficiary != a ==> BalanceOf(env.db, t, beneficiary) == (BalanceOf(env.db, s, beneficiary) + BalanceOf(env.db, s, a)) % TWO_256)
      && forall b | b != a && b != beneficiary :: AccountOf(env.db, t, b) == AccountOf(env.db, s, b)
  {
    hide Journal.Apply;
    var db, v := env.db, BalanceOf(env.db, s, a);
    var s0 := env.Apply(s, Op.SelfDestruct(a));
    var s1 := env.Apply(s0, ReadAccount(a));
    var s2 := env.Apply(s1, AddToBalance(beneficiary, v));
    RecordKeeps(env, s, a);
    BalanceIsMoved(db, env.keccak, s1, beneficiary, v);
    BalanceIsSet(db, env.keccak, s2, a, 0);
    forall b ensures AccountOf(db, s1, b) == AccountOf(db, s, b) { LookKeepsCode(env, s0, a, b); }
    DestructsKept(env, s1, ReadAccount(a));
    DestructsKept(env, s1, AddToBalance(beneficiary, v));
    DestructsKept(env, s2, SetBalance(a, 0));
    LookDestructs(env, s0, a);
  }

  lemma RecordKeeps(env: Env, s: State, a: Address)
    ensures var t := env.Apply(s, Op.SelfDestruct(a)); t.objects == s.objects && a in t.selfDestructs
  {
  }

  lemma LookDestructs(env: Env, s: State, a: Address)
    ensures env.Apply(s, ReadAccount(a)).selfDestructs == s.selfDestructs
  {
  }

  lemma DestructsKept(env: Env, s: State, op: Op)
    requires op.AddToBalance? || op.SetBalance? || op.ReadAccount?
    ensures env.Apply(s, op).selfDestructs == s.selfDestructs
  {
    hide Fetch, Put, Touch;
    match op
    case SetBalance(a, v) => ChangeDestructs(env.db, s, a, ToBalance(v));
    case AddToBalance(a, v) => ChangeDestructs(env.db, s, a, Credit(v));
    case ReadAccount(a) => FetchRest(env.db, s, a);
  }

  lemma ChangeDestructs(db: Db, s: State, a: Address, e: Edit)
    ensures ChangeBalance(db, s, a, e).selfDestructs == s.selfDestructs
  {
    hide Touch, Edited, Fetch;
    TouchRest(Put(db, s, a, e), a);
    FetchRest(db, s, a);
  }

  /** Seen from inside a program, a creation hands over its output only with a revert, and otherwise ends as it does on its own. */
  lemma NestedCreation(env: Env, s: State, m: Message, p: Program)
    requires Creates(m)
    ensures var inner, o := Dispatch(env, s, m, p).result, RunCreate(env, s, m, p).result;
      && inner.status == o.status && inner.gasLeft == o.gasLeft
      && inner.output == (if o.status == REVERT then o.output else [])
    ensures Dispatch(env, s, m, p).state == RunCreate(env, s, m, p).state
  {
    hide RunCreate;
  }
}
