/** A call tree does the same on databases that are the same up to incarnation numbers: it takes the same steps,
    returns the same, and leaves accounts that are the same up to these numbers. */
module Mirrors {
  import opened Basics
  import opened World
  import opened Journal
  import opened Ether
  import opened Refunds
  import opened Evm
  import opened EvmSupply
  import opened Traces
  import C = ChainStates

  /** The two environments differ in their databases only, and these hold genuine code. */
  ghost predicate Paired(codeOf: Word -> Bytes, x: Env, y: Env)
  {
    && x.keccak == y.keccak && x.rev == y.rev && x.precompile == y.precompile && x.newAddress == y.newAddress
    && (forall h <- x.db.code :: x.db.code[h] == codeOf(h)) && (forall h <- y.db.code :: y.db.code[h] == codeOf(h))
  }

  /** The accounts agree up to incarnation numbers, and their code is at hand. */
  ghost predicate Mirror(codeOf: Word -> Bytes, d: Db, s: State, e: Db, t: State)
  {
    && (forall a :: C.Bare(AccountOf(d, s, a)) == C.Bare(AccountOf(e, t, a)))
    && Resolved(codeOf, d, s) && Resolved(codeOf, e, t)
  }

  /** Both outcomes return the same, and mirror each other. */
  ghost predicate Alike(codeOf: Word -> Bytes, x: Env, y: Env, s: State, o: Outcome, t: State, q: Outcome)
  {
    && o.result == q.result && Mirror(codeOf, x.db, o.state, y.db, q.state)
    && s.code.Keys <= o.state.code.Keys && t.code.Keys <= q.state.code.Keys
  }

  /** No code that the program deploys shares its hash with other code. */
  ghost predicate Honest(codeOf: Word -> Bytes, keccak: Bytes -> Word, p: Program)
    decreases p
  {
    codeOf(keccak(p.result.output)) == p.result.output && HonestAll(codeOf, keccak, p.actions)
  }

  ghost predicate HonestAll(codeOf: Word -> Bytes, keccak: Bytes -> Word, actions: seq<Action>)
    decreases actions
  {
    actions == [] || (HonestAction(codeOf, keccak, actions[0]) && HonestAll(codeOf, keccak, actions[1..]))
  }

  ghost predicate HonestAction(codeOf: Word -> Bytes, keccak: Bytes -> Word, action: Action)
    decreases action
  {
    action.Invoke? ==> Honest(codeOf, keccak, action.program)
  }

  // --- what is read ---

  lemma MirrorReads(codeOf: Word -> Bytes, x: Env, y: Env, s: State, t: State, a: Address)
    requires Paired(codeOf, x, y) && Mirror(codeOf, x.db, s, y.db, t)
    ensures BalanceOf(x.db, s, a) == BalanceOf(y.db, t, a) && NonceOf(x.db, s, a) == NonceOf(y.db, t, a)
    ensures CodeHashOf(x.db, s, a) == CodeHashOf(y.db, t, a) && Live(x.db, s, a) == Live(y.db, t, a)
    ensures CodeOf(x.db, s, a) == CodeOf(y.db, t, a)
  {
    hide Resolved, CodeOf;
    assert C.Bare(AccountOf(x.db, s, a)) == C.Bare(AccountOf(y.db, t, a));
    ResolvedCode(codeOf, x.db, s, a);
    ResolvedCode(codeOf, y.db, t, a);
  }

  // --- single operations ---

  function EditAfter(a: Address, b: Address, c: Option<Account>, e: Edit): (r: Option<Account>)
  {
    if a == b then Some(Edited(if c.Some? then c.value else EMPTY_ACCOUNT, e)) else c
  }

  /** What an operation makes of the account at `b`, its incarnation number aside. */
  function AccountAfter(keccak: Bytes -> Word, op: Op, b: Address, c: Option<Account>): (r: Option<Account>)
  {
    match op
    case SetBalance(a, v) => EditAfter(a, b, c, ToBalance(v))
    case AddToBalance(a, v) => EditAfter(a, b, c, Credit(v))
    case SubtractFromBalance(a, v) => EditAfter(a, b, c, Debit(v))
    case SetNonce(a, n) => EditAfter(a, b, c, ToNonce(n))
    case DeployCode(a, code) => EditAfter(a, b, c, ToCodeHash(keccak(code)))
    case MakeContract(a) => if a == b then Some(Account(0, if c.Some? then c.value.balance else 0, EMPTY_HASH, 1)) else c
    case _ => c
  }

  lemma PutAfter(db: Db, s: State, a: Address, e: Edit, b: Address)
    ensures C.Bare(AccountOf(db, Put(db, s, a, e), b)) == EditAfter(a, b, C.Bare(AccountOf(db, s, b)), e)
  {
    hide Put;
    PutShape(db, s, a, e);
    if b != a { assert ObjectIn(db, s.objects, b) == ObjectIn(db, Put(db, s, a, e).objects, b); }
  }

  lemma BalanceAfter(db: Db, s: State, a: Address, e: Edit, b: Address)
    ensures C.Bare(AccountOf(db, ChangeBalance(db, s, a, e), b)) == EditAfter(a, b, C.Bare(AccountOf(db, s, b)), e)
  {
    hide Put, Touch, EditAfter;
    PutAfter(db, s, a, e, b);
    TouchRest(Put(db, s, a, e), a);
  }

  lemma CodeAfter(db: Db, keccak: Bytes -> Word, s: State, a: Address, code: Bytes, b: Address)
    ensures C.Bare(AccountOf(db, SetCode(db, keccak, s, a, code), b)) == EditAfter(a, b, C.Bare(AccountOf(db, s, b)), ToCodeHash(keccak(code)))
  {
    hide Put, EditAfter;
    PutAfter(db, s, a, ToCodeHash(keccak(code)), b);
  }

  lemma CreatedAfter(db: Db, s: State, a: Address, b: Address)
    ensures C.Bare(AccountOf(db, CreateContract(db, s, a), b)) ==
      var c := C.Bare(AccountOf(db, s, b));
      if a == b then Some(Account(0, if c.Some? then c.value.balance else 0, EMPTY_HASH, 1)) else c
  {
    hide CreateContract;
    CreatedShape(db, s, a);
    if b != a { assert ObjectIn(db, s.objects, b) == ObjectIn(db, CreateContract(db, s, a).objects, b); }
  }

  /** Operations that change no account. */
  predicate Still(op: Op)
  {
    !(op.SetBalance? || op.AddToBalance? || op.SubtractFromBalance? || op.SetNonce? || op.DeployCode? || op.MakeContract?)
  }

  lemma StillObjects(db: Db, keccak: Bytes -> Word, s: State, op: Op)
    requires Still(op)
    ensures SameObjects(db, s.objects, Apply(db, keccak, s, op).objects)
    ensures !op.ReadCode? ==> Apply(db, keccak, s, op).code == s.code
  {
    hide Fetch, FetchStorage, SetStorage, Touch, RecordSuicide, AccessAccount, AccessStorage, CurrentStorage, Restores, SameObjects;
    match op
    case ReadAccount(a) => FetchStill(db, s, a);
    case ReadCode(a) => FetchStill(db, s, a);
    case ReadStorage(a, k, original) => StorageStill(db, s, a, k, original, 0);
    case WriteStorage(a, k, v) => StorageStill(db, s, a, k, false, v);
    case _ =>
      SubstateKeepsCode(db, keccak, s, op);
      SameObjectsReflexive(db, s.objects);
  }

  lemma SameObjectsReflexive(db: Db, objects: Objects)
    ensures SameObjects(db, objects, objects)
  {
  }

  lemma FetchStill(db: Db, s: State, a: Address)
    ensures SameObjects(db, s.objects, Fetch(db, s, a).objects) && Fetch(db, s, a).code == s.code
  {
    FetchUndoable(db, s, a);
    FetchKeepsCode(db, s, a, 0, false);
  }

  lemma StorageStill(db: Db, s: State, a: Address, k: Word, original: bool, v: Word)
    ensures var t := FetchStorage(db, s, a, k, original); SameObjects(db, s.objects, t.objects) && t.code == s.code
    ensures var t := SetStorage(db, s, a, k, v); SameObjects(db, s.objects, t.objects) && t.code == s.code
  {
    hide FetchStorage, CurrentStorage;
    FetchStorageRestores(db, s, a, k, original);
    FetchStorageRestores(db, s, a, k, false);
    FetchKeepsCode(db, s, a, k, original);
    FetchKeepsCode(db, s, a, k, false);
  }

  lemma ApplyAfter(db: Db, keccak: Bytes -> Word, s: State, op: Op, b: Address)
    ensures C.Bare(AccountOf(db, Apply(db, keccak, s, op), b)) == AccountAfter(keccak, op, b, C.Bare(AccountOf(db, s, b)))
  {
    hide Put, ChangeBalance, SetCode, CreateContract, SetStorage, Fetch, FetchCode, FetchStorage, Touch, RecordSuicide,
      AccessAccount, AccessStorage, EditAfter, SameObjects;
    match op
    case SetBalance(a, v) => BalanceAfter(db, s, a, ToBalance(v), b);
    case AddToBalance(a, v) => BalanceAfter(db, s, a, Credit(v), b);
    case SubtractFromBalance(a, v) => BalanceAfter(db, s, a, Debit(v), b);
    case SetNonce(a, n) => PutAfter(db, s, a, ToNonce(n), b);
    case DeployCode(a, code) => CodeAfter(db, keccak, s, a, code, b);
    case MakeContract(a) => CreatedAfter(db, s, a, b);
    case _ =>
      StillObjects(db, keccak, s, op);
      SameAccount(db, s, Apply(db, keccak, s, op), b);
  }

  lemma SameAccount(db: Db, s: State, t: State, b: Address)
    requires SameObjects(db, s.objects, t.objects)
    ensures AccountOf(db, t, b) == AccountOf(db, s, b)
  {
    assert ObjectIn(db, s.objects, b) == ObjectIn(db, t.objects, b);
  }

  lemma ApplyMirror(codeOf: Word -> Bytes, x: Env, y: Env, s: State, t: State, op: Op)
    requires Paired(codeOf, x, y) && Mirror(codeOf, x.db, s, y.db, t)
    requires op.DeployCode? ==> codeOf(x.keccak(op.code)) == op.code
    ensures Mirror(codeOf, x.db, x.Apply(s, op), y.db, y.Apply(t, op))
    ensures s.code.Keys <= x.Apply(s, op).code.Keys && t.code.Keys <= y.Apply(t, op).code.Keys
  {
    hide Resolved, Journal.Apply, AccountAfter;
    ApplyResolved(codeOf, x.db, x.keccak, s, op);
    ApplyResolved(codeOf, y.db, y.keccak, t, op);
    ApplyKeepsCode(x.db, x.keccak, s, op);
    ApplyKeepsCode(y.db, y.keccak, t, op);
    forall a
      ensures C.Bare(AccountOf(x.db, x.Apply(s, op), a)) == C.Bare(AccountOf(y.db, y.Apply(t, op), a))
    {
      ApplyAfter(x.db, x.keccak, s, op, a);
      ApplyAfter(y.db, y.keccak, t, op, a);
      assert C.Bare(AccountOf(x.db, s, a)) == C.Bare(AccountOf(y.db, t, a));
    }
  }

  lemma StillMirror(codeOf: Word -> Bytes, d: Db, s: State, s': State, e: Db, t: State, t': State)
    requires Mirror(codeOf, d, s, e, t)
    requires SameObjects(d, s.objects, s'.objects) && s'.code == s.code && SameObjects(e, t.objects, t'.objects) && t'.code == t.code
    ensures Mirror(codeOf, d, s', e, t')
  {
    hide Resolved;
    ResolvedCopy(codeOf, d, s, s');
    ResolvedCopy(codeOf, e, t, t');
    forall a ensures C.Bare(AccountOf(d, s', a)) == C.Bare(AccountOf(e, t', a)) {
      SameAccount(d, s, s', a);
      SameAccount(e, t, t', a);
      assert C.Bare(AccountOf(d, s, a)) == C.Bare(AccountOf(e, t, a));
    }
  }

  lemma {:induction false} AllStill(db: Db, keccak: Bytes -> Word, s: State, ops: seq<Op>)
    requires forall op <- ops :: Still(op) && !op.ReadCode?
    ensures var t := ApplyAll(db, keccak, s, ops); SameObjects(db, s.objects, t.objects) && t.code == s.code
    decreases |ops|
  {
    hide Journal.Apply;
    if ops != [] {
      var u := Journal.Apply(db, keccak, s, ops[0]);
      StillObjects(db, keccak, s, ops[0]);
      AllStill(db, keccak, u, ops[1..]);
      var t := ApplyAll(db, keccak, u, ops[1..]);
      forall a ensures ObjectIn(db, s.objects, a) == ObjectIn(db, t.objects, a) {
        assert ObjectIn(db, s.objects, a) == ObjectIn(db, u.objects, a);
      }
    }
  }

  lemma StoreMirror(codeOf: Word -> Bytes, x: Env, y: Env, s: State, t: State, a: Address, k: Word, v: Word)
    requires Paired(codeOf, x, y) && Mirror(codeOf, x.db, s, y.db, t)
    ensures Alike(codeOf, x, y, s, Perform(x, s, Action.Store(a, k, v)), t, Perform(y, t, Action.Store(a, k, v)))
  {
    hide Mirror, ApplyAll, WriteOps;
    WriteStill(x.db, x.rev, s, a, k, v);
    WriteStill(y.db, y.rev, t, a, k, v);
    var p, q := WriteOps(x.db, x.rev, s, a, k, v), WriteOps(y.db, y.rev, t, a, k, v);
    AllStill(x.db, x.keccak, s, p);
    AllStill(y.db, y.keccak, t, q);
    StillMirror(codeOf, x.db, s, ApplyAll(x.db, x.keccak, s, p), y.db, t, ApplyAll(y.db, y.keccak, t, q));
  }

  lemma WriteStill(db: Db, rev: Revision, s: State, a: Address, k: Word, v: Word)
    ensures forall op <- WriteOps(db, rev, s, a, k, v) :: Still(op) && !op.ReadCode?
  {
    hide CurrentStorage, OriginalStorage;
  }

  // --- frames ---

  lemma CloseMirror(codeOf: Word -> Bytes, x: Env, y: Env, s: State, o: Outcome, t: State, q: Outcome)
    requires Mirror(codeOf, x.db, s, y.db, t) && Alike(codeOf, x, y, s, o, t, q)
    requires Descends(x.db, s, o.state) && Descends(y.db, t, q.state)
    ensures Alike(codeOf, x, y, s, Close(s, o), t, Close(t, q))
  {
    hide Resolved, Undoable;
    if o.result.status != SUCCESS {
      BackMirror(codeOf, x.db, s, o.state);
      BackMirror(codeOf, y.db, t, q.state);
      var u, w := BackTo(s, o.state), BackTo(t, q.state);
      forall a ensures C.Bare(AccountOf(x.db, u, a)) == C.Bare(AccountOf(y.db, w, a)) {
        assert AccountOf(x.db, u, a) == AccountOf(x.db, s, a) && AccountOf(y.db, w, a) == AccountOf(y.db, t, a);
        assert C.Bare(AccountOf(x.db, s, a)) == C.Bare(AccountOf(y.db, t, a));
      }
    }
  }

  lemma BackMirror(codeOf: Word -> Bytes, db: Db, s: State, o: State)
    requires Descends(db, s, o) && Resolved(codeOf, db, s) && Resolved(codeOf, db, o) && s.code.Keys <= o.code.Keys
    ensures Resolved(codeOf, db, BackTo(s, o)) && BackTo(s, o).code == o.code
    ensures forall a :: AccountOf(db, BackTo(s, o), a) == AccountOf(db, s, a)
  {
    hide Resolved, Undoable;
    RevertedResolved(codeOf, db, s, o);
    RevertRestores(db, s, o);
  }

  lemma PaidMirror(codeOf: Word -> Bytes, x: Env, y: Env, s: State, t: State, m: Message)
    requires Paired(codeOf, x, y) && Mirror(codeOf, x.db, s, y.db, t)
    ensures Mirror(codeOf, x.db, Paid(x, s, m), y.db, Paid(y, t, m))
    ensures s.code.Keys <= Paid(x, s, m).code.Keys && t.code.Keys <= Paid(y, t, m).code.Keys
    ensures Descends(x.db, s, Paid(x, s, m)) && Descends(y.db, t, Paid(y, t, m))
  {
    hide Mirror, Paired, Journal.Apply, Descends;
    PaidDescends(x, s, m);
    PaidDescends(y, t, m);
    if m.kind == CALL {
      if m.readOnly {
        ApplyMirror(codeOf, x, y, s, t, TouchAccount(m.destination));
      } else {
        TransferMirror(codeOf, x, y, s, t, m.sender, m.destination, m.value);
      }
    }
  }

  lemma TransferMirror(codeOf: Word -> Bytes, x: Env, y: Env, s: State, t: State, from: Address, to: Address, v: Word)
    requires Paired(codeOf, x, y) && Mirror(codeOf, x.db, s, y.db, t)
    ensures Mirror(codeOf, x.db, Transfer(x, s, from, to, v), y.db, Transfer(y, t, from, to, v))
    ensures s.code.Keys <= Transfer(x, s, from, to, v).code.Keys && t.code.Keys <= Transfer(y, t, from, to, v).code.Keys
  {
    hide Mirror, Paired, Journal.Apply;
    ApplyMirror(codeOf, x, y, s, t, SubtractFromBalance(from, v));
    ApplyMirror(codeOf, x, y, x.Apply(s, SubtractFromBalance(from, v)), y.Apply(t, SubtractFromBalance(from, v)), AddToBalance(to, v));
  }

  lemma TransferDescends(env: Env, s: State, from: Address, to: Address, v: Word)
    ensures Descends(env.db, s, Transfer(env, s, from, to, v))
  {
    hide Descends, Journal.Apply;
    var s1 := env.Apply(s, SubtractFromBalance(from, v));
    ApplyDescends(env, s, SubtractFromBalance(from, v));
    ApplyDescends(env, s1, AddToBalance(to, v));
    DescendsTransitive(env.db, s, s1, Transfer(env, s, from, to, v));
  }

  lemma PaidDescends(env: Env, s: State, m: Message)
    ensures Descends(env.db, s, Paid(env, s, m))
  {
    hide Descends, Journal.Apply, Transfer;
    DescendsReflexive(env.db, s);
    ApplyDescends(env, s, TouchAccount(m.destination));
    TransferDescends(env, s, m.sender, m.destination, m.value);
  }

  // --- call trees ---

  lemma {:induction false} ActionMirror(codeOf: Word -> Bytes, x: Env, y: Env, s: State, t: State, n: nat, action: Action)
    requires Paired(codeOf, x, y) && Mirror(codeOf, x.db, s, y.db, t) && HonestAction(codeOf, x.keccak, action)
    ensures Trace(x, s, n, action) == Trace(y, t, n, action)
    ensures Alike(codeOf, x, y, s, Perform(x, s, action), t, Perform(y, t, action))
    decreases action, 1
  {
    hide Mirror, Journal.Apply, RunCall, RunCreate, TraceCall, TraceCreate, Others, ApplyAll, WriteOps;
    match action
    case Observe(op) => if Observes(op) { ApplyMirror(codeOf, x, y, s, t, op); }
    case Store(a, k, v) => StoreMirror(codeOf, x, y, s, t, a, k, v);
    case Destroy(a, beneficiary) => DestroyMirror(codeOf, x, y, s, t, a, beneficiary);
    case Invoke(m, p) => MessageMirror(codeOf, x, y, s, t, n, m, p);
  }

  lemma DestroyMirror(codeOf: Word -> Bytes, x: Env, y: Env, s: State, t: State, a: Address, beneficiary: Address)
    requires Paired(codeOf, x, y) && Mirror(codeOf, x.db, s, y.db, t)
    ensures BalanceOf(x.db, s, a) == BalanceOf(y.db, t, a)
    ensures Alike(codeOf, x, y, s, Perform(x, s, Destroy(a, beneficiary)), t, Perform(y, t, Destroy(a, beneficiary)))
  {
    hide Mirror, Paired, Journal.Apply, BalanceIn;
    var v := BalanceOf(x.db, s, a);
    MirrorReads(codeOf, x, y, s, t, a);
    ApplyMirror(codeOf, x, y, s, t, Op.SelfDestruct(a));
    var s1, t1 := x.Apply(s, Op.SelfDestruct(a)), y.Apply(t, Op.SelfDestruct(a));
    ApplyMirror(codeOf, x, y, s1, t1, ReadAccount(a));
    var s2, t2 := x.Apply(s1, ReadAccount(a)), y.Apply(t1, ReadAccount(a));
    ApplyMirror(codeOf, x, y, s2, t2, AddToBalance(beneficiary, v));
    ApplyMirror(codeOf, x, y, x.Apply(s2, AddToBalance(beneficiary, v)), y.Apply(t2, AddToBalance(beneficiary, v)), SetBalance(a, 0));
  }

  /** For every call tree, a message takes the same steps on both sides, returns the same and leaves the same accounts. */
  lemma {:induction false} MessageMirror(codeOf: Word -> Bytes, x: Env, y: Env, s: State, t: State, n: nat, m: Message, p: Program)
    requires Paired(codeOf, x, y) && Mirror(codeOf, x.db, s, y.db, t) && Honest(codeOf, x.keccak, p)
    ensures TraceMessage(x, s, n, m, p) == TraceMessage(y, t, n, m, p)
    ensures Alike(codeOf, x, y, s, Dispatch(x, s, m, p), t, Dispatch(y, t, m, p))
    decreases p, 3
  {
    hide Mirror, Paired, RunCall, RunCreate, TraceCall, TraceCreate;
    if m.kind == CREATE || m.kind == CREATE2 {
      CreateMirror(codeOf, x, y, s, t, n, m, p);
    } else {
      CallMirror(codeOf, x, y, s, t, n, m, p);
    }
  }

  lemma {:induction false} AllMirror(codeOf: Word -> Bytes, x: Env, y: Env, s: State, t: State, n: nat, actions: seq<Action>)
    requires Paired(codeOf, x, y) && Mirror(codeOf, x.db, s, y.db, t) && HonestAll(codeOf, x.keccak, actions)
    ensures TraceAll(x, s, n, actions) == TraceAll(y, t, n, actions)
    ensures Alike(codeOf, x, y, s, PerformAll(x, s, actions), t, PerformAll(y, t, actions))
    decreases actions
  {
    hide Mirror, Paired, Trace, Perform, After, HonestAction;
    if actions != [] {
      ActionMirror(codeOf, x, y, s, t, n, actions[0]);
      var first := Trace(x, s, n, actions[0]);
      AllMirror(codeOf, x, y, Perform(x, s, actions[0]).state, Perform(y, t, actions[0]).state, After(n, first), actions[1..]);
    }
  }

  /** The program of a frame, from states that mirror each other. */
  lemma {:induction false} ExecuteMirror(codeOf: Word -> Bytes, x: Env, y: Env, s: State, t: State, n: nat, p: Program)
    requires Paired(codeOf, x, y) && Mirror(codeOf, x.db, s, y.db, t) && Honest(codeOf, x.keccak, p)
    ensures TraceAll(x, s, n, p.actions) == TraceAll(y, t, n, p.actions)
    ensures Alike(codeOf, x, y, s, Execute(x, s, p), t, Execute(y, t, p))
    ensures Descends(x.db, s, Execute(x, s, p).state) && Descends(y.db, t, Execute(y, t, p).state)
    decreases p, 0
  {
    hide Mirror, Paired, PerformAll, TraceAll, Supply;
    AllMirror(codeOf, x, y, s, t, n, p.actions);
    ExecuteConserves(x, s, p);
    ExecuteConserves(y, t, p);
  }

  lemma LookMirror(codeOf: Word -> Bytes, x: Env, y: Env, s: State, t: State, look: bool, a: Address)
    requires Paired(codeOf, x, y) && Mirror(codeOf, x.db, s, y.db, t)
    ensures var s1, t1 := if look then x.Apply(s, ReadAccount(a)) else s, if look then y.Apply(t, ReadAccount(a)) else t;
      Mirror(codeOf, x.db, s1, y.db, t1) && s.code.Keys <= s1.code.Keys && t.code.Keys <= t1.code.Keys
  {
    hide Mirror, Paired, Journal.Apply;
    if look { ApplyMirror(codeOf, x, y, s, t, ReadAccount(a)); }
  }

  lemma {:induction false} CallMirror(codeOf: Word -> Bytes, x: Env, y: Env, s: State, t: State, n: nat, m: Message, p: Program)
    requires Paired(codeOf, x, y) && Mirror(codeOf, x.db, s, y.db, t) && Honest(codeOf, x.keccak, p)
    ensures TraceCall(x, s, n, m, p) == TraceCall(y, t, n, m, p)
    ensures Alike(codeOf, x, y, s, RunCall(x, s, m, p), t, RunCall(y, t, m, p))
    decreases p, 2
  {
    hide Mirror, Journal.Apply, Others, Paid, BalanceIn, Live, CodeOf, Framed, Close, TraceAll, Execute, Honest, RunPrecompiled;
    var look1 := m.kind != DELEGATECALL;
    var s1, t1 := if look1 then x.Apply(s, ReadAccount(m.sender)) else s, if look1 then y.Apply(t, ReadAccount(m.sender)) else t;
    MirrorReads(codeOf, x, y, s, t, m.sender);
    LookMirror(codeOf, x, y, s, t, look1, m.sender);
    if !(look1 && BalanceOf(x.db, s, m.sender) < m.value) {
      var look2 := m.value == 0 && x.rev >= SPURIOUS_DRAGON;
      var s2, t2 := if look2 then x.Apply(s1, ReadAccount(m.destination)) else s1, if look2 then y.Apply(t1, ReadAccount(m.destination)) else t1;
      MirrorReads(codeOf, x, y, s1, t1, m.destination);
      LookMirror(codeOf, x, y, s1, t1, look2, m.destination);
      FrameMirror(codeOf, x, y, s2, t2, n, m, p);
    }
  }

  /** The part of a call after its checks, on the left or the right side. */
  function Called(env: Env, s: State, m: Message, p: Program): (o: Outcome)
  {
    var s3 := Paid(env, s, m);
    if IsPrecompiled(env.rev, m.destination) then Close(s, Outcome(s3, RunPrecompiled(env, m), 0))
    else if CodeOf(env.db, s3, m.destination) == [] then
      Outcome(env.Apply(s3, ReadCode(m.destination)), Result(SUCCESS, m.gas, []), 0)
    else Close(s, Execute(env, env.Apply(s3, ReadCode(m.destination)), p))
  }

  lemma {:induction false} FrameMirror(codeOf: Word -> Bytes, x: Env, y: Env, s: State, t: State, n: nat, m: Message, p: Program)
    requires Paired(codeOf, x, y) && Mirror(codeOf, x.db, s, y.db, t) && Honest(codeOf, x.keccak, p)
    ensures CodeOf(x.db, Paid(x, s, m), m.destination) == CodeOf(y.db, Paid(y, t, m), m.destination)
    ensures RunPrecompiled(x, m) == RunPrecompiled(y, m)
    ensures TraceAll(x, x.Apply(Paid(x, s, m), ReadCode(m.destination)), n + 1, p.actions) ==
            TraceAll(y, y.Apply(Paid(y, t, m), ReadCode(m.destination)), n + 1, p.actions)
    ensures Alike(codeOf, x, y, s, Called(x, s, m, p), t, Called(y, t, m, p))
    decreases p, 1
  {
    hide Mirror, Journal.Apply, Paid, CodeOf, Close, TraceAll, Execute, Descends, Honest;
    var s3, t3 := Paid(x, s, m), Paid(y, t, m);
    PaidMirror(codeOf, x, y, s, t, m);
    MirrorReads(codeOf, x, y, s3, t3, m.destination);
    var s4, t4 := x.Apply(s3, ReadCode(m.destination)), y.Apply(t3, ReadCode(m.destination));
    ApplyMirror(codeOf, x, y, s3, t3, ReadCode(m.destination));
    ExecuteMirror(codeOf, x, y, s4, t4, n + 1, p);
    var o, q := Execute(x, s4, p), Execute(y, t4, p);
    CalledDescends(x, s, m, p);
    CalledDescends(y, t, m, p);
    CloseMirror(codeOf, x, y, s, o, t, q);
    CloseMirror(codeOf, x, y, s, Outcome(s3, RunPrecompiled(x, m), 0), t, Outcome(t3, RunPrecompiled(y, m), 0));
  }

  lemma CalledDescends(env: Env, s: State, m: Message, p: Program)
    ensures Descends(env.db, s, Paid(env, s, m))
    ensures Descends(env.db, s, Execute(env, env.Apply(Paid(env, s, m), ReadCode(m.destination)), p).state)
  {
    hide Descends, Paid, Execute, Journal.Apply, Supply;
    var s3 := Paid(env, s, m);
    var s4 := env.Apply(s3, ReadCode(m.destination));
    PaidDescends(env, s, m);
    ApplyDescends(env, s3, ReadCode(m.destination));
    ExecuteConserves(env, s4, p);
    DescendsTransitive(env.db, s, s3, s4);
    DescendsTransitive(env.db, s, s4, Execute(env, s4, p).state);
  }

  // --- creations ---

  lemma AnnouncedMirror(codeOf: Word -> Bytes, x: Env, y: Env, s: State, t: State, sender: Address, nonce: nat, a: Address)
    requires Paired(codeOf, x, y) && Mirror(codeOf, x.db, s, y.db, t)
    ensures var s2, t2 := Announced(x, s, sender, nonce, a), Announced(y, t, sender, nonce, a);
      Mirror(codeOf, x.db, s2, y.db, t2) && s.code.Keys <= s2.code.Keys && t.code.Keys <= t2.code.Keys
  {
    hide Mirror, Paired, Journal.Apply;
    var op := SetNonce(sender, (nonce + 1) % TWO_64);
    ApplyMirror(codeOf, x, y, s, t, op);
    ApplyMirror(codeOf, x, y, x.Apply(s, op), y.Apply(t, op), WarmAccount(a));
    ApplyMirror(codeOf, x, y, x.Apply(x.Apply(s, op), WarmAccount(a)), y.Apply(y.Apply(t, op), WarmAccount(a)), ReadAccount(a));
  }

  lemma FoundedMirror(codeOf: Word -> Bytes, x: Env, y: Env, s: State, t: State, m: Message, a: Address)
    requires Paired(codeOf, x, y) && Mirror(codeOf, x.db, s, y.db, t)
    ensures var s3, t3 := Founded(x, s, m, a), Founded(y, t, m, a);
      && Mirror(codeOf, x.db, s3, y.db, t3) && s.code.Keys <= s3.code.Keys && t.code.Keys <= t3.code.Keys
      && Descends(x.db, s, s3) && Descends(y.db, t, t3)
  {
    hide Mirror, Journal.Apply, Transfer, Descends;
    ApplyMirror(codeOf, x, y, s, t, MakeContract(a));
    var s1, t1 := x.Apply(s, MakeContract(a)), y.Apply(t, MakeContract(a));
    ApplyMirror(codeOf, x, y, s1, t1, SetNonce(a, 1));
    var s2 := if x.rev >= SPURIOUS_DRAGON then x.Apply(s1, SetNonce(a, 1)) else s1;
    var t2 := if y.rev >= SPURIOUS_DRAGON then y.Apply(t1, SetNonce(a, 1)) else t1;
    TransferMirror(codeOf, x, y, s2, t2, m.sender, a, m.value);
    FoundedDescends(x, s, m, a);
    FoundedDescends(y, t, m, a);
  }

  lemma FoundedDescends(env: Env, s: State, m: Message, a: Address)
    ensures Descends(env.db, s, Founded(env, s, m, a))
  {
    hide Journal.Apply, Transfer, Descends;
    var s1 := env.Apply(s, MakeContract(a));
    ApplyDescends(env, s, MakeContract(a));
    ApplyDescends(env, s1, SetNonce(a, 1));
    var s2 := if env.rev >= SPURIOUS_DRAGON then env.Apply(s1, SetNonce(a, 1)) else s1;
    DescendsReflexive(env.db, s1);
    DescendsTransitive(env.db, s, s1, s2);
    TransferDescends(env, s2, m.sender, a, m.value);
    DescendsTransitive(env.db, s, s2, Founded(env, s, m, a));
  }

  lemma DeployMirror(codeOf: Word -> Bytes, x: Env, y: Env, a: Address, s: State, o: Outcome, t: State, q: Outcome)
    requires Paired(codeOf, x, y) && Alike(codeOf, x, y, s, o, t, q) && codeOf(x.keccak(o.result.output)) == o.result.output
    requires Descends(x.db, s, o.state) && Descends(y.db, t, q.state)
    ensures Alike(codeOf, x, y, s, Deploy(x, a, o), t, Deploy(y, a, q))
    ensures Descends(x.db, s, Deploy(x, a, o).state) && Descends(y.db, t, Deploy(y, a, q).state)
  {
    hide Mirror, Journal.Apply, Descends;
    var op := DeployCode(a, o.result.output);
    ApplyMirror(codeOf, x, y, o.state, q.state, op);
    ApplyDescends(x, o.state, op);
    ApplyDescends(y, q.state, op);
    DescendsTransitive(x.db, s, o.state, x.Apply(o.state, op));
    DescendsTransitive(y.db, t, q.state, y.Apply(q.state, op));
  }

  lemma {:induction false} FoundingMirror(codeOf: Word -> Bytes, x: Env, y: Env, s: State, t: State, n: nat, m: Message, p: Program, a: Address)
    requires Paired(codeOf, x, y) && Mirror(codeOf, x.db, s, y.db, t) && Honest(codeOf, x.keccak, p)
    ensures var s3, t3 := Founded(x, s, m, a), Founded(y, t, m, a);
      var o, q := Deploy(x, a, Execute(x, s3, p)), Deploy(y, a, Execute(y, t3, p));
      && TraceAll(x, s3, n + 1, p.actions) == TraceAll(y, t3, n + 1, p.actions) && o.result == q.result
      && Alike(codeOf, x, y, s, Close(s, o), t, Close(t, q))
    decreases p, 1
  {
    hide Mirror, Paired, Founded, Close, TraceAll, PerformAll, Deploy, Descends;
    var s3, t3 := Founded(x, s, m, a), Founded(y, t, m, a);
    FoundedMirror(codeOf, x, y, s, t, m, a);
    ExecuteMirror(codeOf, x, y, s3, t3, n + 1, p);
    var o, q := Execute(x, s3, p), Execute(y, t3, p);
    DescendsTransitive(x.db, s, s3, o.state);
    DescendsTransitive(y.db, t, t3, q.state);
    DeployMirror(codeOf, x, y, a, s, o, t, q);
    CloseMirror(codeOf, x, y, s, Deploy(x, a, o), t, Deploy(y, a, q));
  }

  lemma {:induction false} CreateMirror(codeOf: Word -> Bytes, x: Env, y: Env, s: State, t: State, n: nat, m: Message, p: Program)
    requires Paired(codeOf, x, y) && Mirror(codeOf, x.db, s, y.db, t) && Honest(codeOf, x.keccak, p)
    ensures TraceCreate(x, s, n, m, p) == TraceCreate(y, t, n, m, p)
    ensures Alike(codeOf, x, y, s, RunCreate(x, s, m, p), t, RunCreate(y, t, m, p))
    decreases p, 2
  {
    hide Mirror, Journal.Apply, Others, BalanceIn, Framed, Close, TraceAll, PerformAll, Announced, Founded, Deploy,
      NonceOf, CodeHashOf, AnnouncedOps, Honest;
    MirrorReads(codeOf, x, y, s, t, m.sender);
    ApplyMirror(codeOf, x, y, s, t, ReadAccount(m.sender));
    var s1, t1 := x.Apply(s, ReadAccount(m.sender)), y.Apply(t, ReadAccount(m.sender));
    if BalanceOf(x.db, s, m.sender) >= m.value {
      MirrorReads(codeOf, x, y, s1, t1, m.sender);
      var nonce := NonceOf(x.db, s1, m.sender);
      var a := x.newAddress(m, nonce);
      AnnouncedMirror(codeOf, x, y, s1, t1, m.sender, nonce, a);
      var s2, t2 := Announced(x, s1, m.sender, nonce, a), Announced(y, t1, m.sender, nonce, a);
      MirrorReads(codeOf, x, y, s2, t2, a);
      FoundingMirror(codeOf, x, y, s2, t2, n, m, p, a);
    }
  }
}
