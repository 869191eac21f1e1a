/** The executor of the chain: the processor, with an interpreter that chooses host calls from what it reads, and
    `write_to_db` (core/silkworm/execution/execution.cpp). It meets what the chain asks of quiet executions. */
module ProcessorChains {
  import opened Basics
  import opened World
  import opened Journal
  import opened FlatState
  import opened MemoryBuffers
  import opened IntraBlock
  import opened Ether
  import opened Refunds
  import opened Evm
  import opened Processor
  import opened Traces
  import opened Refinement
  import opened Frames
  import opened Renumbering
  import opened Mirrors
  import opened Ownership
  import opened BlockMirrors
  import opened Interpreters
  import E = BlockExecution
  import C = ChainStates
  import B = Blockchains

  // --- transactions of an interpreter ---

  /** The program of the transaction is what the interpreter does with its message. */
  ghost predicate PlaysTxn(i: Interpreter, env: Env, s: State, txn: Txn)
    requires txn.from.Some? && Checked(txn)
  {
    PlaysMessage(i, env, Prepare(env, s, txn), 0, MessageOf(txn), txn.program)
  }

  /** So it is for every transaction that is executed; the others have none. */
  ghost predicate PlaysTxns(i: Interpreter, env: Env, block: Block, s: State, used: nat, txns: seq<Txn>)
    requires forall txn <- txns :: Checked(txn)
    decreases |txns|
  {
    if txns == [] then true
    else if Validate(env, block, used, s, txns[0]) != Ok then forall txn <- txns :: txn.program == IDLE
    else
      var s1 := Looked(env, s, txns[0]);
      var t := ExecuteTransaction(env, block.beneficiary, s1, txns[0]);
      PlaysTxn(i, env, s1, txns[0]) && PlaysTxns(i, env, block, t.state, used + t.gasUsed, txns[1..])
  }

  /** Transactions of an interpreter write the storage of their own accounts only. */
  lemma {:induction false} PlayedTxns(i: Interpreter, env: Env, block: Block, s: State, used: nat, txns: seq<Txn>)
    requires (forall txn <- txns :: Checked(txn)) && PlaysTxns(i, env, block, s, used, txns)
    ensures OwnTxns(env, block, s, used, txns)
    decreases |txns|
  {
    hide Checked, Validate, Looked, ExecuteTransaction, PlaysMessage, OwnMessage, Prepare;
    if txns != [] && Validate(env, block, used, s, txns[0]) == Ok {
      var s1, txn := Looked(env, s, txns[0]), txns[0];
      Admitted(env, block, used, s, txn);
      PlayedMessage(i, env, Prepare(env, s1, txn), 0, MessageOf(txn), txn.program);
      var t := ExecuteTransaction(env, block.beneficiary, s1, txn);
      PlayedTxns(i, env, block, t.state, used + t.gasUsed, txns[1..]);
    }
  }

  /** If accounts with code are contracts, the block of an interpreter is legal. */
  lemma PlayedBlockLegal(i: Interpreter, env: Env, block: Block, fork: Option<Fork>)
    requires (forall txn <- block.txns :: Checked(txn)) && DbOk(env.db) && Coded(env.db, FRESH_STATE)
    requires PlaysTxns(i, env, block, Opening(env, fork), 0, block.txns)
    ensures FlatExecuted(env, block, fork).Some?
  {
    hide Checked, DbOk, Coded, PlaysTxns, OwnTxns, FlatExecuted;
    PlayedTxns(i, env, block, Opening(env, fork), 0, block.txns);
    BlockLegal(env, block, fork);
  }

  // --- the same transactions on both sides ---

  /** The transactions differ in their programs only. */
  predicate SameButProgram(t: Txn, u: Txn)
  {
    u == t.(program := u.program)
  }

  predicate SameButPrograms(txns: seq<Txn>, others: seq<Txn>)
  {
    |txns| == |others| && forall j | 0 <= j < |txns| :: SameButProgram(txns[j], others[j])
  }

  lemma SameButFirst(txns: seq<Txn>, others: seq<Txn>)
    requires SameButPrograms(txns, others) && txns != []
    ensures others != [] && SameButProgram(txns[0], others[0]) && SameButPrograms(txns[1..], others[1..])
    ensures txns[0] == others[0] && txns[1..] == others[1..] ==> txns == others
  {
    assert txns == [txns[0]] + txns[1..] && others == [others[0]] + others[1..];
  }

  lemma PrepareAbreast(codeOf: Word -> Bytes, x: Env, y: Env, s: State, t: State, txn: Txn, f: Flat, g: Flat)
    requires txn.from.Some? && Sides(codeOf, x, y, s, t, f, g)
    ensures Abreast(codeOf, Side(x, ClearSubstate(s), Begun(f)), Side(y, ClearSubstate(t), Begun(g)),
                    Others(PrepareOps(txn)), Prepare(x, s, txn), Prepare(y, t, txn), 0)
  {
    hide Reaches, Mirror, Between, Resolved, Renumbered, DbOk, Prepare, Others, PrepareOps, ApplyAll, Starts, AllPlain, Leads, After, Twins;
    SidesMirror(codeOf, x, y, s, t, f, g);
    PrepareMirror(codeOf, x, y, s, t, txn);
    PrepareReaches(x, s, txn, f);
    PrepareReaches(y, t, txn, g);
  }

  lemma PrepareReaches(env: Env, s: State, txn: Txn, f: Flat)
    requires txn.from.Some? && DbOk(env.db) && Between(env.db, s, f)
    ensures Reaches(env, ClearSubstate(s), Begun(f), Others(PrepareOps(txn)), Prepare(env, s, txn), 0)
  {
    hide Reaches, Between, DbOk, Prepare, Others, ApplyAll, Starts, AllPlain, Leads, After, WarmOps;
    var s0, f0, steps := ClearSubstate(s), Begun(f), Others(PrepareOps(txn));
    BetweenStarts(env.db, s, f);
    ReachesStart(env, s0, f0);
    WarmOnly(txn.accessList);
    OthersPlain(PrepareOps(txn));
    LeadsOps(env, s0, 0, PrepareOps(txn));
    PrepareState(env, s, txn);
    ReachesOn(env, s0, f0, [], s0, 0, steps, Prepare(env, s, txn));
    assert [] + steps == steps;
  }

  /** A transaction has the same program on both sides. */
  lemma ProgramSame(i: Interpreter, codeOf: Word -> Bytes, x: Env, y: Env, beneficiary: Address, s: State, t: State, txn: Txn, other: Txn, f: Flat, g: Flat)
    requires txn.from.Some? && Checked(txn) && Checked(other) && SameButProgram(txn, other) && Sides(codeOf, x, y, s, t, f, g)
    requires Honest(codeOf, x.keccak, txn.program) && PlaysTxn(i, x, s, txn) && PlaysTxn(i, y, t, other)
    requires LegalTxn(x, beneficiary, s, txn, f) && FlatTxn(x, beneficiary, s, txn, f).novel
    requires LegalTxn(y, beneficiary, t, other, g) && FlatTxn(y, beneficiary, t, other, g).novel
    ensures txn == other
  {
    hide Abreast, Sides, Honest, PlaysMessage, Prepare, Others, PrepareOps, TraceMessage, LegalHostRun, FlatHostRun, MessageSteps;
    PrepareAbreast(codeOf, x, y, s, t, txn, f, g);
    assert PrepareOps(other) == PrepareOps(txn) && Prepare(y, t, other) == Prepare(y, t, txn) && MessageOf(other) == MessageOf(txn) by {
      PreparedAlike(y, t, txn, other);
    }
    MainNovel(x, beneficiary, s, txn, f);
    MainNovel(y, beneficiary, t, other, g);
    MessageOfTrace(x, Prepare(x, s, txn), txn);
    MessageOfTrace(y, Prepare(y, t, other), other);
    MessageSame(i, codeOf, Side(x, ClearSubstate(s), Begun(f)), Side(y, ClearSubstate(t), Begun(g)), Others(PrepareOps(txn)),
                Prepare(x, s, txn), Prepare(y, t, txn), 0, 0, MessageOf(txn), txn.program, other.program);
  }

  lemma PreparedAlike(env: Env, s: State, txn: Txn, other: Txn)
    requires txn.from.Some? && Checked(txn) && Checked(other) && SameButProgram(txn, other)
    ensures PrepareOps(other) == PrepareOps(txn) && Prepare(env, s, other) == Prepare(env, s, txn) && MessageOf(other) == MessageOf(txn)
  {
    hide Journal.Apply, ApplyAll, WarmOps;
  }

  /** The message of a transaction is novel if the transaction is. */
  lemma MainNovel(env: Env, beneficiary: Address, s: State, txn: Txn, f: Flat)
    requires txn.from.Some? && Checked(txn) && LegalTxn(env, beneficiary, s, txn, f) && FlatTxn(env, beneficiary, s, txn, f).novel
    ensures Novel(env.db, env.keccak, Begun(f), MainSteps(env, s, txn))
  {
    hide LegalHostRun, FlatHostRun, MainSteps, Others, Returned, FlatGone, Without;
    NovelPrefix(env.db, env.keccak, Begun(f), MainSteps(env, s, txn), Others(AwardOps(beneficiary, txn, Returned(env, s, txn))));
  }

  /** A transaction that is novel on both sides agrees on every creation. */
  lemma TransactionAgrees(codeOf: Word -> Bytes, x: Env, y: Env, beneficiary: Address, s: State, t: State, txn: Txn, f: Flat, g: Flat)
    requires txn.from.Some? && Checked(txn) && Sides(codeOf, x, y, s, t, f, g) && Honest(codeOf, x.keccak, txn.program)
    requires LegalTxn(x, beneficiary, s, txn, f) && FlatTxn(x, beneficiary, s, txn, f).novel
    requires LegalTxn(y, beneficiary, t, txn, g) && FlatTxn(y, beneficiary, t, txn, g).novel
    ensures AgreeHostRun(x.db, y.db, x.keccak, Begun(f), Begun(g), [], [], TxnSteps(x, beneficiary, s, txn))
  {
    hide Mirror, Twins, Between, Renumbered, DbOk, Resolved, Honest, LegalHostRun, FlatHostRun, MainSteps, Others, Returned, AgreeHostRun, FlatGone, Without,
      Prepare, ExecuteMessage;
    SidesMirror(codeOf, x, y, s, t, f, g);
    MainMirror(codeOf, x, y, s, t, txn);
    MainNovel(x, beneficiary, s, txn, f);
    MainNovel(y, beneficiary, t, txn, g);
    NovelAgree(x.db, y.db, x.keccak, Begun(f), Begun(g), [], [], MainSteps(x, s, txn));
    ReturnedMirror(codeOf, x, y, s, t, txn, f, g);
    NovelAgree(x.db, y.db, x.keccak, Begun(f), Begun(g), [], [], TxnSteps(x, beneficiary, s, txn));
  }

  /** Nothing in the transactions took up an old incarnation, on one side. */
  ghost predicate NovelTxns(env: Env, block: Block, s: State, used: nat, txns: seq<Txn>, f: Flat)
    requires forall txn <- txns :: Checked(txn)
  {
    FlatTxns(env, block, s, used, txns, f).Some? && FlatTxns(env, block, s, used, txns, f).value.novel
  }

  lemma {:induction false} NovelBefore(env: Env, block: Block, s: State, used: nat, txns: seq<Txn>, f: Flat)
    requires (forall txn <- txns :: Checked(txn)) && NovelTxns(env, block, s, used, txns, f)
    ensures f.novel
    decreases |txns|
  {
    hide Checked, Validate, Looked, ExecuteTransaction, LegalHostRun, FlatHostRun, TxnSteps, FlatGone, Without;
    if txns != [] && Validate(env, block, used, s, txns[0]) == Ok {
      var s1, txn := Looked(env, s, txns[0]), txns[0];
      Admitted(env, block, used, s, txn);
      var t := ExecuteTransaction(env, block.beneficiary, s1, txn);
      NovelBefore(env, block, t.state, used + t.gasUsed, txns[1..], FlatTxn(env, block.beneficiary, s1, txn, f));
      NovelAtFirst(env.db, env.keccak, Begun(f), [], TxnSteps(env, block.beneficiary, s1, txn));
    }
  }

  /** The blocks differ in their transactions only. */
  predicate SameButTxns(b: Block, c: Block)
  {
    c == b.(txns := c.txns)
  }

  /** The transactions of an interpreter are the same on both sides, and agree on every creation. */
  lemma {:induction false} TxnsSame(i: Interpreter, codeOf: Word -> Bytes, x: Env, y: Env, block: Block, block': Block, s: State, t: State, used: nat,
                                    txns: seq<Txn>, others: seq<Txn>, f: Flat, g: Flat)
    requires forall txn <- txns :: Checked(txn) && Honest(codeOf, x.keccak, txn.program)
    requires (forall txn <- others :: Checked(txn)) && SameButTxns(block, block')
    requires SameButPrograms(txns, others)
    requires Sides(codeOf, x, y, s, t, f, g) && AllCommitted(s) && AllCommitted(t)
    requires PlaysTxns(i, x, block, s, used, txns) && PlaysTxns(i, y, block', t, used, others)
    requires NovelTxns(x, block, s, used, txns, f) && NovelTxns(y, block', t, used, others, g)
    ensures txns == others && AgreeTxns(x, y, block, s, t, used, txns, f, g)
    decreases |txns|
  {
    hide Sides, LegalTxn, FlatTxn, ExecuteTransaction, Looked, Checked, Validate, AllCommitted, Honest, AgreeHostRun, TxnSteps, PlaysTxn,
      NovelTxns, SameButPrograms, SameButProgram;
    if txns == [] {
      assert others == [] by { NoneBut(others); }
    } else {
      SameButFirst(txns, others);
      var txn, other := txns[0], others[0];
      ValidateMirror(codeOf, x, y, block, used, s, t, txn, f, g);
      ValidateAlike(y, block, block', used, t, txn, other);
      if Validate(x, block, used, s, txn) == Ok {
        var s1, t1 := Looked(x, s, txn), Looked(y, t, txn);
        Admitted(x, block, used, s, txn);
        LookedSides(codeOf, x, y, s, t, txn, f, g);
        FirstNovel(x, block, s, used, txns, f);
        FirstNovel(y, block', t, used, others, g);
        ProgramSame(i, codeOf, x, y, block.beneficiary, s1, t1, txn, other, f, g);
        TransactionAgrees(codeOf, x, y, block.beneficiary, s1, t1, txn, f, g);
        TransactionMirror(codeOf, x, y, block.beneficiary, s1, t1, txn, f, g);
        var o, q := ExecuteTransaction(x, block.beneficiary, s1, txn), ExecuteTransaction(y, block.beneficiary, t1, txn);
        TxnsSame(i, codeOf, x, y, block, block', o.state, q.state, used + o.gasUsed, txns[1..], others[1..],
                 FlatTxn(x, block.beneficiary, s1, txn, f), FlatTxn(y, block.beneficiary, t1, txn, g));
      } else {
        IdleSame(txns, others);
      }
    }
  }

  lemma NoneBut(others: seq<Txn>)
    requires SameButPrograms([], others)
    ensures others == []
  {
  }

  lemma IdleSame(txns: seq<Txn>, others: seq<Txn>)
    requires SameButPrograms(txns, others)
    requires (forall txn <- txns :: txn.program == IDLE) && (forall txn <- others :: txn.program == IDLE)
    ensures txns == others
  {
    forall j | 0 <= j < |txns| ensures txns[j] == others[j] {
      assert SameButProgram(txns[j], others[j]) && txns[j] in txns && others[j] in others;
    }
  }

  lemma ValidateAlike(env: Env, block: Block, block': Block, used: nat, s: State, txn: Txn, other: Txn)
    requires SameButTxns(block, block') && SameButProgram(txn, other)
    ensures Validate(env, block, used, s, txn) == Validate(env, block', used, s, other) && Looked(env, s, txn) == Looked(env, s, other)
  {
    hide Journal.Apply, BalanceIn, NonceOf;
  }

  /** The first of novel transactions is novel. */
  lemma FirstNovel(env: Env, block: Block, s: State, used: nat, txns: seq<Txn>, f: Flat)
    requires (forall txn <- txns :: Checked(txn)) && NovelTxns(env, block, s, used, txns, f)
    requires txns != [] && Validate(env, block, used, s, txns[0]) == Ok && txns[0].from.Some?
    ensures var s1 := Looked(env, s, txns[0]);
      && LegalTxn(env, block.beneficiary, s1, txns[0], f) && FlatTxn(env, block.beneficiary, s1, txns[0], f).novel
      && var t := ExecuteTransaction(env, block.beneficiary, s1, txns[0]);
         NovelTxns(env, block, t.state, used + t.gasUsed, txns[1..], FlatTxn(env, block.beneficiary, s1, txns[0], f))
  {
    hide Checked, Validate, Looked, ExecuteTransaction, LegalTxn, FlatTxn;
    var s1 := Looked(env, s, txns[0]);
    var t := ExecuteTransaction(env, block.beneficiary, s1, txns[0]);
    NovelBefore(env, block, t.state, used + t.gasUsed, txns[1..], FlatTxn(env, block.beneficiary, s1, txns[0], f));
  }

  // --- the executor ---

  /** What the chain gives the processor for a block; programs are left to the interpreter. */
  datatype Work = Work(rev: Revision, block: Block, fork: Option<Fork>, header: E.Announced)

  datatype Setting = Setting(
    keccak: Bytes -> Word, codeOf: Word -> Bytes, precompile: (Address, Bytes) -> Precompiled, newAddress: (Message, nat) -> Address,
    interpreter: Interpreter, decode: C.Block -> Work)
  {
    function Env(b: C.Block, t: C.Tables, m: C.Memory): (env: Env)
    {
      Evm.Env(Db(t.accounts, m.code, m.incarnations, t.storage), keccak, decode(b).rev, precompile, newAddress)
    }
  }

  function BufferOf(t: C.Tables, m: C.Memory): (b: Buffer)
  {
    Buffer(Db(t.accounts, m.code, m.incarnations, t.storage), map[], map[], 0)
  }

  /** `block` is `b` with the programs that the interpreter runs. */
  ghost predicate IsRun(w: Setting, b: C.Block, t: C.Tables, m: C.Memory, block: Block)
  {
    var work := w.decode(b);
    && SameButTxns(work.block, block) && |block.txns| == |work.block.txns|
    && (forall j | 0 <= j < |block.txns| :: SameButProgram(work.block.txns[j], block.txns[j]))
    && (forall txn <- block.txns :: Checked(txn))
    && PlaysTxns(w.interpreter, w.Env(b, t, m), block, Opening(w.Env(b, t, m), work.fork), 0, block.txns)
  }

  ghost function RunOf(w: Setting, b: C.Block, t: C.Tables, m: C.Memory): (block: Option<Block>)
    ensures block.Some? ==> IsRun(w, b, t, m, block.value)
  {
    if exists block :: IsRun(w, b, t, m, block) then
      var block :| IsRun(w, b, t, m, block);
      Some(block)
    else None
  }

  /** There is at most one such block. */
  lemma RunUnique(w: Setting, b: C.Block, t: C.Tables, m: C.Memory, block: Block, block': Block)
    requires IsRun(w, b, t, m, block) && IsRun(w, b, t, m, block')
    ensures block == block'
  {
    hide PlaysTxns, Opening, Checked;
    RunsAlike(w, b, t, m, t, m, block, block');
    TxnsUnique(w.interpreter, w.Env(b, t, m), block, block', Opening(w.Env(b, t, m), w.decode(b).fork), 0, block.txns, block'.txns);
  }

  lemma {:induction false} TxnsUnique(i: Interpreter, env: Env, block: Block, block': Block, s: State, used: nat, txns: seq<Txn>, others: seq<Txn>)
    requires (forall txn <- txns :: Checked(txn)) && (forall txn <- others :: Checked(txn)) && SameButTxns(block, block')
    requires SameButPrograms(txns, others)
    requires PlaysTxns(i, env, block, s, used, txns) && PlaysTxns(i, env, block', s, used, others)
    ensures txns == others
    decreases |txns|
  {
    hide ExecuteTransaction, Looked, Checked, Validate, PlaysTxn, SameButPrograms, SameButProgram;
    if txns == [] {
      assert others == [] by { NoneBut(others); }
    } else {
      SameButFirst(txns, others);
      var txn, other := txns[0], others[0];
      ValidateAlike(env, block, block', used, s, txn, other);
      if Validate(env, block, used, s, txn) == Ok {
        var s1 := Looked(env, s, txn);
        Admitted(env, block, used, s, txn);
        ProgramUnique(i, env, s1, txn, other);
        var t := ExecuteTransaction(env, block.beneficiary, s1, txn);
        TxnsUnique(i, env, block, block', t.state, used + t.gasUsed, txns[1..], others[1..]);
      } else {
        IdleSame(txns, others);
      }
    }
  }

  lemma ProgramUnique(i: Interpreter, env: Env, s: State, txn: Txn, other: Txn)
    requires txn.from.Some? && Checked(txn) && Checked(other) && SameButProgram(txn, other)
    requires PlaysTxn(i, env, s, txn) && PlaysTxn(i, env, s, other)
    ensures txn == other
  {
    hide Prepare, PlaysMessage;
    PreparedAlike(env, s, txn, other);
    MessageUnique(i, env, Prepare(env, s, txn), 0, MessageOf(txn), txn.program, other.program);
  }

  function Code(v: E.BlockVerdict): (code: nat)
  {
    match v
    case Accepted => 0
    case Invalid(MissingSender) => 1
    case Invalid(WrongNonce) => 2
    case Invalid(InsufficientFunds) => 3
    case Invalid(_) => 4
    case WrongBlockGas => 5
    case WrongReceiptsRoot => 6
    case WrongLogsBloom => 7
  }

  ghost function Ends(w: Setting, b: C.Block, t: C.Tables, m: C.Memory, block: Block): (o: BlockOutcome)
    requires forall txn <- block.txns :: Checked(txn)
  {
    ExecuteBlock(w.Env(b, t, m), block, FRESH_STATE, w.decode(b).fork)
  }

  ghost function Verdict(w: Setting, b: C.Block, t: C.Tables, m: C.Memory, block: Block): (v: E.BlockVerdict)
    requires forall txn <- block.txns :: Checked(txn)
  {
    E.Judge(w.decode(b).rev, w.decode(b).header, Ends(w, b, t, m, block).receipts, Ends(w, b, t, m, block).verdict)
  }

  /** An accepted block is written; any other fails without effect, as does one on which the interpreter never ends. */
  ghost function ExecuteOn(w: Setting, b: C.Block, t: C.Tables, m: C.Memory): (o: C.Outcome)
  {
    match RunOf(w, b, t, m)
    case None => C.Failed(8)
    case Some(block) =>
      if Verdict(w, b, t, m, block) != E.Accepted then C.Failed(Code(Verdict(w, b, t, m, block)))
      else
        var r := E.Written(BufferOf(t, m), Ends(w, b, t, m, block).state, block.number);
        C.Executed(C.TablesOf(r), E.ChangeSet(r, block.number), C.MemoryOf(r))
  }

  /** This is what `execute_block` does with the block of the interpreter. */
  lemma WritingIsExecution(w: Setting, b: C.Block, buffer: Buffer, block: Block, r: Buffer)
    requires IsRun(w, b, C.TablesOf(buffer), C.MemoryOf(buffer), block)
    requires (forall txn <- block.txns :: Checked(txn)) && Verdict(w, b, C.TablesOf(buffer), C.MemoryOf(buffer), block) == E.Accepted
    requires Wrote(buffer, Ends(w, b, C.TablesOf(buffer), C.MemoryOf(buffer), block).state, block.number, r)
    ensures ExecuteOn(w, b, C.TablesOf(buffer), C.MemoryOf(buffer)) ==
            C.Executed(C.TablesOf(r), E.ChangeSet(r, block.number), C.MemoryOf(r))
  {
    hide IsRun, Checked, Ends, Verdict, Wrote;
    var t, m := C.TablesOf(buffer), C.MemoryOf(buffer);
    RunUnique(w, b, t, m, block, RunOf(w, b, t, m).value);
    var s := Ends(w, b, t, m, block).state;
    E.WroteWritten(buffer, s, block.number, r);
    WrittenAnywhere(buffer, s, block.number);
  }

  /** The change sets of other blocks do not matter. */
  lemma WrittenAnywhere(buffer: Buffer, s: State, n: nat)
    ensures var x, y := E.Written(buffer, s, n), E.Written(BufferOf(C.TablesOf(buffer), C.MemoryOf(buffer)), s, n);
      C.TablesOf(x) == C.TablesOf(y) && E.ChangeSet(x, n) == E.ChangeSet(y, n) && C.MemoryOf(x) == C.MemoryOf(y)
  {
    hide E.ChangesOf, E.CodeAfter, E.InitialWords, InitialAccounts, Removed, Overlay;
  }

  /** The execution is quiet: code is genuine and at hand, only contracts write storage, no contract is created
      over storage that cannot be seen, and none takes up the incarnation it began the block with. */
  ghost predicate IsQuiet(w: Setting, b: C.Block, t: C.Tables, m: C.Memory)
  {
    var env, run := w.Env(b, t, m), RunOf(w, b, t, m);
    && DbOk(env.db) && (forall h <- env.db.code :: env.db.code[h] == w.codeOf(h)) && Resolved(w.codeOf, env.db, FRESH_STATE)
    && run.Some? && (forall txn <- run.value.txns :: Honest(w.codeOf, w.keccak, txn.program))
    && var f := FlatExecuted(env, run.value, w.decode(b).fork);
       f.Some? && f.value.anchored && f.value.novel
  }

  ghost function Executes(w: Setting): (exec: C.Executor)
  {
    (b, t, m) => ExecuteOn(w, b, t, m)
  }

  ghost function Quiets(w: Setting): (quiet: C.Quietness)
  {
    (b, t, m) => IsQuiet(w, b, t, m)
  }

  /** The rewards create no contract. */
  lemma {:induction false} OmmersNovel(env: Env, block: Block, f: Flat, ommers: seq<Ommer>)
    ensures FlatOmmers(env, block, f, ommers).novel == f.novel
    decreases |ommers|
  {
    hide Edited, OmmerReward;
    if ommers != [] {
      OmmersNovel(env, block, FlatApply(env.db, env.keccak, f, AddToBalance(ommers[0].beneficiary, OmmerReward(BlockReward(env.rev), block.number, ommers[0]))), ommers[1..]);
    }
  }

  lemma ExecutedNovel(env: Env, block: Block, fork: Option<Fork>)
    requires (forall txn <- block.txns :: Checked(txn)) && FlatExecuted(env, block, fork).Some? && FlatExecuted(env, block, fork).value.novel
    ensures NovelTxns(env, block, Opening(env, fork), 0, block.txns, FlatOpening(env, fork))
  {
    hide Checked, FlatTxns, Opening, FlatOpening, FlatOmmers, Edited, MinerReward;
    OmmersNovel(env, block, FlatTxns(env, block, Opening(env, fork), 0, block.txns, FlatOpening(env, fork)).value, block.ommers);
  }

  /** A quiet execution records what undoes it. */
  lemma QuietExact(w: Setting, b: C.Block, t: C.Tables, m: C.Memory)
    requires IsQuiet(w, b, t, m) && ExecuteOn(w, b, t, m).Executed?
    ensures C.Applied(ExecuteOn(w, b, t, m).tables, ExecuteOn(w, b, t, m).undo) == t
  {
    hide Checked, Honest, Resolved, FlatExecuted, ExecuteBlock, PlaysTxns, Sound, E.Written, E.ChangesOf, C.Applied, E.ChangeSet, Wrote, DbOk, IsRun;
    var env, block, fork := w.Env(b, t, m), RunOf(w, b, t, m).value, w.decode(b).fork;
    RunChecked(w, b, t, m, block);
    var buffer, s := BufferOf(t, m), Ends(w, b, t, m, block).state;
    E.WrittenWrote(buffer, s, block.number);
    ExecutedBlockRefines(env, block, fork);
    E.WrittenApplied(buffer, s, FlatExecuted(env, block, fork).value, block.number, E.Written(buffer, s, block.number));
  }

  lemma RunChecked(w: Setting, b: C.Block, t: C.Tables, m: C.Memory, block: Block)
    requires IsRun(w, b, t, m, block)
    ensures forall txn <- block.txns :: Checked(txn)
  {
  }

  /** On tables that are the same up to incarnation numbers, quiet executions run the same programs. */
  lemma QuietRunSame(w: Setting, b: C.Block, t: C.Tables, m: C.Memory, u: C.Tables, n: C.Memory)
    requires C.Same(t, u) && IsQuiet(w, b, t, m) && IsQuiet(w, b, u, n)
    ensures var x, y, block, fork := w.Env(b, t, m), w.Env(b, u, n), RunOf(w, b, t, m).value, w.decode(b).fork;
      && RunOf(w, b, u, n).value == block && Counterparts(w.codeOf, x, y)
      && (forall txn <- block.txns :: Checked(txn))
      && AgreeTxns(x, y, block, Opening(x, fork), Opening(y, fork), 0, block.txns, FlatOpening(x, fork), FlatOpening(y, fork))
  {
    hide Checked, Honest, Resolved, FlatExecuted, ExecuteBlock, PlaysTxns, C.Same, Sides, Opening, FlatOpening, NovelTxns, AgreeTxns, DbOk, AllCommitted;
    var x, y, fork := w.Env(b, t, m), w.Env(b, u, n), w.decode(b).fork;
    var block, block' := RunOf(w, b, t, m).value, RunOf(w, b, u, n).value;
    assert Counterparts(w.codeOf, x, y);
    OpeningSides(w.codeOf, x, y, fork);
    ExecutedNovel(x, block, fork);
    ExecutedNovel(y, block', fork);
    RunsAlike(w, b, t, m, u, n, block, block');
    TxnsSame(w.interpreter, w.codeOf, x, y, block, block', Opening(x, fork), Opening(y, fork), 0, block.txns, block'.txns,
             FlatOpening(x, fork), FlatOpening(y, fork));
  }

  lemma RunsAlike(w: Setting, b: C.Block, t: C.Tables, m: C.Memory, u: C.Tables, n: C.Memory, block: Block, block': Block)
    requires IsRun(w, b, t, m, block) && IsRun(w, b, u, n, block')
    ensures SameButTxns(block, block') && SameButPrograms(block.txns, block'.txns)
  {
    hide PlaysTxns, Checked;
    forall j | 0 <= j < |block.txns| ensures SameButProgram(block.txns[j], block'.txns[j]) {
      var work := w.decode(b).block;
      assert SameButProgram(work.txns[j], block.txns[j]) && SameButProgram(work.txns[j], block'.txns[j]);
    }
  }

  /** Quiet executions of a block on such tables end alike. */
  lemma QuietRespects(w: Setting, b: C.Block, t: C.Tables, m: C.Memory, u: C.Tables, n: C.Memory)
    requires C.Same(t, u) && IsQuiet(w, b, t, m) && IsQuiet(w, b, u, n)
    ensures C.Alike(ExecuteOn(w, b, t, m), ExecuteOn(w, b, u, n))
  {
    hide Checked, Honest, Resolved, FlatExecuted, ExecuteBlock, C.Same, AgreeTxns, Opening, FlatOpening, Counterparts, E.Written, E.ChangeSet, Wrote,
      Twins, Begun, IsRun, E.Judge;
    QuietRunSame(w, b, t, m, u, n);
    var x, y, block, fork := w.Env(b, t, m), w.Env(b, u, n), RunOf(w, b, t, m).value, w.decode(b).fork;
    BlockMirror(w.codeOf, x, y, block, fork);
    assert Verdict(w, b, t, m, block) == Verdict(w, b, u, n, block);
    if Verdict(w, b, t, m, block) == E.Accepted {
      var buffer, buffer' := BufferOf(t, m), BufferOf(u, n);
      var s, s' := Ends(w, b, t, m, block).state, Ends(w, b, u, n, block).state;
      AcceptedOk(w, b, t, m, block);
      E.WrittenWrote(buffer, s, block.number);
      E.WrittenWrote(buffer', s', block.number);
      WrittenMirror(w.codeOf, x, y, block, fork, buffer, buffer', E.Written(buffer, s, block.number), E.Written(buffer', s', block.number));
    }
  }

  lemma AcceptedOk(w: Setting, b: C.Block, t: C.Tables, m: C.Memory, block: Block)
    requires (forall txn <- block.txns :: Checked(txn)) && Verdict(w, b, t, m, block) == E.Accepted
    ensures Ends(w, b, t, m, block).verdict == Ok
  {
  }

  /** For every interpreter, the executor of the processor meets what the chain asks of quiet executions. */
  lemma ProcessorGentle(w: Setting)
    ensures C.Gentle(Executes(w), Quiets(w))
  {
    hide IsQuiet, ExecuteOn, C.Same, C.Applied, C.Alike;
    var exec, quiet := Executes(w), Quiets(w);
    forall b, t, m | quiet(b, t, m) && exec(b, t, m).Executed?
      ensures C.Applied(exec(b, t, m).tables, exec(b, t, m).Undo()) == t
    {
      QuietExact(w, b, t, m);
    }
    forall b, t, m, u, n | C.Same(t, u) && quiet(b, t, m) && quiet(b, u, n)
      ensures C.Alike(exec(b, t, m), exec(b, u, n))
    {
      QuietRespects(w, b, t, m, u, n);
    }
  }

  /** A chain over the processor whose executions were quiet has, up to incarnation numbers, the state of
      executing its canonical chain in order. */
  lemma ChainOverProcessor(chain: B.Blockchain, w: Setting)
    requires chain.Valid() && chain.calm && chain.exec == Executes(w) && chain.quiet == Quiets(w)
    ensures var blocks := B.CanonicalBlocks(chain.store, chain.canonical);
      C.QuietlyOrdered(chain.exec, chain.quiet, chain.start, blocks) ==>
      var p := C.StateOf(chain.exec, chain.start, blocks); p.Some? && C.Same(p.value.tables, chain.tables)
  {
    hide C.Gentle, C.Reflects, C.QuietlyOrdered, C.Same, B.Rooted, B.Totalled, B.Canonical, B.CanonicalBlocks;
    ProcessorGentle(w);
    var blocks := B.CanonicalBlocks(chain.store, chain.canonical);
    if C.QuietlyOrdered(chain.exec, chain.quiet, chain.start, blocks) {
      C.TipIsOrdered(chain.exec, chain.quiet, chain.start, blocks, chain.run, chain.changes);
    }
  }
}
