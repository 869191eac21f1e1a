/** Blocks do not depend on incarnation numbers: the same steps on two databases that differ only in these numbers lead
    to databases that differ only in them, as long as both give a new contract the number it began the block with, or neither. */
module Renumbering {
  import opened Basics
  import opened World
  import opened Journal
  import opened FlatState
  import opened MemoryBuffers
  import opened IntraBlock
  import C = ChainStates

  /** Flat maps that agree up to incarnation numbers. */
  ghost predicate Twins(f: Flat, g: Flat)
  {
    && (forall a :: C.Bare(Get(f.accounts, a)) == C.Bare(Get(g.accounts, a)))
    && (forall a, k :: At(f.current, a, k) == At(g.current, a, k))
    && (forall a, k :: At(f.original, a, k) == At(g.original, a, k))
    && f.sub == g.sub
  }

  /** A new contract gets the number with which it began the block on both databases, or on neither. */
  predicate Agree(d: Db, e: Db, f: Flat, g: Flat, op: Op)
  {
    op.MakeContract? ==> (Returns(d, op.a, FlatIncarnation(d, f, op.a)) <==> Returns(e, op.a, FlatIncarnation(e, g, op.a)))
  }

  /** The databases are the same up to incarnation numbers. */
  ghost predicate Renumbered(d: Db, e: Db)
  {
    C.Same(C.Tables(d.accounts, d.storage), C.Tables(e.accounts, e.storage))
  }

  lemma RenumberedRead(d: Db, e: Db, a: Address, k: Word)
    requires Renumbered(d, e) && a in d.accounts && a in e.accounts
    ensures d.ReadStorage(a, d.accounts[a].incarnation, k) == e.ReadStorage(a, e.accounts[a].incarnation, k)
  {
    assert C.Tables(d.accounts, d.storage).Read(a, k) == C.Tables(e.accounts, e.storage).Read(a, k);
  }

  // --- operations ---

  lemma EditBare(x: Account, y: Account, e: Edit)
    requires C.Bare(Some(x)) == C.Bare(Some(y))
    ensures C.Bare(Some(Edited(x, e))) == C.Bare(Some(Edited(y, e)))
  {
  }

  lemma EditTwins(f: Flat, g: Flat, a: Address, e: Edit)
    requires Twins(f, g)
    ensures Twins(FlatEdit(f, a, e), FlatEdit(g, a, e))
  {
    hide Edited;
    assert C.Bare(Get(f.accounts, a)) == C.Bare(Get(g.accounts, a));
    var x := if a in f.accounts then f.accounts[a] else EMPTY_ACCOUNT;
    var y := if a in g.accounts then g.accounts[a] else EMPTY_ACCOUNT;
    EditBare(x, y, e);
    var f', g' := FlatEdit(f, a, e), FlatEdit(g, a, e);
    forall b ensures C.Bare(Get(f'.accounts, b)) == C.Bare(Get(g'.accounts, b)) {
      assert C.Bare(Get(f.accounts, b)) == C.Bare(Get(g.accounts, b));
    }
  }

  lemma CreateTwins(d: Db, e: Db, f: Flat, g: Flat, a: Address)
    requires Renumbered(d, e) && Twins(f, g) && Agree(d, e, f, g, MakeContract(a))
    ensures Twins(FlatCreate(d, f, a), FlatCreate(e, g, a))
  {
    hide FlatIncarnation, Without, Seed, Renumbered;
    var m, n := FlatIncarnation(d, f, a), FlatIncarnation(e, g, a);
    assert m > 0 && n > 0 by { IncarnationPositive(d, f, a); IncarnationPositive(e, g, a); }
    var f', g' := FlatCreate(d, f, a), FlatCreate(e, g, a);
    forall b ensures C.Bare(Get(f'.accounts, b)) == C.Bare(Get(g'.accounts, b)) {
      assert C.Bare(Get(f.accounts, b)) == C.Bare(Get(g.accounts, b));
      assert C.Bare(Get(f.accounts, a)) == C.Bare(Get(g.accounts, a));
    }
    forall b, k
      ensures At(f'.current, b, k) == At(g'.current, b, k) && At(f'.original, b, k) == At(g'.original, b, k)
    {
      CreatedCells(f.current, d, a, m, b, k);
      CreatedCells(g.current, e, a, n, b, k);
      CreatedCells(f.original, d, a, m, b, k);
      CreatedCells(g.original, e, a, n, b, k);
      if Returns(d, a, m) { RenumberedRead(d, e, a, k); }
    }
  }

  lemma ApplyTwins(d: Db, e: Db, keccak: Bytes -> Word, f: Flat, g: Flat, op: Op)
    requires Renumbered(d, e) && Twins(f, g) && Agree(d, e, f, g, op)
    ensures Legal(f, op) <==> Legal(g, op)
    ensures Twins(FlatApply(d, keccak, f, op), FlatApply(e, keccak, g, op))
  {
    hide Twins, FlatEdit, FlatCreate, Returns, FlatIncarnation, At, Renumbered;
    LegalTwins(f, g, op);
    match op
    case SetBalance(a, v) => EditTouchTwins(f, g, a, ToBalance(v));
    case AddToBalance(a, v) => EditTouchTwins(f, g, a, Credit(v));
    case SubtractFromBalance(a, v) => EditTouchTwins(f, g, a, Debit(v));
    case SetNonce(a, n) => EditTwins(f, g, a, ToNonce(n));
    case DeployCode(a, code) => EditTwins(f, g, a, ToCodeHash(keccak(code)));
    case MakeContract(a) => CreateTwins(d, e, f, g, a);
    case WriteStorage(a, k, v) => StoreTwins(f, g, a, k, v);
    case _ => GatherTwins(f, g, FlatApply(d, keccak, f, op).sub);
  }

  lemma LegalTwins(f: Flat, g: Flat, op: Op)
    requires Twins(f, g)
    ensures Legal(f, op) <==> Legal(g, op)
  {
    if op.WriteStorage? {
      assert C.Bare(Get(f.accounts, op.a)) == C.Bare(Get(g.accounts, op.a));
    }
  }

  lemma GatherTwins(f: Flat, g: Flat, sub: Substate)
    requires Twins(f, g)
    ensures f.sub == g.sub && Twins(f.(sub := sub), g.(sub := sub))
  {
  }

  lemma EditTouchTwins(f: Flat, g: Flat, a: Address, e: Edit)
    requires Twins(f, g)
    ensures Twins(FlatTouch(FlatEdit(f, a, e), a), FlatTouch(FlatEdit(g, a, e), a))
  {
    hide Twins, FlatEdit;
    EditTwins(f, g, a, e);
    GatherTwins(FlatEdit(f, a, e), FlatEdit(g, a, e), FlatTouch(FlatEdit(f, a, e), a).sub);
  }

  lemma StoreTwins(f: Flat, g: Flat, a: Address, k: Word, v: Word)
    requires Twins(f, g)
    ensures Twins(f.(current := f.current[Cell(a, k) := v]), g.(current := g.current[Cell(a, k) := v]))
  {
    var f', g' := f.(current := f.current[Cell(a, k) := v]), g.(current := g.current[Cell(a, k) := v]);
    forall b, j ensures At(f'.current, b, j) == At(g'.current, b, j) {
      assert At(f.current, b, j) == At(g.current, b, j);
    }
  }

  // --- runs ---

  ghost predicate AllTwins(x: seq<Flat>, y: seq<Flat>)
  {
    |x| == |y| && forall i | 0 <= i < |x| :: Twins(x[i], y[i])
  }

  /** The two runs of `steps` agree on every creation. */
  ghost predicate AgreeRun(d: Db, e: Db, keccak: Bytes -> Word, f: Flat, g: Flat, x: seq<Flat>, y: seq<Flat>, steps: seq<Step>)
    requires LegalRun(d, keccak, f, x, steps) && LegalRun(e, keccak, g, y, steps)
    decreases |steps|
  {
    steps == [] ||
    ((steps[0].Do? ==> Agree(d, e, f, g, steps[0].op)) &&
     var (f', x') := FlatNext(d, keccak, f, x, steps[0]);
     var (g', y') := FlatNext(e, keccak, g, y, steps[0]);
     AgreeRun(d, e, keccak, f', g', x', y', steps[1..]))
  }

  lemma NextTwins(d: Db, e: Db, keccak: Bytes -> Word, f: Flat, g: Flat, x: seq<Flat>, y: seq<Flat>, step: Step)
    requires Renumbered(d, e) && Twins(f, g) && AllTwins(x, y) && LegalStep(f, x, step) && LegalStep(g, y, step)
    requires step.Do? ==> Agree(d, e, f, g, step.op)
    ensures var (f', x') := FlatNext(d, keccak, f, x, step);
      var (g', y') := FlatNext(e, keccak, g, y, step);
      Twins(f', g') && AllTwins(x', y')
  {
    hide Twins, FlatApply, Agree, Renumbered;
    match step
    case Do(op) => ApplyTwins(d, e, keccak, f, g, op);
    case Take =>
    case RevertTo(i) => RevertTwins(f, g, x[i], y[i]);
  }

  lemma RevertTwins(f: Flat, g: Flat, x: Flat, y: Flat)
    requires Twins(f, g) && Twins(x, y)
    ensures Twins(FlatRevert(f, x), FlatRevert(g, y))
  {
  }

  lemma {:induction false} RunTwins(d: Db, e: Db, keccak: Bytes -> Word, f: Flat, g: Flat, x: seq<Flat>, y: seq<Flat>, steps: seq<Step>)
    requires Renumbered(d, e) && Twins(f, g) && AllTwins(x, y)
    requires LegalRun(d, keccak, f, x, steps) && LegalRun(e, keccak, g, y, steps)
    requires AgreeRun(d, e, keccak, f, g, x, y, steps)
    ensures Twins(FlatRun(d, keccak, f, x, steps), FlatRun(e, keccak, g, y, steps))
    decreases |steps|
  {
    hide Twins, FlatNext, Agree, LegalStep, AllTwins, Renumbered;
    if steps != [] {
      assert (steps[0].RevertTo? ==> steps[0].i < |x| && steps[0].i < |y|) by { Within(f, x, steps[0]); Within(g, y, steps[0]); }
      NextTwins(d, e, keccak, f, g, x, y, steps[0]);
      var (f', x') := FlatNext(d, keccak, f, x, steps[0]);
      var (g', y') := FlatNext(e, keccak, g, y, steps[0]);
      RunTwins(d, e, keccak, f', g', x', y', steps[1..]);
    }
  }

  lemma Within(f: Flat, saved: seq<Flat>, step: Step)
    requires LegalStep(f, saved, step)
    ensures step.RevertTo? ==> step.i < |saved|
  {
  }

  lemma GoneTwins(f: Flat, g: Flat, clearDead: bool)
    requires Twins(f, g)
    ensures FlatGone(f, clearDead) == FlatGone(g, clearDead)
  {
    forall a ensures FlatDead(f, a) == FlatDead(g, a) {
      assert C.Bare(Get(f.accounts, a)) == C.Bare(Get(g.accounts, a));
    }
  }

  lemma EndTwins(f: Flat, g: Flat, clearDead: bool)
    requires Twins(f, g)
    ensures Twins(FlatEnd(f, clearDead), FlatEnd(g, clearDead))
  {
    hide FlatGone, Without;
    GoneTwins(f, g, clearDead);
    var gone := FlatGone(f, clearDead);
    var f', g' := FlatEnd(f, clearDead), FlatEnd(g, clearDead);
    forall a ensures C.Bare(Get(f'.accounts, a)) == C.Bare(Get(g'.accounts, a)) {
      assert C.Bare(Get(f.accounts, a)) == C.Bare(Get(g.accounts, a));
    }
    forall a, k
      ensures At(f'.current, a, k) == At(g'.current, a, k) && At(f'.original, a, k) == At(g'.original, a, k)
    {
      WithoutOthers(f.current, gone, a, k);
      WithoutOthers(g.current, gone, a, k);
    }
  }

  ghost predicate AgreeBlock(d: Db, e: Db, keccak: Bytes -> Word, f: Flat, g: Flat, txns: seq<seq<Step>>, clearDead: bool)
    requires LegalBlock(d, keccak, f, txns, clearDead) && LegalBlock(e, keccak, g, txns, clearDead)
    decreases |txns|
  {
    txns == [] ||
    (AgreeRun(d, e, keccak, f, g, [], [], txns[0]) &&
     AgreeBlock(d, e, keccak, FlatEnd(FlatRun(d, keccak, f, [], txns[0]), clearDead),
                FlatEnd(FlatRun(e, keccak, g, [], txns[0]), clearDead), txns[1..], clearDead))
  }

  lemma {:induction false} BlockTwins(d: Db, e: Db, keccak: Bytes -> Word, f: Flat, g: Flat, txns: seq<seq<Step>>, clearDead: bool)
    requires Renumbered(d, e) && Twins(f, g)
    requires LegalBlock(d, keccak, f, txns, clearDead) && LegalBlock(e, keccak, g, txns, clearDead)
    requires AgreeBlock(d, e, keccak, f, g, txns, clearDead)
    ensures Twins(FlatBlock(d, keccak, f, txns, clearDead), FlatBlock(e, keccak, g, txns, clearDead))
    decreases |txns|
  {
    hide Twins, LegalRun, AgreeRun, FlatRun, FlatEnd, Renumbered;
    if txns != [] {
      RunTwins(d, e, keccak, f, g, [], [], txns[0]);
      var f1, g1 := FlatRun(d, keccak, f, [], txns[0]), FlatRun(e, keccak, g, [], txns[0]);
      EndTwins(f1, g1, clearDead);
      BlockTwins(d, e, keccak, FlatEnd(f1, clearDead), FlatEnd(g1, clearDead), txns[1..], clearDead);
    }
  }

  lemma {:induction false} RewardsTwins(f: Flat, g: Flat, rewards: seq<(Address, Word)>)
    requires Twins(f, g)
    ensures Twins(FlatRewards(f, rewards), FlatRewards(g, rewards))
    decreases |rewards|
  {
    hide Twins, FlatEdit, FlatTouch;
    if rewards != [] {
      var (a, v) := rewards[0];
      EditTouchTwins(f, g, a, Credit(v));
      RewardsTwins(FlatTouch(FlatEdit(f, a, Credit(v)), a), FlatTouch(FlatEdit(g, a, Credit(v)), a), rewards[1..]);
    }
  }

  // --- databases ---

  lemma RenumberedTwins(d: Db, e: Db)
    requires Renumbered(d, e)
    ensures Twins(FlatOf(d), FlatOf(e))
  {
    hide FlatOf;
    var t, u := C.Tables(d.accounts, d.storage), C.Tables(e.accounts, e.storage);
    var f, g := FlatOf(d), FlatOf(e);
    FlatOfAccounts(d);
    FlatOfAccounts(e);
    forall a, k
      ensures C.Bare(Get(f.accounts, a)) == C.Bare(Get(g.accounts, a))
      ensures At(f.current, a, k) == At(g.current, a, k)
    {
      assert C.Bare(Get(t.accounts, a)) == C.Bare(Get(u.accounts, a));
      CellsOf(d, a, k);
      CellsOf(e, a, k);
      if a in t.accounts { RenumberedRead(d, e, a, k); }
    }
  }

  lemma HeldSame(b: Buffer, c: Buffer, f: Flat, g: Flat)
    requires Twins(f, g) && Holds(b.db, f) && Holds(c.db, g)
    ensures C.Same(C.TablesOf(b), C.TablesOf(c))
  {
    var t, u := C.TablesOf(b), C.TablesOf(c);
    forall a ensures C.Bare(Get(t.accounts, a)) == C.Bare(Get(u.accounts, a)) {
      assert b.db.ReadAccount(a) == Get(f.accounts, a) && c.db.ReadAccount(a) == Get(g.accounts, a);
      assert C.Bare(Get(f.accounts, a)) == C.Bare(Get(g.accounts, a));
    }
    forall a, k | a in t.accounts && a in u.accounts
      ensures t.Read(a, k) == u.Read(a, k)
    {
      assert b.db.ReadAccount(a) == Get(f.accounts, a) && c.db.ReadAccount(a) == Get(g.accounts, a);
      assert b.db.ReadStorage(a, f.accounts[a].incarnation, k) == At(f.current, a, k);
      assert c.db.ReadStorage(a, g.accounts[a].incarnation, k) == At(g.current, a, k);
    }
  }

  /** What the transactions of a block may do on one database. */
  ghost predicate Admissible(db: Db, keccak: Bytes -> Word, txns: seq<seq<Step>>, clearDead: bool)
  {
    && DbOk(db) && LegalBlock(db, keccak, FlatOf(db), txns, clearDead)
    && FlatBlock(db, keccak, FlatOf(db), txns, clearDead).anchored
    && forall txn <- txns :: Proper(0, txn)
  }

  /** The same block, executed and written on two databases that are the same up to incarnation numbers, leaves
      two databases that are the same up to incarnation numbers. */
  lemma BlockRespects(b: Buffer, c: Buffer, keccak: Bytes -> Word, txns: seq<seq<Step>>, clearDead: bool,
                      rewards: seq<(Address, Word)>, n: nat, r: Buffer, q: Buffer)
    requires C.Same(C.TablesOf(b), C.TablesOf(c))
    requires Admissible(b.db, keccak, txns, clearDead) && Admissible(c.db, keccak, txns, clearDead)
    requires AgreeBlock(b.db, c.db, keccak, FlatOf(b.db), FlatOf(c.db), txns, clearDead)
    requires Wrote(b, AfterRewards(b.db, AfterBlock(b.db, keccak, FRESH_STATE, txns, clearDead), rewards), n, r)
    requires Wrote(c, AfterRewards(c.db, AfterBlock(c.db, keccak, FRESH_STATE, txns, clearDead), rewards), n, q)
    ensures C.Same(C.TablesOf(r), C.TablesOf(q))
  {
    hide Wrote, LegalBlock, AgreeBlock, FlatBlock, FlatRewards, Holds, DbOk, FlatOf, Proper, Twins, C.Same, AfterBlock, AfterRewards;
    RenumberedTwins(b.db, c.db);
    BlockTwins(b.db, c.db, keccak, FlatOf(b.db), FlatOf(c.db), txns, clearDead);
    var f, g := FlatBlock(b.db, keccak, FlatOf(b.db), txns, clearDead), FlatBlock(c.db, keccak, FlatOf(c.db), txns, clearDead);
    RewardsTwins(f, g, rewards);
    BlockWrittenAndUnwound(b, keccak, txns, clearDead, rewards, n, r);
    BlockWrittenAndUnwound(c, keccak, txns, clearDead, rewards, n, q);
    HeldSame(r, q, FlatRewards(f, rewards), FlatRewards(g, rewards));
  }
}
