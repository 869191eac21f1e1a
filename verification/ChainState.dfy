/** The state that a chain of blocks leads to, up to incarnation numbers: executing blocks records
    change sets (core/silkworm/state/memory_buffer.cpp), and unwinding restores accounts and storage
    but neither `prev_incarnations_` nor the code table. What is proved rests on executions that are quiet. */
module ChainStates {
  import opened Basics
  import opened World
  import opened MemoryBuffers

  type Hash = nat

  datatype Header = Header(number: nat, parentHash: Hash, difficulty: nat, stateRoot: Hash, seal: Bytes)
  datatype Block = Block(header: Header, body: Bytes)

  // --- tables ---

  datatype Tables = Tables(accounts: map<Address, Account>, storage: map<Slot, Word>)
  {
    function Incarnation(a: Address): (n: nat)
    {
      if a in accounts then accounts[a].incarnation else 0
    }

    /** Storage of `a` under its own incarnation. */
    function Read(a: Address, k: Word): (v: Word)
    {
      var slot := Slot(a, Incarnation(a), k);
      if slot in storage then storage[slot] else 0
    }
  }

  /** What execution reads and writes besides the tables, and unwinding leaves alone. */
  datatype Memory = Memory(incarnations: map<Address, nat>, code: map<Word, Bytes>)
  {
    function Last(a: Address): (n: nat)
    {
      if a in incarnations then incarnations[a] else 0
    }
  }

  function TablesOf(b: Buffer): (t: Tables)
  {
    Tables(b.db.accounts, b.db.storage)
  }

  function MemoryOf(b: Buffer): (m: Memory)
  {
    Memory(b.db.prevIncarnations, b.db.code)
  }

  datatype Changes = Changes(accounts: map<Address, Option<Account>>, storage: map<Slot, Option<Word>>)

  function Applied(t: Tables, c: Changes): (r: Tables)
  {
    Tables(Overlay(t.accounts, c.accounts), Overlay(t.storage, c.storage))
  }

  /** The values that `c` is about to overwrite: the change set of the block. */
  function Previous(t: Tables, c: Changes): (r: Changes)
  {
    Changes(map a | a in c.accounts :: Get(t.accounts, a), map slot | slot in c.storage :: Get(t.storage, slot))
  }

  lemma PreviousUndoes(t: Tables, c: Changes)
    ensures Applied(Applied(t, c), Previous(t, c)) == t
  {
    var p := Previous(t, c);
    assert p.accounts.Keys == c.accounts.Keys && p.storage.Keys == c.storage.Keys;
    OverlayUndone(t.accounts, c.accounts, p.accounts);
    OverlayUndone(t.storage, c.storage, p.storage);
  }

  // --- equality up to incarnation numbers ---

  /** An account without its incarnation number, save whether there is one. */
  function Bare(c: Option<Account>): (r: Option<Account>)
  {
    if c.Some? then Some(c.value.(incarnation := if c.value.incarnation == 0 then 0 else 1)) else None
  }

  ghost predicate Same(t: Tables, u: Tables)
  {
    && (forall a :: Bare(Get(t.accounts, a)) == Bare(Get(u.accounts, a)))
    && (forall a, k | a in t.accounts && a in u.accounts :: t.Read(a, k) == u.Read(a, k))
  }

  lemma SameReflexive(t: Tables)
    ensures Same(t, t)
  {
  }

  // --- execution ---

  /** Executing a block fails without effect, or gives new tables, the change set that is recorded for it, and
      what is remembered from then on. */
  datatype Outcome = Failed(code: nat) | Executed(tables: Tables, undo: Changes, memory: Memory)
  {
    function Undo(): (c: Changes)
    {
      if Executed? then undo else Changes(map[], map[])
    }
  }

  type Executor = (Block, Tables, Memory) -> Outcome

  /** Tells of the execution of a block, on tables and with a memory, whether incarnations play no part in it. */
  type Quietness = (Block, Tables, Memory) -> bool

  ghost predicate Alike(x: Outcome, y: Outcome)
  {
    match (x, y)
    case (Failed(i), Failed(j)) => i == j
    case (Executed(t, _, _), Executed(u, _, _)) => Same(t, u)
    case _ => false
  }

  /** A quiet execution records what undoes it. */
  ghost predicate Exact(exec: Executor, quiet: Quietness)
  {
    forall b, t, m | quiet(b, t, m) && exec(b, t, m).Executed? :: Applied(exec(b, t, m).tables, exec(b, t, m).Undo()) == t
  }

  /** Two quiet executions of a block on tables that are the same up to incarnation numbers end the same up to them. */
  ghost predicate Respects(exec: Executor, quiet: Quietness)
  {
    forall b, t, m, u, n | Same(t, u) && quiet(b, t, m) && quiet(b, u, n) :: Alike(exec(b, t, m), exec(b, u, n))
  }

  ghost predicate Gentle(exec: Executor, quiet: Quietness)
  {
    Exact(exec, quiet) && Respects(exec, quiet)
  }

  // --- the run that led to the present tables ---

  /** The tables before and after each block, and the memory with which each was executed. */
  datatype Run = Run(history: seq<Tables>, memories: seq<Memory>)
  {
    function Tip(): (t: Tables)
      requires history != []
    {
      history[|history| - 1]
    }

    function Then(memory: Memory, t: Tables): (r: Run)
    {
      Run(history + [t], memories + [memory])
    }

    function Upto(n: nat): (r: Run)
      requires n < |history| && n <= |memories|
    {
      Run(history[..n + 1], memories[..n])
    }
  }

  /** A quiet execution of `block` took `t` to `u`. */
  ghost predicate Stepped(exec: Executor, quiet: Quietness, block: Block, t: Tables, m: Memory, u: Tables)
  {
    quiet(block, t, m) && exec(block, t, m).Executed? && exec(block, t, m).tables == u
  }

  /** `run` executed `blocks`, one on top of the other. */
  ghost predicate Ran(exec: Executor, quiet: Quietness, origin: Tables, blocks: seq<Block>, run: Run)
  {
    && |run.history| == |blocks| + 1 && |run.memories| == |blocks| && run.history[0] == origin
    && forall h | 0 <= h < |blocks| :: Stepped(exec, quiet, blocks[h], run.history[h], run.memories[h], run.history[h + 1])
  }

  ghost predicate Recorded(exec: Executor, block: Block, t: Tables, m: Memory, number: nat, changes: map<nat, Changes>)
  {
    number in changes && changes[number] == exec(block, t, m).Undo()
  }

  /** `run` executed `blocks`, and the change sets are theirs. */
  ghost predicate Reflects(exec: Executor, quiet: Quietness, origin: Tables, blocks: seq<Block>, run: Run, changes: map<nat, Changes>)
  {
    && Ran(exec, quiet, origin, blocks, run)
    && forall h | 0 <= h < |blocks| :: Recorded(exec, blocks[h], run.history[h], run.memories[h], h + 1, changes)
  }

  lemma RunLength(exec: Executor, quiet: Quietness, origin: Tables, blocks: seq<Block>, run: Run, changes: map<nat, Changes>)
    requires Reflects(exec, quiet, origin, blocks, run, changes)
    ensures |run.history| == |blocks| + 1 && |run.memories| == |blocks| && Ran(exec, quiet, origin, blocks, run)
  {
  }

  lemma ReflectsStart(exec: Executor, quiet: Quietness, origin: Tables)
    ensures Reflects(exec, quiet, origin, [], Run([origin], []), map[])
  {
  }

  /** Undoing the last block gives exactly the tables before it. */
  lemma ReflectsUnwound(exec: Executor, quiet: Quietness, origin: Tables, blocks: seq<Block>, run: Run, changes: map<nat, Changes>)
    requires blocks != [] && Gentle(exec, quiet) && Reflects(exec, quiet, origin, blocks, run, changes)
    ensures var n := |blocks|;
      && |run.history| == n + 1 && |run.memories| == n && n in changes && Applied(run.history[n], changes[n]) == run.history[n - 1]
      && Reflects(exec, quiet, origin, blocks[..n - 1], run.Upto(n - 1), changes)
  {
    hide Applied, Respects;
    var n := |blocks|;
    assert Stepped(exec, quiet, blocks[n - 1], run.history[n - 1], run.memories[n - 1], run.history[n]);
    assert Recorded(exec, blocks[n - 1], run.history[n - 1], run.memories[n - 1], n, changes);
    forall h | 0 <= h < n - 1
      ensures Stepped(exec, quiet, blocks[h], run.history[h], run.memories[h], run.history[h + 1])
      ensures Recorded(exec, blocks[h], run.history[h], run.memories[h], h + 1, changes)
    {
    }
  }

  /** A change set above the executed blocks does not matter. */
  lemma ReflectsAside(exec: Executor, quiet: Quietness, origin: Tables, blocks: seq<Block>, run: Run, changes: map<nat, Changes>,
                      n: nat, c: Changes)
    requires Reflects(exec, quiet, origin, blocks, run, changes) && n > |blocks|
    ensures Reflects(exec, quiet, origin, blocks, run, changes[n := c])
  {
    forall h | 0 <= h < |blocks|
      ensures Recorded(exec, blocks[h], run.history[h], run.memories[h], h + 1, changes[n := c])
    {
      assert Recorded(exec, blocks[h], run.history[h], run.memories[h], h + 1, changes);
    }
  }

  lemma ReflectsExecuted(exec: Executor, quiet: Quietness, origin: Tables, blocks: seq<Block>, run: Run, changes: map<nat, Changes>,
                         block: Block, memory: Memory)
    requires Reflects(exec, quiet, origin, blocks, run, changes)
    requires quiet(block, run.Tip(), memory) && exec(block, run.Tip(), memory).Executed?
    ensures var o := exec(block, run.Tip(), memory);
      Reflects(exec, quiet, origin, blocks + [block], run.Then(memory, o.tables), changes[|blocks| + 1 := o.undo])
  {
    var o, n := exec(block, run.Tip(), memory), |blocks|;
    var longer, next, after := blocks + [block], run.Then(memory, o.tables), changes[n + 1 := o.undo];
    forall h | 0 <= h <= n
      ensures Stepped(exec, quiet, longer[h], next.history[h], next.memories[h], next.history[h + 1])
      ensures Recorded(exec, longer[h], next.history[h], next.memories[h], h + 1, after)
    {
      if h < n {
        assert Stepped(exec, quiet, blocks[h], run.history[h], run.memories[h], run.history[h + 1]);
        assert Recorded(exec, blocks[h], run.history[h], run.memories[h], h + 1, changes);
      }
    }
  }

  /** A block that was executed once executes again, quietly, from tables that are the same up to incarnation numbers. */
  lemma RunsAgain(exec: Executor, quiet: Quietness, origin: Tables, blocks: seq<Block>, run: Run, h: nat, t: Tables, memory: Memory)
    requires Gentle(exec, quiet) && Ran(exec, quiet, origin, blocks, run) && h < |blocks|
    requires Same(t, run.history[h]) && quiet(blocks[h], t, memory)
    ensures exec(blocks[h], t, memory).Executed? && Same(exec(blocks[h], t, memory).tables, run.history[h + 1])
  {
    hide Same, Exact;
    assert Stepped(exec, quiet, blocks[h], run.history[h], run.memories[h], run.history[h + 1]);
    assert Alike(exec(blocks[h], t, memory), exec(blocks[h], run.history[h], run.memories[h]));
  }

  // --- the reference: execution in order from the start ---

  datatype Point = Point(tables: Tables, memory: Memory)

  /** The state after executing `blocks` in order, if all of them succeed. */
  function StateOf(exec: Executor, start: Point, blocks: seq<Block>): (r: Option<Point>)
  {
    if blocks == [] then Some(start)
    else
      match StateOf(exec, start, blocks[..|blocks| - 1])
      case None => None
      case Some(p) =>
        match exec(blocks[|blocks| - 1], p.tables, p.memory)
        case Failed(_) => None
        case Executed(t, _, m) => Some(Point(t, m))
  }

  /** Execution in order is quiet. */
  ghost predicate QuietlyOrdered(exec: Executor, quiet: Quietness, start: Point, blocks: seq<Block>)
  {
    forall h | 0 <= h < |blocks| :: QuietAt(exec, quiet, start, blocks, h)
  }

  ghost predicate QuietAt(exec: Executor, quiet: Quietness, start: Point, blocks: seq<Block>, h: nat)
    requires h < |blocks|
  {
    match StateOf(exec, start, blocks[..h])
    case Some(p) => quiet(blocks[h], p.tables, p.memory)
    case None => true
  }

  /** Whatever was executed, unwound and executed again before: the tables are those of execution in order,
      up to incarnation numbers. */
  lemma {:induction false} RunIsOrdered(exec: Executor, quiet: Quietness, start: Point, blocks: seq<Block>, run: Run, h: nat)
    requires Gentle(exec, quiet) && Ran(exec, quiet, start.tables, blocks, run) && QuietlyOrdered(exec, quiet, start, blocks)
    requires h <= |blocks|
    ensures var p := StateOf(exec, start, blocks[..h]); p.Some? && Same(p.value.tables, run.history[h])
  {
    hide Same, Gentle, Ran;
    assert |run.history| == |blocks| + 1 && |run.memories| == |blocks| && run.history[0] == start.tables by {
      RanLength(exec, quiet, start.tables, blocks, run);
    }
    if h == 0 {
      SameReflexive(start.tables);
    } else {
      assert blocks[..h][..h - 1] == blocks[..h - 1];
      RunIsOrdered(exec, quiet, start, blocks, run, h - 1);
      assert QuietAt(exec, quiet, start, blocks, h - 1);
      var p := StateOf(exec, start, blocks[..h - 1]).value;
      RunsAgain(exec, quiet, start.tables, blocks, run, h - 1, p.tables, p.memory);
    }
  }

  lemma RanLength(exec: Executor, quiet: Quietness, origin: Tables, blocks: seq<Block>, run: Run)
    requires Ran(exec, quiet, origin, blocks, run)
    ensures |run.history| == |blocks| + 1 && |run.memories| == |blocks| && run.history[0] == origin
  {
  }

  lemma TipIsOrdered(exec: Executor, quiet: Quietness, start: Point, blocks: seq<Block>, run: Run, changes: map<nat, Changes>)
    requires Gentle(exec, quiet) && Reflects(exec, quiet, start.tables, blocks, run, changes) && QuietlyOrdered(exec, quiet, start, blocks)
    ensures var p := StateOf(exec, start, blocks); p.Some? && run.history != [] && Same(p.value.tables, run.Tip())
  {
    hide Gentle, Ran, Same, QuietlyOrdered;
    RanLength(exec, quiet, start.tables, blocks, run);
    RunIsOrdered(exec, quiet, start, blocks, run, |blocks|);
    assert blocks[..|blocks|] == blocks;
  }

  lemma UndoneExactly(exec: Executor, quiet: Quietness, block: Block, t: Tables, m: Memory)
    requires Gentle(exec, quiet) && quiet(block, t, m) && exec(block, t, m).Executed?
    ensures Applied(exec(block, t, m).tables, exec(block, t, m).undo) == t
  {
    hide Applied, Respects;
  }
}
