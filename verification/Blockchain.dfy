/** Chain reorganisation: core/silkworm/chain/blockchain.cpp over the block tables and the
    change sets of core/silkworm/state/memory_buffer.cpp. */
module Blockchains {
  import opened Basics
  import opened World
  import opened ChainStates

  datatype Id = Id(number: nat, hash: Hash)

  datatype Verdict = Ok | Err(code: nat)
  const UNKNOWN_PARENT: nat := 1
  const WRONG_STATE_ROOT: nat := 2

  // --- the tree of stored blocks ---

  datatype Store = Store(headers: map<Id, Header>, bodies: map<Id, Bytes>, totals: map<Id, nat>)

  function Parent(h: Header): (id: Id)
    requires h.number > 0
  {
    Id(h.number - 1, h.parentHash)
  }

  /** Every stored block has its ancestors stored, down to the one block of number zero. */
  ghost predicate Rooted(s: Store, root: Hash)
  {
    && s.headers.Keys == s.bodies.Keys == s.totals.Keys
    && Id(0, root) in s.headers
    && forall id <- s.headers ::
         && s.headers[id].number == id.number
         && (if id.number == 0 then id.hash == root else Parent(s.headers[id]) in s.headers)
  }

  /** Sum of the difficulties of a block and its ancestors. */
  ghost function TotalDifficulty(s: Store, root: Hash, id: Id): (d: nat)
    requires Rooted(s, root) && id in s.headers
    decreases id.number
  {
    s.headers[id].difficulty + if id.number == 0 then 0 else TotalDifficulty(s, root, Parent(s.headers[id]))
  }

  ghost predicate Totalled(s: Store, root: Hash)
    requires Rooted(s, root)
  {
    forall id <- s.headers :: s.totals[id] == TotalDifficulty(s, root, id)
  }

  function Insert(s: Store, block: Block, hash: Hash): (r: Store)
    requires block.header.number > 0 && Parent(block.header) in s.totals
  {
    var id := Id(block.header.number, hash);
    Store(s.headers[id := block.header], s.bodies[id := block.body],
          s.totals[id := s.totals[Parent(block.header)] + block.header.difficulty])
  }

  /** No other block is stored under the hash of this one. */
  ghost predicate NoClash(s: Store, block: Block, hash: Hash)
  {
    var id := Id(block.header.number, hash);
    id in s.headers && id in s.bodies ==> s.headers[id] == block.header && s.bodies[id] == block.body
  }

  lemma {:induction false} InsertKeepsTotal(s: Store, root: Hash, block: Block, hash: Hash, id: Id)
    requires Rooted(s, root) && block.header.number > 0 && Parent(block.header) in s.headers && NoClash(s, block, hash)
    requires id in s.headers
    ensures Rooted(Insert(s, block, hash), root)
    ensures TotalDifficulty(Insert(s, block, hash), root, id) == TotalDifficulty(s, root, id)
    decreases id.number
  {
    if id.number > 0 {
      InsertKeepsTotal(s, root, block, hash, Parent(s.headers[id]));
    }
  }

  lemma InsertTotalled(s: Store, root: Hash, block: Block, hash: Hash)
    requires Rooted(s, root) && Totalled(s, root)
    requires block.header.number > 0 && Parent(block.header) in s.headers && NoClash(s, block, hash)
    ensures Rooted(Insert(s, block, hash), root) && Totalled(Insert(s, block, hash), root)
  {
    var r := Insert(s, block, hash);
    InsertKeepsTotal(s, root, block, hash, Parent(block.header));
    forall id | id in r.headers
      ensures r.totals[id] == TotalDifficulty(r, root, id)
    {
      if id in s.headers { InsertKeepsTotal(s, root, block, hash, id); }
    }
  }

  // --- the canonical chain ---

  /** Canonical hashes form a parent-linked chain of stored blocks from the genesis. */
  ghost predicate Canonical(s: Store, canonical: seq<Hash>)
  {
    && canonical != []
    && (forall i | 0 <= i < |canonical| :: Id(i, canonical[i]) in s.headers && Id(i, canonical[i]) in s.bodies)
    && (forall i | 0 < i < |canonical| :: s.headers[Id(i, canonical[i])].parentHash == canonical[i - 1])
  }

  function BlockAt(s: Store, id: Id): (b: Block)
    requires id in s.headers && id in s.bodies
  {
    Block(s.headers[id], s.bodies[id])
  }

  /** The canonical blocks after the genesis. */
  ghost function CanonicalBlocks(s: Store, canonical: seq<Hash>): (r: seq<Block>)
    requires Canonical(s, canonical)
  {
    seq(|canonical| - 1, i requires 0 <= i < |canonical| - 1 => BlockAt(s, Id(i + 1, canonical[i + 1])))
  }

  lemma CanonicalBlocksAre(s: Store, root: Hash, canonical: seq<Hash>)
    requires Canonical(s, canonical)
    ensures canonical != [] && |CanonicalBlocks(s, canonical)| == |canonical| - 1
  {
  }

  lemma CanonicalBlockAt(s: Store, root: Hash, canonical: seq<Hash>, n: nat)
    requires Rooted(s, root) && Canonical(s, canonical) && 0 < n < |canonical|
    ensures var id := Id(n, canonical[n]);
      && id in s.headers && id in s.bodies && s.headers[id].number == n
      && n <= |CanonicalBlocks(s, canonical)| && CanonicalBlocks(s, canonical)[n - 1] == BlockAt(s, id)
  {
    hide Rooted;
    RootedNumber(s, root, Id(n, canonical[n]));
  }

  lemma RootedNumber(s: Store, root: Hash, id: Id)
    requires Rooted(s, root) && id in s.headers
    ensures s.headers[id].number == id.number
  {
  }

  predicate IsCanonical(canonical: seq<Hash>, id: Id)
  {
    id.number < |canonical| && canonical[id.number] == id.hash
  }

  /** The ancestor of a stored block with number `n`. */
  ghost function AncestorAt(s: Store, root: Hash, id: Id, n: nat): (r: Id)
    requires Rooted(s, root) && id in s.headers && n <= id.number
    ensures r in s.headers && r.number == n
    decreases id.number
  {
    if id.number == n then id else AncestorAt(s, root, Parent(s.headers[id]), n)
  }

  /** `canonical_ancestor`: the height at which the ancestors of a stored block join the canonical chain;
      its ancestor there is canonical, and no later one is. */
  function CanonicalAncestor(s: Store, root: Hash, canonical: seq<Hash>, id: Id): (n: nat)
    requires Rooted(s, root) && canonical != [] && canonical[0] == root && id in s.headers
    ensures n <= id.number && n < |canonical|
    ensures IsCanonical(canonical, AncestorAt(s, root, id, n))
    ensures forall m | n < m <= id.number :: !IsCanonical(canonical, AncestorAt(s, root, id, m))
    decreases id.number
  {
    if IsCanonical(canonical, id) then id.number
    else CanonicalAncestor(s, root, canonical, Parent(s.headers[id]))
  }

  lemma AncestorStep(s: Store, root: Hash, canonical: seq<Hash>, id: Id)
    requires Rooted(s, root) && canonical != [] && canonical[0] == root && id in s.headers
    ensures id in s.bodies && s.headers[id].number == id.number
    ensures var n := CanonicalAncestor(s, root, canonical, id);
      if n == id.number then IsCanonical(canonical, id)
      else id.number > 0 && Parent(s.headers[id]) in s.headers &&
           CanonicalAncestor(s, root, canonical, Parent(s.headers[id])) == n
  {
  }

  /** The stored blocks above height `n` that lead to `id`, in order. */
  ghost function BranchTo(s: Store, root: Hash, id: Id, n: nat): (chain: seq<Block>)
    requires Rooted(s, root) && id in s.headers
    decreases id.number
  {
    if id.number <= n then [] else BranchTo(s, root, Parent(s.headers[id]), n) + [BlockAt(s, id)]
  }

  /** How the execution of some blocks, one on top of the other, ends. */
  datatype BranchEnd = BranchEnd(verdict: Verdict, executed: nat, tables: Tables, memory: Memory)

  /** A block fails if it does not execute, or if its state root is checked and is not that of the resulting tables;
      then what it changed is undone, and the blocks after it are not executed. */
  function ExecuteAll(exec: Executor, stateRoot: Tables -> Hash, check: bool, t: Tables, m: Memory, chain: seq<Block>): (end: BranchEnd)
    ensures end.executed <= |chain| && (end.verdict.Ok? <==> end.executed == |chain|)
    decreases |chain|
  {
    if chain == [] then BranchEnd(Ok, 0, t, m)
    else
      match exec(chain[0], t, m)
      case Failed(code) => BranchEnd(Err(code), 0, t, m)
      case Executed(u, undo, n) =>
        if check && stateRoot(u) != chain[0].header.stateRoot then BranchEnd(Err(WRONG_STATE_ROOT), 0, Applied(u, undo), n)
        else
          var rest := ExecuteAll(exec, stateRoot, check, u, n, chain[1..]);
          rest.(executed := rest.executed + 1)
  }

  /** Block `i` executes where the blocks before it have led, and has the root of the resulting tables, if roots are checked. */
  ghost predicate FitsAt(exec: Executor, stateRoot: Tables -> Hash, check: bool, start: Point, chain: seq<Block>, i: nat)
    requires i < |chain|
  {
    var p := StateOf(exec, start, chain[..i + 1]);
    p.Some? && (check ==> stateRoot(p.value.tables) == chain[i].header.stateRoot)
  }

  /** A branch is accepted if and only if every block fits. */
  lemma {:induction false} AllExecuted(exec: Executor, stateRoot: Tables -> Hash, check: bool, t: Tables, m: Memory, chain: seq<Block>)
    ensures ExecuteAll(exec, stateRoot, check, t, m, chain).verdict.Ok? <==>
      forall i | 0 <= i < |chain| :: FitsAt(exec, stateRoot, check, Point(t, m), chain, i)
    ensures var end := ExecuteAll(exec, stateRoot, check, t, m, chain);
      end.verdict.Ok? ==> StateOf(exec, Point(t, m), chain) == Some(Point(end.tables, end.memory))
    decreases |chain|
  {
    hide FitsAt, StateOf;
    if chain == [] {
      NothingExecuted(exec, Point(t, m));
    } else {
      var start, x, rest := Point(t, m), exec(chain[0], t, m), chain[1..];
      FitsFirst(exec, stateRoot, check, start, chain);
      if FitsAt(exec, stateRoot, check, start, chain, 0) {
        AllExecuted(exec, stateRoot, check, x.tables, x.memory, rest);
        forall i | 0 <= i < |rest|
          ensures FitsAt(exec, stateRoot, check, start, chain, i + 1) <==> FitsAt(exec, stateRoot, check, Point(x.tables, x.memory), rest, i)
        {
          FitsNext(exec, stateRoot, check, start, chain, i);
        }
        if forall i | 0 <= i < |rest| :: FitsAt(exec, stateRoot, check, Point(x.tables, x.memory), rest, i) {
          forall i | 0 <= i < |chain| ensures FitsAt(exec, stateRoot, check, start, chain, i) {
            if i > 0 { FitsNext(exec, stateRoot, check, start, chain, i - 1); }
          }
        } else {
          var i :| 0 <= i < |rest| && !FitsAt(exec, stateRoot, check, Point(x.tables, x.memory), rest, i);
          FitsNext(exec, stateRoot, check, start, chain, i);
        }
        assert chain == [chain[0]] + rest;
        StateOfFrom(exec, start, chain[0], rest);
      }
    }
  }

  lemma NothingExecuted(exec: Executor, start: Point)
    ensures StateOf(exec, start, []) == Some(start)
  {
  }

  lemma FitsFirst(exec: Executor, stateRoot: Tables -> Hash, check: bool, start: Point, chain: seq<Block>)
    requires chain != []
    ensures var x := exec(chain[0], start.tables, start.memory);
      FitsAt(exec, stateRoot, check, start, chain, 0) <==>
      x.Executed? && (check ==> stateRoot(x.tables) == chain[0].header.stateRoot)
  {
    var one := chain[..0 + 1];
    assert one == [chain[0]] && one[..|one| - 1] == [];
    assert StateOf(exec, start, one[..|one| - 1]) == Some(start);
  }

  lemma FitsNext(exec: Executor, stateRoot: Tables -> Hash, check: bool, start: Point, chain: seq<Block>, i: nat)
    requires i + 1 < |chain| && exec(chain[0], start.tables, start.memory).Executed?
    ensures var x := exec(chain[0], start.tables, start.memory);
      FitsAt(exec, stateRoot, check, start, chain, i + 1) <==> FitsAt(exec, stateRoot, check, Point(x.tables, x.memory), chain[1..], i)
  {
    hide StateOf;
    assert chain[..i + 2] == [chain[0]] + chain[1..][..i + 1];
    StateOfFrom(exec, start, chain[0], chain[1..][..i + 1]);
  }

  lemma {:induction false} StateOfFrom(exec: Executor, start: Point, block: Block, rest: seq<Block>)
    requires exec(block, start.tables, start.memory).Executed?
    ensures var o := exec(block, start.tables, start.memory);
      StateOf(exec, start, [block] + rest) == StateOf(exec, Point(o.tables, o.memory), rest)
    decreases |rest|
  {
    if rest == [] {
      assert [block] + rest == [block] && [block][..0] == [];
    } else {
      StateOfFrom(exec, start, block, rest[..|rest| - 1]);
      assert ([block] + rest)[..|rest|] == [block] + rest[..|rest| - 1];
    }
  }

  lemma {:induction false} ExecuteMore(exec: Executor, stateRoot: Tables -> Hash, check: bool, t: Tables, m: Memory, chain: seq<Block>, k: nat)
    requires k < |chain| && ExecuteAll(exec, stateRoot, check, t, m, chain[..k]).verdict.Ok?
    ensures var done := ExecuteAll(exec, stateRoot, check, t, m, chain[..k]);
      ExecuteAll(exec, stateRoot, check, t, m, chain[..k + 1]) ==
      match exec(chain[k], done.tables, done.memory)
      case Failed(code) => BranchEnd(Err(code), k, done.tables, done.memory)
      case Executed(u, undo, n) =>
        if check && stateRoot(u) != chain[k].header.stateRoot then BranchEnd(Err(WRONG_STATE_ROOT), k, Applied(u, undo), n)
        else BranchEnd(Ok, k + 1, u, n)
    decreases k
  {
    hide Applied;
    if k > 0 {
      var x := exec(chain[0], t, m);
      assert chain[..k][0] == chain[0] && chain[..k + 1][0] == chain[0];
      assert chain[..k][1..] == chain[1..][..k - 1] && chain[..k + 1][1..] == chain[1..][..k];
      ExecuteMore(exec, stateRoot, check, x.tables, x.memory, chain[1..], k - 1);
    } else {
      assert chain[..1][1..] == [];
    }
  }

  /** An error decides for all longer branches. */
  lemma {:induction false} ExecuteStops(exec: Executor, stateRoot: Tables -> Hash, check: bool, t: Tables, m: Memory, chain: seq<Block>, k: nat)
    requires k <= |chain| && ExecuteAll(exec, stateRoot, check, t, m, chain[..k]).verdict.Err?
    ensures ExecuteAll(exec, stateRoot, check, t, m, chain) == ExecuteAll(exec, stateRoot, check, t, m, chain[..k])
    decreases k
  {
    hide Applied;
    if k > 0 {
      var x := exec(chain[0], t, m);
      assert chain[..k][0] == chain[0] && chain[..k][1..] == chain[1..][..k - 1];
      if x.Executed? && !(check && stateRoot(x.tables) != chain[0].header.stateRoot) {
        ExecuteStops(exec, stateRoot, check, x.tables, x.memory, chain[1..], k - 1);
      }
    }
  }

  /** The tables after the change sets of the heights from `tip` down to the one above `ancestor` have been applied. */
  function Unwound(t: Tables, changes: map<nat, Changes>, tip: nat, ancestor: nat): (r: Tables)
    decreases tip
  {
    if tip <= ancestor then t
    else Unwound(if tip in changes then Applied(t, changes[tip]) else t, changes, tip - 1, ancestor)
  }

  ghost predicate NoneHeavier(s: Store, tip: Id)
  {
    tip in s.totals && forall id <- s.totals :: s.totals[id] <= s.totals[tip]
  }

  class Blockchain {
    const exec: Executor
    const stateRoot: Tables -> Hash
    const hash: Header -> Hash
    /** The validation that precedes execution, apart from the search for the parent. */
    const validate: (Block, Store) -> Verdict
    ghost const quiet: Quietness
    ghost const start: Point
    const root: Hash

    var store: Store
    var canonical: seq<Hash>
    var tables: Tables
    var memory: Memory
    var changes: map<nat, Changes>
    var badBlocks: map<Hash, Verdict>
    /** Every execution so far was quiet. */
    ghost var calm: bool
    /** What led to the present tables. */
    ghost var run: Run

    ghost predicate StoreOk()
      reads this
    {
      && Rooted(store, root) && Totalled(store, root)
      && Canonical(store, canonical) && canonical[0] == root
    }

    function Tip(): (id: Id)
      requires canonical != []
      reads this
    {
      Id(|canonical| - 1, canonical[|canonical| - 1])
    }

    ghost predicate Heaviest()
      requires StoreOk()
      reads this
    {
      NoneHeavier(store, Tip())
    }

    ghost predicate Calm()
      reads this
    {
      calm && Gentle(exec, quiet)
    }

    /** As long as executions are quiet, the tables are those that executing `blocks` led to. */
    ghost predicate Holds(blocks: seq<Block>)
      reads this
    {
      Calm() ==> Reflects(exec, quiet, start.tables, blocks, run, changes) && tables == run.Tip()
    }

    /** The canonical chain is the heaviest known, and the state is that of the canonical chain. */
    ghost predicate Valid()
      reads this
    {
      && StoreOk() && Heaviest()
      && Holds(CanonicalBlocks(store, canonical))
      && forall h <- badBlocks :: badBlocks[h].Err?
    }

    constructor (exec: Executor, stateRoot: Tables -> Hash, hash: Header -> Hash,
                 validate: (Block, Store) -> Verdict, start: Point, block: Block, ghost quiet: Quietness)
      requires block.header.number == 0
      ensures Valid() && calm && this.exec == exec && this.quiet == quiet && this.start == start
    {
      var id := Id(0, hash(block.header));
      this.exec, this.stateRoot, this.hash, this.validate, this.start := exec, stateRoot, hash, validate, start;
      this.quiet := quiet;
      root := id.hash;
      store := Store(map[id := block.header], map[id := block.body], map[id := block.header.difficulty]);
      canonical := [id.hash];
      tables, memory, changes, badBlocks := start.tables, start.memory, map[], map[];
      calm, run := true, Run([start.tables], []);
      new;
      hide Gentle, Reflects;
      ReflectsStart(exec, quiet, start.tables);
    }

    /** Undoes the last executed block, exactly; what was remembered stays remembered. */
    method UnwindStateChanges(number: nat, ghost blocks: seq<Block>)
      requires number == |blocks| > 0 && Holds(blocks)
      modifies `tables, `run
      ensures Holds(blocks[..number - 1])
      ensures tables == if number in changes then Applied(old(tables), changes[number]) else old(tables)
      ensures Calm() ==> number < |old(run).history| && number <= |old(run).memories| && run == old(run).Upto(number - 1)
    {
      hide Gentle, Reflects;
      if number in changes {
        tables := Applied(tables, changes[number]);
      }
      if Calm() {
        ReflectsUnwound(exec, quiet, start.tables, blocks, run, changes);
        run := run.Upto(number - 1);
      }
    }

    method UnwindLastChanges(ancestor: nat, tip: nat, ghost blocks: seq<Block>)
      requires ancestor <= tip == |blocks| && Holds(blocks)
      modifies `tables, `run
      ensures Holds(blocks[..ancestor]) && tables == Unwound(old(tables), changes, tip, ancestor)
      ensures Calm() ==> ancestor < |old(run).history| && ancestor <= |old(run).memories| && run == old(run).Upto(ancestor)
    {
      hide Gentle, Reflects;
      var number := tip;
      assert blocks[..number] == blocks;
      if Calm() { RunLength(exec, quiet, start.tables, blocks, run, changes); }
      while number > ancestor
        invariant ancestor <= number <= tip
        invariant Holds(blocks[..number])
        invariant Unwound(old(tables), changes, tip, ancestor) == Unwound(tables, changes, number, ancestor)
        invariant Calm() ==> tip < |old(run).history| && tip <= |old(run).memories| && run == old(run).Upto(number)
      {
        assert blocks[..number][..number - 1] == blocks[..number - 1];
        UnwindStateChanges(number, blocks[..number]);
        number := number - 1;
      }
    }

    /** Executes one block on top of `blocks`; an error leaves the tables as they were. */
    method ExecuteBlock(block: Block, checkStateRoot: bool, ghost blocks: seq<Block>) returns (verdict: Verdict)
      requires block.header.number == |blocks| + 1 && Holds(blocks)
      modifies `tables, `memory, `changes, `calm, `run
      ensures calm == (old(calm) && quiet(block, old(tables), old(memory)))
      ensures verdict.Ok? ==> Holds(blocks + [block])
      ensures verdict.Err? ==> Holds(blocks)
      ensures Calm() ==>
        if verdict.Ok? then run == old(run).Then(old(memory), tables) else run == old(run) && tables == old(tables)
      ensures var o := exec(block, old(tables), old(memory));
        match o
        case Failed(code) => verdict == Err(code) && tables == old(tables) && memory == old(memory)
        case Executed(after, undo, remembered) =>
          && memory == remembered
          && if checkStateRoot ==> stateRoot(after) == block.header.stateRoot then verdict == Ok && tables == after
             else verdict == Err(WRONG_STATE_ROOT) && tables == Applied(after, undo)
    {
      hide Gentle, Reflects;
      calm := calm && quiet(block, tables, memory);
      if Calm() { RunLength(exec, quiet, start.tables, blocks, run, changes); }
      match exec(block, tables, memory)
      case Failed(code) => return Err(code);
      case Executed(after, undo, m) =>
        if Calm() {
          ReflectsExecuted(exec, quiet, start.tables, blocks, run, changes, block, memory);
          ReflectsAside(exec, quiet, start.tables, blocks, run, changes, block.header.number, undo);
        }
        changes := changes[block.header.number := undo];
        ghost var before := memory;
        tables, memory := after, m;
        if checkStateRoot && stateRoot(tables) != block.header.stateRoot {
          if Calm() { UndoneExactly(exec, quiet, block, old(tables), before); }
          tables := Applied(tables, changes[block.header.number]);
          return Err(WRONG_STATE_ROOT);
        }
        run := run.Then(before, tables);
        return Ok;
    }

    /** Executes the canonical blocks above the ancestor again; `was` is the run that executed them before. */
    method ReExecuteCanonicalChain(ancestor: nat, tip: nat, ghost was: Run)
      requires StoreOk() && ancestor <= tip == |canonical| - 1
      requires Holds(CanonicalBlocks(store, canonical)[..ancestor])
      requires Calm() ==>
        && Ran(exec, quiet, start.tables, CanonicalBlocks(store, canonical), was)
        && ancestor < |was.history| && Same(tables, was.history[ancestor])
      modifies `tables, `memory, `changes, `calm, `run
      ensures calm ==> old(calm)
      ensures Holds(CanonicalBlocks(store, canonical))
      ensures Calm() ==> was.history != [] && Same(tables, was.Tip())
    {
      hide Gentle, Reflects, Ran, CanonicalBlocks, Rooted, Totalled, Canonical, Same;
      ghost var blocks := CanonicalBlocks(store, canonical);
      CanonicalBlocksAre(store, root, canonical);
      if Calm() { RanLength(exec, quiet, start.tables, blocks, was); }
      for number := ancestor + 1 to tip + 1
        invariant calm ==> old(calm)
        invariant Holds(blocks[..number - 1])
        invariant Calm() ==> |was.history| == tip + 1 && Same(tables, was.history[number - 1])
      {
        CanonicalBlockAt(store, root, canonical, number);
        var block := BlockAt(store, Id(number, canonical[number]));
        PrefixSnoc(blocks, number - 1);
        ghost var t, m := tables, memory;
        var verdict := ExecuteBlock(block, false, blocks[..number - 1]);
        if Calm() {
          RunsAgain(exec, quiet, start.tables, blocks, was, number - 1, t, m);
          assert verdict.Ok?;
        }
      }
      assert blocks[..tip] == blocks;
    }

    /** The stored blocks between the canonical ancestor and `(number, hash)`, in order. */
    method IntermediateChain(number: nat, hash: Hash, ancestor: nat) returns (chain: seq<Block>, hashes: seq<Hash>)
      requires StoreOk() && Id(number, hash) in store.headers
      requires ancestor == CanonicalAncestor(store, root, canonical, Id(number, hash))
      ensures |chain| == |hashes| == number - ancestor
      ensures chain == BranchTo(store, root, Id(number, hash), ancestor)
      ensures Stacked(store, canonical[ancestor], ancestor, chain, hashes)
      ensures (if hashes == [] then canonical[ancestor] else hashes[|hashes| - 1]) == hash
    {
      hide Stacked, Canonical, Totalled, Rooted, CanonicalAncestor;
      AncestorStep(store, root, canonical, Id(number, hash));
      chain, hashes := [], [];
      StackedNothing(store, hash, number);
      var n, h := number, hash;
      while n > ancestor
        invariant ancestor <= n <= number && Id(n, h) in store.headers && Id(n, h) in store.bodies
        invariant n > ancestor ==> store.headers[Id(n, h)].number == n
        invariant n > ancestor ==> Parent(store.headers[Id(n, h)]) in store.headers
        invariant n > ancestor ==> CanonicalAncestor(store, root, canonical, Parent(store.headers[Id(n, h)])) == ancestor
        invariant n == ancestor ==> canonical[n] == h
        invariant |chain| == |hashes| == number - n
        invariant BranchTo(store, root, Id(number, hash), ancestor) == BranchTo(store, root, Id(n, h), ancestor) + chain
        invariant Stacked(store, h, n, chain, hashes)
        invariant CanonicalAncestor(store, root, canonical, Id(n, h)) == ancestor
        invariant (if hashes == [] then h else hashes[|hashes| - 1]) == hash
      {
        var block := BlockAt(store, Id(n, h));
        BranchStep(store, root, Id(n, h), ancestor, chain);
        StackedBelow(store, n, h, chain, hashes);
        chain, hashes := [block] + chain, [h] + hashes;
        n, h := n - 1, block.header.parentHash;
        AncestorStep(store, root, canonical, Id(n, h));
      }
    }

    /** Executes `chain` on top of the first `ancestor` canonical blocks, up to the first error. */
    method ExecuteChain(chain: seq<Block>, checkStateRoot: bool, ancestor: nat, ghost blocks: seq<Block>)
      returns (verdict: Verdict, executed: nat)
      requires |blocks| == ancestor && Holds(blocks)
      requires forall i | 0 <= i < |chain| :: chain[i].header.number == ancestor + 1 + i
      modifies `tables, `memory, `changes, `calm, `run
      ensures calm ==> old(calm)
      ensures var end := ExecuteAll(exec, stateRoot, checkStateRoot, old(tables), old(memory), chain);
        verdict == end.verdict && executed == end.executed && tables == end.tables && memory == end.memory
      ensures Holds(blocks + chain[..executed])
      ensures Calm() ==> old(run).history <= run.history
    {
      hide Gentle, Reflects;
      verdict, executed := Ok, 0;
      assert blocks + chain[..0] == blocks;
      while executed < |chain|
        invariant executed <= |chain| && verdict == Ok && (calm ==> old(calm))
        invariant ExecuteAll(exec, stateRoot, checkStateRoot, old(tables), old(memory), chain[..executed]) ==
                  BranchEnd(Ok, executed, tables, memory)
        invariant Holds(blocks + chain[..executed])
        invariant Calm() ==> old(run).history <= run.history
      {
        assert blocks + chain[..executed + 1] == (blocks + chain[..executed]) + [chain[executed]];
        ExecuteMore(exec, stateRoot, checkStateRoot, old(tables), old(memory), chain, executed);
        verdict := ExecuteBlock(chain[executed], checkStateRoot, blocks + chain[..executed]);
        if verdict.Err? {
          ExecuteStops(exec, stateRoot, checkStateRoot, old(tables), old(memory), chain, executed + 1);
          return;
        }
        executed := executed + 1;
      }
      assert chain[..executed] == chain;
    }

    /** Back to the canonical chain after executing part of another branch; `was` is the run that the branch left. */
    method Rollback(ancestor: nat, executed: nat, ghost branch: seq<Block>, ghost was: Run)
      requires StoreOk() && ancestor < |canonical| && executed == |branch|
      requires Holds(CanonicalBlocks(store, canonical)[..ancestor] + branch)
      requires Calm() ==> Forked(CanonicalBlocks(store, canonical), was, ancestor)
      modifies `tables, `memory, `changes, `calm, `run
      ensures calm ==> old(calm)
      ensures Holds(CanonicalBlocks(store, canonical))
      ensures Calm() ==> was.history != [] && Same(tables, was.Tip())
    {
      hide Gentle, Reflects, Ran, Same;
      ghost var blocks := CanonicalBlocks(store, canonical)[..ancestor];
      UnwindLastChanges(ancestor, ancestor + executed, blocks + branch);
      assert (blocks + branch)[..ancestor] == blocks;
      if Calm() {
        SameReflexive(tables);
        assert tables == was.history[..ancestor + 1][ancestor];
      }
      ReExecuteCanonicalChain(ancestor, |canonical| - 1, was);
    }

    /** The present run shares the first blocks of `blocks`, up to the ancestor, with the run `was` of all of them. */
    ghost predicate Forked(blocks: seq<Block>, was: Run, ancestor: nat)
      reads this
    {
      && Ran(exec, quiet, start.tables, blocks, was) && ancestor <= |blocks|
      && ancestor < |run.history| && ancestor < |was.history| && run.history[..ancestor + 1] == was.history[..ancestor + 1]
    }

    /** Replaces the canonical hashes above the ancestor. */
    method Canonize(ancestor: nat, hashes: seq<Hash>)
      requires ancestor < |canonical|
      modifies `canonical
      ensures canonical == old(canonical)[..ancestor + 1] + hashes
    {
      var i := |canonical| - 1;
      while i > ancestor
        invariant ancestor <= i < |canonical|
        invariant canonical == old(canonical)[..i + 1]
      {
        canonical := canonical[..i];
        i := i - 1;
      }
      i := 0;
      while i < |hashes|
        invariant i <= |hashes|
        invariant canonical == old(canonical)[..ancestor + 1] + hashes[..i]
      {
        canonical := canonical + [hashes[i]];
        i := i + 1;
      }
    }

    /** How the branch that ends with `block` executes on top of its canonical ancestor, given a state. */
    ghost function BranchExecuted(s: Store, c: seq<Hash>, t: Tables, m: Memory, changes: map<nat, Changes>, block: Block, check: bool): (end: BranchEnd)
      requires Rooted(s, root) && c != [] && c[0] == root && block.header.number > 0 && Parent(block.header) in s.headers
    {
      var ancestor := CanonicalAncestor(s, root, c, Parent(block.header));
      ExecuteAll(exec, stateRoot, check, Unwound(t, changes, |c| - 1, ancestor), m, BranchTo(s, root, Parent(block.header), ancestor) + [block])
    }

    /** Unwinds to the canonical ancestor and executes the branch that ends with `block`;
        after an error the canonical chain is in place again. */
    method ExecuteBranch(block: Block, hash: Hash, checkStateRoot: bool)
      returns (verdict: Verdict, ancestor: nat, chain: seq<Block>, hashes: seq<Hash>)
      requires StoreOk() && Holds(CanonicalBlocks(store, canonical))
      requires block.header.number > 0 && Parent(block.header) in store.headers
      modifies `tables, `memory, `changes, `calm, `run
      ensures calm ==> old(calm)
      ensures ancestor < |canonical| && ancestor == CanonicalAncestor(store, root, canonical, Parent(block.header))
      ensures var end := BranchExecuted(store, canonical, old(tables), old(memory), old(changes), block, checkStateRoot);
        verdict == end.verdict && (verdict.Ok? ==> tables == end.tables && memory == end.memory)
      ensures verdict.Err? ==> Holds(CanonicalBlocks(store, canonical)) && (Calm() ==> Same(tables, old(tables)))
      ensures verdict.Ok? ==>
        && Holds(CanonicalBlocks(store, canonical)[..ancestor] + chain)
        && (Calm() ==> Forked(CanonicalBlocks(store, canonical), old(run), ancestor))
        && Extends(store, canonical[ancestor], ancestor, chain, hashes, block, hash)
    {
      hide Gentle, Reflects, Ran, Rooted, Totalled, Canonical, CanonicalBlocks, Stacked, Same, CanonicalAncestor, Extends,
        BranchTo, Unwound, ExecuteAll;
      CanonicalBlocksAre(store, root, canonical);
      ghost var blocks, was := CanonicalBlocks(store, canonical), run;
      if Calm() { RunLength(exec, quiet, start.tables, blocks, run, changes); }
      var parent := Parent(block.header);
      ancestor := CanonicalAncestor(store, root, canonical, parent);
      UnwindLastChanges(ancestor, |canonical| - 1, blocks);
      ghost var at := run;

      chain, hashes := IntermediateChain(parent.number, parent.hash, ancestor);
      BranchNumbers(store, root, canonical[ancestor], ancestor, chain, hashes);
      ExtendsBranch(store, canonical[ancestor], ancestor, chain, hashes, block, hash);
      chain, hashes := chain + [block], hashes + [hash];
      var executed;
      verdict, executed := ExecuteChain(chain, checkStateRoot, ancestor, blocks[..ancestor]);
      if Calm() {
        PrefixTaken(at.history, run.history);
      }
      if verdict.Err? {
        Rollback(ancestor, executed, chain[..executed], was);
      } else {
        assert chain[..executed] == chain;
      }
    }

    /** Stores the block and makes its branch canonical if it is the heavier one. */
    method Adopt(block: Block, id: Id, ancestor: nat, chain: seq<Block>, hashes: seq<Hash>, ghost was: Run)
      requires StoreOk() && Heaviest() && NoClash(store, block, id.hash) && ancestor < |canonical|
      requires id.number == block.header.number > 0 && Parent(block.header) in store.headers
      requires Calm() ==> Forked(CanonicalBlocks(store, canonical), was, ancestor)
      requires Holds(CanonicalBlocks(store, canonical)[..ancestor] + chain)
      requires Extends(store, canonical[ancestor], ancestor, chain, hashes, block, id.hash)
      modifies `store, `canonical, `tables, `memory, `changes, `calm, `run
      ensures calm ==> old(calm)
      ensures StoreOk() && Heaviest()
      ensures Holds(CanonicalBlocks(store, canonical))
      ensures store == Insert(old(store), block, id.hash)
      ensures old(Tip()) in store.totals && id in store.totals
      ensures if store.totals[id] > store.totals[old(Tip())] then Tip() == id && tables == old(tables) && memory == old(memory)
              else canonical == old(canonical) && (Calm() ==> was.history != [] && Same(tables, was.Tip()))
    {
      hide Gentle, Reflects, Ran, Rooted, Totalled, Canonical, CanonicalBlocks, Extends, NoClash, Insert, NoneHeavier, Same;
      StoredKeys(store, root, canonical);
      EitherChain(store, root, canonical, block, id.hash, ancestor, chain, hashes);
      store := Insert(store, block, id.hash);
      if store.totals[id] > store.totals[Tip()] {
        Canonize(ancestor, hashes);
      } else {
        Rollback(ancestor, |chain|, chain, was);
      }
    }

    /** For every executor: a heavier block becomes the new tip, and any other leaves the canonical chain as it was.
        As long as executions are quiet, it then also leaves the state as it was, up to incarnation numbers. */
    method InsertBlock(block: Block, checkStateRoot: bool) returns (verdict: Verdict)
      requires Valid() && NoClash(store, block, hash(block.header))
      requires !IsCanonical(canonical, Id(block.header.number, hash(block.header)))
      modifies this
      ensures Valid() && (calm ==> old(calm))
      ensures verdict == (
        var h := hash(block.header);
        if block.header.number == 0 || Parent(block.header) !in old(store).headers then Err(UNKNOWN_PARENT)
        else if validate(block, old(store)).Err? then validate(block, old(store))
        else if h in old(badBlocks) then old(badBlocks)[h]
        else old(BranchExecuted(store, canonical, tables, memory, changes, block, checkStateRoot)).verdict)
      ensures badBlocks ==
        if block.header.number == 0 || Parent(block.header) !in old(store).headers || validate(block, old(store)).Err?
           || hash(block.header) in old(badBlocks) || verdict.Ok? then old(badBlocks)
        else old(badBlocks)[hash(block.header) := verdict]
      ensures verdict.Err? ==> canonical == old(canonical) && store == old(store) && (Calm() ==> Same(tables, old(tables)))
      ensures verdict.Ok? ==>
        && block.header.number > 0 && Parent(block.header) in old(store).headers
        && store == Insert(old(store), block, hash(block.header))
      ensures verdict.Ok? ==>
        var id := Id(block.header.number, hash(block.header));
        if store.totals[id] > store.totals[old(Tip())] then
          && Tip() == id
          && var end := old(BranchExecuted(store, canonical, tables, memory, changes, block, checkStateRoot));
             tables == end.tables && memory == end.memory
        else canonical == old(canonical) && (Calm() ==> Same(tables, old(tables)))
    {
      hide Gentle, Reflects, Ran, Rooted, Totalled, Canonical, CanonicalBlocks, Extends, NoClash, Same, BranchExecuted;
      var id := Id(block.header.number, hash(block.header));
      assert store.headers.Keys == store.totals.Keys && Tip() in store.headers by { StoredKeys(store, root, canonical); }
      SameReflexive(tables);
      if block.header.number == 0 || Parent(block.header) !in store.headers {
        return Err(UNKNOWN_PARENT);
      }
      verdict := validate(block, store);
      if verdict.Err? {
        return;
      }
      if id.hash in badBlocks {
        return badBlocks[id.hash];
      }

      ghost var was := run;
      var ancestor, chain, hashes;
      verdict, ancestor, chain, hashes := ExecuteBranch(block, id.hash, checkStateRoot);
      if verdict.Err? {
        badBlocks := badBlocks[id.hash := verdict];
        return;
      }

      Adopt(block, id, ancestor, chain, hashes, was);
    }

    /** Whatever blocks are inserted, in whatever order, the canonical chain is the heaviest known. If all executions were quiet,
        and execution of the canonical chain in order is, the state is that of execution in order, up to incarnation numbers. */
    method InsertAll(blocks: seq<Block>, checkStateRoot: bool) returns (verdicts: seq<Option<Verdict>>)
      requires Valid() && CollisionFree(hash, store, blocks)
      modifies this
      ensures Valid() && (calm ==> old(calm)) && |verdicts| == |blocks|
      ensures Calm() && QuietlyOrdered(exec, quiet, start, CanonicalBlocks(store, canonical)) ==>
        var p := StateOf(exec, start, CanonicalBlocks(store, canonical)); p.Some? && Same(p.value.tables, tables)
    {
      hide Gentle, Reflects, Totalled, Canonical, CanonicalBlocks, Heaviest, Insert, QuietlyOrdered, Same;
      verdicts := [];
      for i := 0 to |blocks|
        invariant Valid() && CollisionFree(hash, store, blocks) && |verdicts| == i && (calm ==> old(calm))
      {
        var block := blocks[i];
        if IsCanonical(canonical, Id(block.header.number, hash(block.header))) {
          verdicts := verdicts + [None];
        } else {
          ghost var before := store;
          var verdict := InsertBlock(block, checkStateRoot);
          if verdict.Ok? {
            InsertCollisionFree(hash, before, blocks, block);
          }
          verdicts := verdicts + [Some(verdict)];
        }
      }
      ghost var now := CanonicalBlocks(store, canonical);
      if Calm() && QuietlyOrdered(exec, quiet, start, now) {
        TipIsOrdered(exec, quiet, start, now, run, changes);
      }
    }
  }

  /** No two of the stored blocks and `blocks` share a hash. */
  ghost predicate CollisionFree(hash: Header -> Hash, s: Store, blocks: seq<Block>)
  {
    && (forall b <- blocks :: NoClash(s, b, hash(b.header)))
    && (forall b, c | b in blocks && c in blocks && hash(b.header) == hash(c.header) :: b == c)
  }

  /** `chain` leads from the canonical block `(number, hash)` over stored blocks to `block`. */
  ghost predicate Extends(s: Store, from: Hash, number: nat, chain: seq<Block>, hashes: seq<Hash>, block: Block, hash: Hash)
  {
    && |chain| == |hashes| > 0
    && chain[|chain| - 1] == block && hashes[|hashes| - 1] == hash
    && block.header.number == number + |chain|
    && Stacked(s, from, number, chain[..|chain| - 1], hashes[..|hashes| - 1])
    && block.header.parentHash == if |chain| == 1 then from else hashes[|hashes| - 2]
  }

  /** A block on top of a branch. */
  lemma ExtendsBranch(s: Store, from: Hash, number: nat, chain: seq<Block>, hashes: seq<Hash>, block: Block, hash: Hash)
    requires Stacked(s, from, number, chain, hashes) && |chain| == |hashes| && block.header.number == number + |chain| + 1
    requires block.header.parentHash == if hashes == [] then from else hashes[|hashes| - 1]
    ensures Extends(s, from, number, chain + [block], hashes + [hash], block, hash)
  {
    hide Stacked;
    assert (chain + [block])[..|chain|] == chain && (hashes + [hash])[..|hashes|] == hashes;
  }

  lemma BranchNumbers(s: Store, root: Hash, from: Hash, number: nat, chain: seq<Block>, hashes: seq<Hash>)
    requires Rooted(s, root) && Stacked(s, from, number, chain, hashes)
    ensures forall i | 0 <= i < |chain| :: chain[i].header.number == number + 1 + i
  {
    forall i | 0 <= i < |chain|
      ensures chain[i].header.number == number + 1 + i
    {
      assert Id(number + 1 + i, hashes[i]) in s.headers;
    }
  }

  lemma BranchStep(s: Store, root: Hash, id: Id, n: nat, chain: seq<Block>)
    requires Rooted(s, root) && id in s.headers && id.number > n
    ensures id in s.bodies && Parent(s.headers[id]) in s.headers
    ensures BranchTo(s, root, id, n) + chain == BranchTo(s, root, Parent(s.headers[id]), n) + ([BlockAt(s, id)] + chain)
  {
    RootedAt(s, root, id);
    BranchNext(s, root, id, n);
    hide Rooted, BranchTo, BlockAt;
    ConcatThree(BranchTo(s, root, Parent(s.headers[id]), n), [BlockAt(s, id)], chain);
  }

  lemma RootedAt(s: Store, root: Hash, id: Id)
    requires Rooted(s, root) && id in s.headers && id.number > 0
    ensures id in s.bodies && Parent(s.headers[id]) in s.headers
  {
  }

  lemma BranchNext(s: Store, root: Hash, id: Id, n: nat)
    requires Rooted(s, root) && id in s.headers && id.number > n
    requires id in s.bodies && Parent(s.headers[id]) in s.headers
    ensures BranchTo(s, root, id, n) == BranchTo(s, root, Parent(s.headers[id]), n) + [BlockAt(s, id)]
  {
    hide Rooted, BlockAt;
  }

  lemma ConcatThree<T>(x: seq<T>, y: seq<T>, z: seq<T>)
    ensures x + y + z == x + (y + z)
  {
  }

  lemma StoredKeys(s: Store, root: Hash, canonical: seq<Hash>)
    requires Rooted(s, root) && Canonical(s, canonical)
    ensures s.headers.Keys == s.totals.Keys
    ensures canonical != [] && Id(|canonical| - 1, canonical[|canonical| - 1]) in s.headers
  {
  }

  lemma InsertKeepsBlock(s: Store, block: Block, hash: Hash, id: Id)
    requires NoClash(s, block, hash) && id in s.headers && id in s.bodies
    requires block.header.number > 0 && Parent(block.header) in s.totals
    ensures var r := Insert(s, block, hash);
      id in r.headers && id in r.bodies && r.headers[id] == s.headers[id] && BlockAt(r, id) == BlockAt(s, id)
  {
  }

  /** Storing a block does not disturb the canonical chain. */
  lemma InsertCanonical(s: Store, root: Hash, canonical: seq<Hash>, block: Block, hash: Hash)
    requires Rooted(s, root) && Canonical(s, canonical) && NoClash(s, block, hash)
    requires block.header.number > 0 && Parent(block.header) in s.headers
    ensures Canonical(Insert(s, block, hash), canonical)
    ensures CanonicalBlocks(Insert(s, block, hash), canonical) == CanonicalBlocks(s, canonical)
  {
    hide Insert, NoClash;
    var r := Insert(s, block, hash);
    forall i | 0 <= i < |canonical|
      ensures Id(i, canonical[i]) in r.headers && Id(i, canonical[i]) in r.bodies
      ensures r.headers[Id(i, canonical[i])] == s.headers[Id(i, canonical[i])]
      ensures BlockAt(r, Id(i, canonical[i])) == BlockAt(s, Id(i, canonical[i]))
    {
      InsertKeepsBlock(s, block, hash, Id(i, canonical[i]));
    }
    SameBlocks(s, r, canonical);
  }

  lemma SameBlocks(s: Store, r: Store, canonical: seq<Hash>)
    requires Canonical(s, canonical) && Canonical(r, canonical)
    requires forall i | 0 <= i < |canonical| :: BlockAt(r, Id(i, canonical[i])) == BlockAt(s, Id(i, canonical[i]))
    ensures CanonicalBlocks(r, canonical) == CanonicalBlocks(s, canonical)
  {
    var x, y := CanonicalBlocks(s, canonical), CanonicalBlocks(r, canonical);
    forall i | 0 <= i < |x|
      ensures x[i] == y[i]
    {
      var j := i + 1;
      assert BlockAt(r, Id(j, canonical[j])) == BlockAt(s, Id(j, canonical[j]));
    }
  }

  /** Storing a block a second time changes nothing. */
  lemma InsertAgain(s: Store, root: Hash, block: Block, hash: Hash)
    requires Rooted(s, root) && Totalled(s, root) && NoClash(s, block, hash)
    requires block.header.number > 0 && Parent(block.header) in s.headers
    requires Id(block.header.number, hash) in s.headers
    ensures Insert(s, block, hash).totals == s.totals
  {
    hide Rooted, Totalled, TotalDifficulty;
    TotalOf(s, root, Id(block.header.number, hash));
    TotalOf(s, root, Parent(block.header));
  }

  lemma TotalOf(s: Store, root: Hash, id: Id)
    requires Rooted(s, root) && Totalled(s, root) && id in s.headers
    ensures id in s.totals && id in s.bodies && s.headers[id].number == id.number
    ensures s.totals[id] == TotalDifficulty(s, root, id)
    ensures id.number > 0 ==> Parent(s.headers[id]) in s.headers
    ensures id.number > 0 ==>
      TotalDifficulty(s, root, id) == s.headers[id].difficulty + TotalDifficulty(s, root, Parent(s.headers[id]))
  {
  }

  /** The heavier of the previous tip and the new block is the heaviest of all. */
  lemma InsertHeaviest(s: Store, root: Hash, tip: Id, block: Block, hash: Hash)
    requires Rooted(s, root) && Totalled(s, root) && NoClash(s, block, hash) && NoneHeavier(s, tip)
    requires block.header.number > 0 && Parent(block.header) in s.headers
    ensures var r, added := Insert(s, block, hash), Id(block.header.number, hash);
      && tip in r.totals && added in r.totals && r.totals[tip] == s.totals[tip]
      && NoneHeavier(r, if r.totals[added] > r.totals[tip] then added else tip)
  {
    hide Totalled;
    if Id(block.header.number, hash) in s.headers {
      InsertAgain(s, root, block, hash);
    }
  }

  /** The hashes of the branch on top of the canonical hashes up to the ancestor form the new canonical chain. */
  lemma CanonizedBranch(s: Store, root: Hash, canonical: seq<Hash>, block: Block, hash: Hash,
                        ancestor: nat, chain: seq<Block>, hashes: seq<Hash>)
    requires Rooted(s, root) && Canonical(s, canonical) && NoClash(s, block, hash)
    requires block.header.number > 0 && Parent(block.header) in s.headers && ancestor < |canonical|
    requires Extends(s, canonical[ancestor], ancestor, chain, hashes, block, hash)
    ensures var r, longer := Insert(s, block, hash), canonical[..ancestor + 1] + hashes;
      && Canonical(r, longer)
      && ancestor <= |CanonicalBlocks(s, canonical)|
      && CanonicalBlocks(r, longer) == CanonicalBlocks(s, canonical)[..ancestor] + chain
      && longer[|longer| - 1] == hash && |longer| - 1 == block.header.number && longer[0] == canonical[0]
  {
    hide Rooted, Insert, NoClash, Extends, Canonical, CanonicalBlocks;
    StoredKeys(s, root, canonical);
    CanonicalBlocksAre(s, root, canonical);
    var r, longer := Insert(s, block, hash), canonical[..ancestor + 1] + hashes;
    ExtendsLast(s, canonical[ancestor], ancestor, chain, hashes, block, hash);
    forall i | 0 <= i < |longer|
      ensures Id(i, longer[i]) in r.headers && Id(i, longer[i]) in r.bodies
      ensures i > 0 ==> r.headers[Id(i, longer[i])].parentHash == longer[i - 1]
      ensures i > ancestor ==> BlockAt(r, Id(i, longer[i])) == chain[i - ancestor - 1]
      ensures 0 < i <= ancestor ==> BlockAt(r, Id(i, longer[i])) == CanonicalBlocks(s, canonical)[i - 1]
    {
      if i <= ancestor {
        assert longer[i] == canonical[i];
        CanonicalAt(s, canonical, i);
        InsertKeepsBlock(s, block, hash, Id(i, canonical[i]));
      } else {
        assert longer[i] == hashes[i - ancestor - 1];
        BranchAt(s, canonical[ancestor], ancestor, chain, hashes, block, hash, i - ancestor - 1);
      }
    }
    CanonicalFrom(r, longer, CanonicalBlocks(s, canonical)[..ancestor] + chain);
  }

  /** After a block is stored, the old canonical chain stands as before, and so would the branch. */
  lemma EitherChain(s: Store, root: Hash, canonical: seq<Hash>, block: Block, hash: Hash,
                    ancestor: nat, chain: seq<Block>, hashes: seq<Hash>)
    requires Rooted(s, root) && Totalled(s, root) && Canonical(s, canonical) && NoClash(s, block, hash)
    requires NoneHeavier(s, Id(|canonical| - 1, canonical[|canonical| - 1]))
    requires block.header.number > 0 && Parent(block.header) in s.headers && ancestor < |canonical|
    requires Extends(s, canonical[ancestor], ancestor, chain, hashes, block, hash)
    ensures Parent(block.header) in s.totals
    ensures var r, longer := Insert(s, block, hash), canonical[..ancestor + 1] + hashes;
      var tip, added := Id(|canonical| - 1, canonical[|canonical| - 1]), Id(block.header.number, hash);
      && Rooted(r, root) && Totalled(r, root)
      && Canonical(r, canonical) && CanonicalBlocks(r, canonical) == CanonicalBlocks(s, canonical)
      && tip in r.totals && added in r.totals
      && NoneHeavier(r, if r.totals[added] > r.totals[tip] then added else tip)
      && Canonical(r, longer) && ancestor <= |CanonicalBlocks(s, canonical)|
      && CanonicalBlocks(r, longer) == CanonicalBlocks(s, canonical)[..ancestor] + chain
      && Id(|longer| - 1, longer[|longer| - 1]) == added && longer[0] == canonical[0]
  {
    hide Rooted, Totalled, Canonical, CanonicalBlocks, Extends, NoClash, Insert, NoneHeavier;
    StoredKeys(s, root, canonical);
    InsertTotalled(s, root, block, hash);
    InsertCanonical(s, root, canonical, block, hash);
    InsertHeaviest(s, root, Id(|canonical| - 1, canonical[|canonical| - 1]), block, hash);
    CanonizedBranch(s, root, canonical, block, hash, ancestor, chain, hashes);
  }

  lemma ExtendsLast(s: Store, from: Hash, number: nat, chain: seq<Block>, hashes: seq<Hash>, block: Block, hash: Hash)
    requires Extends(s, from, number, chain, hashes, block, hash)
    ensures |chain| == |hashes| > 0 && hashes[|hashes| - 1] == hash && block.header.number == number + |chain|
  {
  }

  lemma CanonicalAt(s: Store, canonical: seq<Hash>, i: nat)
    requires Canonical(s, canonical) && i < |canonical|
    ensures |CanonicalBlocks(s, canonical)| == |canonical| - 1
    ensures Id(i, canonical[i]) in s.headers && Id(i, canonical[i]) in s.bodies
    ensures i > 0 ==> s.headers[Id(i, canonical[i])].parentHash == canonical[i - 1]
    ensures i > 0 ==> CanonicalBlocks(s, canonical)[i - 1] == BlockAt(s, Id(i, canonical[i]))
  {
  }

  lemma BranchAt(s: Store, from: Hash, number: nat, chain: seq<Block>, hashes: seq<Hash>, block: Block, hash: Hash, k: nat)
    requires Extends(s, from, number, chain, hashes, block, hash) && NoClash(s, block, hash) && k < |chain|
    requires block.header.number > 0 && Parent(block.header) in s.totals
    ensures var r, id := Insert(s, block, hash), Id(number + 1 + k, hashes[k]);
      && id in r.headers && id in r.bodies && BlockAt(r, id) == chain[k]
      && r.headers[id].parentHash == if k == 0 then from else hashes[k - 1]
  {
    if k < |chain| - 1 {
      var id := Id(number + 1 + k, hashes[k]);
      assert chain[k] == chain[..|chain| - 1][k] && hashes[k] == hashes[..|hashes| - 1][k];
      assert k > 0 ==> hashes[k - 1] == hashes[..|hashes| - 1][k - 1];
      InsertKeepsBlock(s, block, hash, id);
    }
  }

  lemma CanonicalFrom(s: Store, canonical: seq<Hash>, blocks: seq<Block>)
    requires |blocks| + 1 == |canonical|
    requires forall i | 0 <= i < |canonical| :: Id(i, canonical[i]) in s.headers && Id(i, canonical[i]) in s.bodies
    requires forall i | 0 < i < |canonical| :: s.headers[Id(i, canonical[i])].parentHash == canonical[i - 1]
    requires forall i | 0 < i < |canonical| :: BlockAt(s, Id(i, canonical[i])) == blocks[i - 1]
    ensures Canonical(s, canonical) && CanonicalBlocks(s, canonical) == blocks
  {
    var x := CanonicalBlocks(s, canonical);
    forall i | 0 <= i < |x|
      ensures x[i] == blocks[i]
    {
      var j := i + 1;
      assert BlockAt(s, Id(j, canonical[j])) == blocks[j - 1];
    }
  }

  lemma InsertCollisionFree(hash: Header -> Hash, s: Store, blocks: seq<Block>, block: Block)
    requires CollisionFree(hash, s, blocks) && block in blocks
    requires block.header.number > 0 && Parent(block.header) in s.totals
    ensures CollisionFree(hash, Insert(s, block, hash(block.header)), blocks)
  {
    var r := Insert(s, block, hash(block.header));
    forall b | b in blocks
      ensures NoClash(r, b, hash(b.header))
    {
      assert NoClash(s, b, hash(b.header));
    }
  }

  /** Stored blocks, one on top of the other, starting above block `(number, hash)`. */
  ghost predicate Stacked(s: Store, hash: Hash, number: nat, chain: seq<Block>, hashes: seq<Hash>)
  {
    && |chain| == |hashes|
    && (forall i | 0 <= i < |chain| ::
          (var id := Id(number + 1 + i, hashes[i]); id in s.headers && id in s.bodies && chain[i] == BlockAt(s, id)))
    && (forall i | 0 <= i < |chain| :: chain[i].header.parentHash == if i == 0 then hash else hashes[i - 1])
  }

  lemma StackedNothing(s: Store, hash: Hash, number: nat)
    ensures Stacked(s, hash, number, [], [])
  {
  }

  lemma StackedBelow(s: Store, n: nat, h: Hash, chain: seq<Block>, hashes: seq<Hash>)
    requires n > 0 && Id(n, h) in s.headers && Id(n, h) in s.bodies && Stacked(s, h, n, chain, hashes)
    ensures var block := BlockAt(s, Id(n, h));
      Stacked(s, block.header.parentHash, n - 1, [block] + chain, [h] + hashes)
  {
    var block := BlockAt(s, Id(n, h));
    var longer, more := [block] + chain, [h] + hashes;
    forall i | 0 <= i < |longer|
      ensures var id := Id(n + i, more[i]); id in s.headers && id in s.bodies && longer[i] == BlockAt(s, id)
      ensures longer[i].header.parentHash == if i == 0 then block.header.parentHash else more[i - 1]
    {
      if i > 0 {
        assert longer[i] == chain[i - 1] && more[i] == hashes[i - 1];
      }
    }
  }
}
