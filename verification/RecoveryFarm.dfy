/** Sender recovery by concurrent workers: `RecoveryWorker` and `RecoveryFarm` of
    cmd/check_senders.cpp, as interleaved steps of the farm and of its workers. */
module RecoveryFarm {
  import opened Basics
  import opened World

  const ADDRESS_LENGTH: nat := 20

  /** One transaction, with the address that its signature yields, if any. */
  datatype Package = Package(block: nat, sender: Option<Bytes20>)

  datatype BlockResult = BlockResult(block: nat, senders: Bytes)

  predicate Recovered(batch: seq<Package>)
  {
    forall i | 0 <= i < |batch| :: batch[i].sender.Some?
  }

  // --- grouping by block ---

  /** One more address for the last block, or the first of a new one. */
  function Append(results: seq<BlockResult>, block: nat, sender: Bytes): (r: seq<BlockResult>)
  {
    var n := |results|;
    if n > 0 && results[n - 1].block == block then
      results[..n - 1] + [BlockResult(block, results[n - 1].senders + sender)]
    else results + [BlockResult(block, sender)]
  }

  function Group(results: seq<BlockResult>, batch: seq<Package>): (r: seq<BlockResult>)
    requires Recovered(batch)
  {
    if batch == [] then results
    else
      var n := |batch| - 1;
      Append(Group(results, batch[..n]), batch[n].block, batch[n].sender.value)
  }

  datatype Status = Idle | Working | ResultsReady | Error | Aborted

  /** What a worker may end a batch with. */
  predicate Outcome(batch: seq<Package>, stopped: bool, status: Status, results: seq<BlockResult>)
  {
    match status
    case ResultsReady => Recovered(batch) && results == Group([], batch)
    case Error => !Recovered(batch)
    case Aborted => stopped
    case _ => false
  }

  /** The results so far, if the block in progress were complete. */
  function Open(results: seq<BlockResult>, block: nat, senders: Bytes): (r: seq<BlockResult>)
  {
    if senders == [] then results else results + [BlockResult(block, senders)]
  }

  /** `RecoveryWorker::work` for one batch; `stops` are the answers of `should_stop`. */
  method Work(batch: seq<Package>, stops: seq<bool>) returns (status: Status, results: seq<BlockResult>)
    requires batch != [] && |stops| == |batch|
    ensures Outcome(batch, true in stops, status, results)
  {
    hide Append;
    var block := batch[0].block;
    var data: Bytes := [];
    var offset: nat, length: nat := 0, 0;
    results := [];
    for i := 0 to |batch|
      invariant Recovered(batch[..i])
      invariant |data| == offset + length && (length == 0 <==> i == 0)
      invariant i > 0 ==> block == batch[i - 1].block
      invariant i == 0 ==> results == [] && block == batch[0].block
      invariant Open(results, block, data[offset..]) == Group([], batch[..i])
      invariant results != [] ==> results[|results| - 1].block != block || length == 0
    {
      var package := batch[i];
      assert batch[..i + 1][..i] == batch[..i];
      if block != package.block {
        results := results + [BlockResult(block, data[offset..])];
        offset, length := offset + length, 0;
        block := package.block;
        if stops[i] {
          return Aborted, results;
        }
      }
      if package.sender.None? {
        assert !Recovered(batch);
        return Error, results;
      }
      AppendOpen(results, block, data[offset..], package.sender.value);
      assert data[offset..] + package.sender.value == (data + package.sender.value)[offset..];
      data := data + package.sender.value;
      length := length + ADDRESS_LENGTH;
    }
    assert batch[..|batch|] == batch;
    if length != 0 {
      results := results + [BlockResult(block, data[offset..offset + length])];
      assert data[offset..offset + length] == data[offset..];
    }
    status := ResultsReady;
  }

  lemma AppendOpen(results: seq<BlockResult>, block: nat, senders: Bytes, sender: Bytes20)
    requires senders != [] || results == [] || results[|results| - 1].block != block
    ensures Append(Open(results, block, senders), block, sender) == Open(results, block, senders + sender)
  {
    if senders == [] {
      assert [] + sender == sender;
    }
  }

  // --- blocks ---

  datatype Block = Block(number: nat, senders: seq<Option<Bytes20>>)

  function Packages(b: Block): (r: seq<Package>)
    ensures |r| == |b.senders| && forall i | 0 <= i < |r| :: r[i] == Package(b.number, b.senders[i])
  {
    seq(|b.senders|, i requires 0 <= i < |b.senders| => Package(b.number, b.senders[i]))
  }

  function AllPackages(blocks: seq<Block>): (r: seq<Package>)
  {
    if blocks == [] then [] else AllPackages(blocks[..|blocks| - 1]) + Packages(blocks[|blocks| - 1])
  }

  /** Blocks come by increasing number. */
  ghost predicate Ordered(blocks: seq<Block>)
  {
    forall i, j | 0 <= i < j < |blocks| :: blocks[i].number < blocks[j].number
  }

  function Joined(senders: seq<Option<Bytes20>>): (r: Bytes)
    requires forall i | 0 <= i < |senders| :: senders[i].Some?
    ensures |r| == ADDRESS_LENGTH * |senders|
  {
    if senders == [] then [] else Joined(senders[..|senders| - 1]) + senders[|senders| - 1].value
  }

  predicate BlockRecovered(b: Block)
  {
    forall i | 0 <= i < |b.senders| :: b.senders[i].Some?
  }

  /** What should be stored: for each block with transactions, their senders in order. */
  function Expected(blocks: seq<Block>): (r: seq<BlockResult>)
    requires forall i | 0 <= i < |blocks| :: BlockRecovered(blocks[i])
  {
    if blocks == [] then []
    else
      var n := |blocks| - 1;
      assert BlockRecovered(blocks[n]);
      Expected(blocks[..n]) + if blocks[n].senders == [] then [] else [BlockResult(blocks[n].number, Joined(blocks[n].senders))]
  }

  lemma {:induction false} GroupConcat(results: seq<BlockResult>, x: seq<Package>, y: seq<Package>)
    requires Recovered(x + y)
    ensures Recovered(x) && Recovered(y)
    ensures Group(results, x + y) == Group(Group(results, x), y)
    decreases |y|
  {
    forall i | 0 <= i < |x| ensures x[i].sender.Some? { assert (x + y)[i] == x[i]; }
    forall i | 0 <= i < |y| ensures y[i].sender.Some? { assert (x + y)[|x| + i] == y[i]; }
    if y == [] {
      assert x + y == x;
    } else {
      var n := |y| - 1;
      assert (x + y)[..|x| + n] == x + y[..n];
      GroupConcat(results, x, y[..n]);
    }
  }

  /** All packages of one block end up in one result. */
  lemma {:induction false} GroupBlock(results: seq<BlockResult>, b: Block, n: nat)
    requires BlockRecovered(b) && n <= |b.senders|
    requires results == [] || results[|results| - 1].block != b.number
    ensures Recovered(Packages(b)[..n])
    ensures Group(results, Packages(b)[..n]) ==
            results + if n == 0 then [] else [BlockResult(b.number, Joined(b.senders[..n]))]
  {
    hide Packages, Append, Joined;
    if n == 0 {
      assert results + [] == results;
    } else {
      var batch := Packages(b)[..n];
      assert batch[..n - 1] == Packages(b)[..n - 1] && batch[n - 1] == Package(b.number, b.senders[n - 1]);
      GroupBlock(results, b, n - 1);
      JoinedNext(b.senders, n);
      AppendNext(results, b.number, if n == 1 then [] else Joined(b.senders[..n - 1]), b.senders[n - 1].value, n == 1);
      assert n == 1 ==> results + [] == results;
    }
  }

  lemma JoinedNext(senders: seq<Option<Bytes20>>, n: nat)
    requires 0 < n <= |senders| && forall i | 0 <= i < |senders| :: senders[i].Some?
    ensures Joined(senders[..n]) == (if n == 1 then [] else Joined(senders[..n - 1])) + senders[n - 1].value
  {
    assert senders[..n][..n - 1] == senders[..n - 1] && senders[..n][n - 1] == senders[n - 1];
    assert senders[..0] == [];
  }

  lemma AppendNext(results: seq<BlockResult>, block: nat, senders: Bytes, sender: Bytes, first: bool)
    requires results == [] || results[|results| - 1].block != block
    requires first ==> senders == []
    ensures Append(results + (if first then [] else [BlockResult(block, senders)]), block, sender) ==
            results + [BlockResult(block, senders + sender)]
  {
    if first {
      assert results + [] == results && [] + sender == sender;
    } else {
      var r := results + [BlockResult(block, senders)];
      assert r[..|r| - 1] == results;
    }
  }

  lemma {:induction false} ExpectedNumbers(blocks: seq<Block>, bound: nat)
    requires forall i | 0 <= i < |blocks| :: BlockRecovered(blocks[i]) && blocks[i].number < bound
    ensures forall i | 0 <= i < |Expected(blocks)| :: Expected(blocks)[i].block < bound
  {
    if blocks != [] {
      assert BlockRecovered(blocks[|blocks| - 1]);
      ExpectedNumbers(blocks[..|blocks| - 1], bound);
    }
  }

  lemma PackagesOf(b: Block)
    ensures Recovered(Packages(b)) <==> BlockRecovered(b)
  {
    hide Packages;
    if Recovered(Packages(b)) {
      forall i | 0 <= i < |b.senders| ensures b.senders[i].Some? { assert Packages(b)[i].sender.Some?; }
    }
  }

  lemma RecoveredParts(x: seq<Package>, y: seq<Package>)
    ensures Recovered(x + y) <==> Recovered(x) && Recovered(y)
  {
    if Recovered(x + y) {
      forall i | 0 <= i < |x| ensures x[i].sender.Some? { assert (x + y)[i] == x[i]; }
      forall i | 0 <= i < |y| ensures y[i].sender.Some? { assert (x + y)[|x| + i] == y[i]; }
    }
  }

  ghost predicate AllRecovered(blocks: seq<Block>)
  {
    forall i | 0 <= i < |blocks| :: BlockRecovered(blocks[i])
  }

  lemma AllRecoveredLast(blocks: seq<Block>)
    requires blocks != []
    ensures AllRecovered(blocks) <==> AllRecovered(blocks[..|blocks| - 1]) && BlockRecovered(blocks[|blocks| - 1])
  {
    hide BlockRecovered;
    var front := blocks[..|blocks| - 1];
    if AllRecovered(blocks) {
      forall i | 0 <= i < |front| ensures BlockRecovered(front[i]) { assert front[i] == blocks[i]; }
    }
    if AllRecovered(front) && BlockRecovered(blocks[|blocks| - 1]) {
      forall i | 0 <= i < |blocks| ensures BlockRecovered(blocks[i]) {
        if i < |front| { assert front[i] == blocks[i]; }
      }
    }
  }

  lemma {:induction false} PackagesRecovered(blocks: seq<Block>)
    ensures Recovered(AllPackages(blocks)) <==> AllRecovered(blocks)
  {
    hide Recovered, AllRecovered, BlockRecovered, Packages;
    if blocks == [] {
      NothingRecovered();
    } else {
      var n := |blocks| - 1;
      PackagesRecovered(blocks[..n]);
      RecoveredParts(AllPackages(blocks[..n]), Packages(blocks[n]));
      PackagesOf(blocks[n]);
      AllRecoveredLast(blocks);
    }
  }

  lemma NothingRecovered()
    ensures Recovered([]) && AllRecovered([])
  {
  }

  /** Grouping the packages of whole blocks gives exactly one result for each block with transactions. */
  lemma {:induction false} GroupBlocks(blocks: seq<Block>)
    requires Ordered(blocks) && Recovered(AllPackages(blocks))
    ensures forall i | 0 <= i < |blocks| :: BlockRecovered(blocks[i])
    ensures Group([], AllPackages(blocks)) == Expected(blocks)
  {
    PackagesRecovered(blocks);
    if blocks != [] {
      var n := |blocks| - 1;
      GroupConcat([], AllPackages(blocks[..n]), Packages(blocks[n]));
      GroupBlocks(blocks[..n]);
      ExpectedNumbers(blocks[..n], blocks[n].number);
      var b := blocks[n];
      GroupBlock(Expected(blocks[..n]), b, |b.senders|);
      assert Packages(b)[..|b.senders|] == Packages(b) && b.senders[..|b.senders|] == b.senders;
    }
  }

  /** How a worker ends a batch of whole blocks: with the senders of all their transactions in order, with an error
      only if some signature yields no address, or aborted only if it was told to stop. */
  lemma BatchOutcome(blocks: seq<Block>, stopped: bool, status: Status, results: seq<BlockResult>)
    requires Ordered(blocks) && Outcome(AllPackages(blocks), stopped, status, results)
    ensures status == ResultsReady ==> (forall i | 0 <= i < |blocks| :: BlockRecovered(blocks[i])) && results == Expected(blocks)
    ensures status == Error ==> exists i, j :: 0 <= i < |blocks| && 0 <= j < |blocks[i].senders| && blocks[i].senders[j].None?
    ensures status == Aborted ==> stopped
    ensures status == ResultsReady || status == Error || status == Aborted
  {
    PackagesRecovered(blocks);
    if status == ResultsReady { GroupBlocks(blocks); }
  }

  lemma {:induction false} ExpectedConcat(x: seq<Block>, y: seq<Block>)
    requires forall i | 0 <= i < |x| :: BlockRecovered(x[i])
    requires forall i | 0 <= i < |y| :: BlockRecovered(y[i])
    ensures forall i | 0 <= i < |x + y| :: BlockRecovered((x + y)[i])
    ensures Expected(x + y) == Expected(x) + Expected(y)
    decreases |y|
  {
    hide Joined, BlockRecovered;
    if y == [] {
      assert x + y == x;
    } else {
      var n := |y| - 1;
      assert (x + y)[..|x| + n] == x + y[..n] && (x + y)[|x| + n] == y[n];
      ExpectedConcat(x, y[..n]);
    }
  }

  // --- the protocol ---

  /** `announced` tells whether the completion handler has run for the batch at hand. */
  datatype Worker = Worker(status: Status, batchId: nat, batch: seq<Package>, results: seq<BlockResult>, announced: bool)

  const NEW_WORKER := Worker(Idle, 0, [], [], true)

  /** A worker and the batch that it has completed. */
  datatype Item = Item(worker: nat, batchId: nat)

  /** The shared state; `cuts` records how many blocks had been read when each batch was dispatched. */
  datatype Farm = Farm(
    read: nat, batch: seq<Package>, batchId: nat, cuts: seq<nat>,
    workers: seq<Worker>, queue: seq<Item>, completed: nat, popped: Option<Item>,
    pulled: seq<BlockResult>, stop: bool, failed: bool)

  const START := Farm(0, [], 0, [], [], [], 0, None, [], false, false)

  datatype Step =
    | Read                                                        // the farm reads the next block
    | Dispatch(w: nat)                                            // and gives its batch to an idle worker
    | Spawn
    | Pop                                                         // it takes the first completed batch
    | Pull                                                        // and its results
    | Finish(w: nat, status: Status, results: seq<BlockResult>)   // a worker is done with its batch
    | Announce(w: nat)                                            // and its turn has come to say so
    | Stop

  predicate Ended(w: Worker)
  {
    w.status == ResultsReady || w.status == Error || w.status == Aborted
  }

  predicate Enabled(blocks: seq<Block>, max: nat, f: Farm, step: Step)
  {
    match step
    case Read => !f.failed && f.read < |blocks| && |f.batch| + |blocks[f.read].senders| <= max
    case Dispatch(w) => !f.failed && !f.stop && f.batch != [] && w < |f.workers| && f.workers[w].status == Idle
    case Spawn => !f.failed
    case Pop => !f.failed && f.popped.None? && f.queue != []
    case Pull => !f.failed && f.popped.Some? && f.popped.value.worker < |f.workers|
    case Finish(w, status, results) =>
      w < |f.workers| && f.workers[w].status == Working && Outcome(f.workers[w].batch, f.stop, status, results)
    case Announce(w) =>
      w < |f.workers| && Ended(f.workers[w]) && !f.workers[w].announced && f.completed == f.workers[w].batchId
    case Stop => true
  }

  function Next(blocks: seq<Block>, max: nat, f: Farm, step: Step): (g: Farm)
    requires Enabled(blocks, max, f, step)
  {
    match step
    case Read => f.(read := f.read + 1, batch := f.batch + Packages(blocks[f.read]))
    case Dispatch(w) =>
      f.(workers := f.workers[w := Worker(Working, f.batchId, f.batch, [], false)],
         batchId := f.batchId + 1, batch := [], cuts := f.cuts + [f.read])
    case Spawn => f.(workers := f.workers + [NEW_WORKER])
    case Pop => f.(popped := Some(f.queue[0]), queue := f.queue[1..])
    case Pull =>
      var i := f.popped.value.worker;
      var w := f.workers[i];
      if w.status == Error || w.status == Aborted then f.(failed := true, stop := true)
      else if w.status == ResultsReady then
        f.(pulled := f.pulled + w.results, workers := f.workers[i := w.(status := Idle, results := [])], popped := None)
      else f.(popped := None)
    case Finish(w, status, results) =>
      f.(workers := f.workers[w := f.workers[w].(status := status, results := results)])
    case Announce(w) =>
      f.(queue := f.queue + [Item(w, f.completed)], completed := f.completed + 1,
         workers := f.workers[w := f.workers[w].(announced := true, batch := [])])
    case Stop => f.(stop := true)
  }

  // --- invariants ---

  function Start(cuts: seq<nat>, i: nat): (n: nat)
    requires i <= |cuts|
  {
    if i == 0 then 0 else cuts[i - 1]
  }

  ghost predicate Cuts(blocks: seq<Block>, cuts: seq<nat>, read: nat)
  {
    && read <= |blocks|
    && (forall i | 0 <= i < |cuts| :: Start(cuts, i) <= cuts[i] <= read)
  }

  /** The packages of batch `i` are those of a run of whole blocks. */
  function BatchOf(blocks: seq<Block>, cuts: seq<nat>, i: nat): (r: seq<Package>)
    requires i < |cuts| && Start(cuts, i) <= cuts[i] <= |blocks|
  {
    AllPackages(blocks[Start(cuts, i)..cuts[i]])
  }

  /** A busy worker holds its batch or what it made of it. */
  ghost predicate Holds(blocks: seq<Block>, cuts: seq<nat>, w: Worker)
  {
    && w.batchId < |cuts| && Start(cuts, w.batchId) <= cuts[w.batchId] <= |blocks|
    && (w.status == Working ==> w.batch == BatchOf(blocks, cuts, w.batchId) && !w.announced)
    && (w.status == ResultsReady ==>
          Recovered(BatchOf(blocks, cuts, w.batchId)) && w.results == Group([], BatchOf(blocks, cuts, w.batchId)))
  }

  function Items(f: Farm): (r: seq<Item>)
  {
    if f.popped.Some? then [f.popped.value] + f.queue else f.queue
  }

  /** The number of batches pulled so far. */
  function Pulled(f: Farm): (n: int)
  {
    f.completed - |Items(f)|
  }

  /** Completed batches wait in the order of their dispatch, and their workers still hold the results. */
  ghost predicate InTurn(f: Farm)
  {
    && 0 <= Pulled(f) && f.completed <= |f.cuts|
    && forall i | 0 <= i < |Items(f)| ::
         var item := Items(f)[i];
         && item.batchId == Pulled(f) + i
         && item.worker < |f.workers| && Ended(f.workers[item.worker])
         && f.workers[item.worker].announced && f.workers[item.worker].batchId == item.batchId
  }

  /** What has been pulled are the senders of the blocks of the first batches. */
  ghost predicate Collected(blocks: seq<Block>, cuts: seq<nat>, n: nat, pulled: seq<BlockResult>)
  {
    && n <= |cuts| && Start(cuts, n) <= |blocks|
    && (forall i | 0 <= i < Start(cuts, n) :: BlockRecovered(blocks[i]))
    && pulled == Expected(blocks[..Start(cuts, n)])
  }

  ghost predicate Inv(blocks: seq<Block>, max: nat, f: Farm)
  {
    && Cuts(blocks, f.cuts, f.read) && f.batchId == |f.cuts|
    && Start(f.cuts, |f.cuts|) <= f.read && f.batch == AllPackages(blocks[Start(f.cuts, |f.cuts|)..f.read]) && |f.batch| <= max
    && (forall i | 0 <= i < |f.workers| :: f.workers[i].status != Idle ==> Holds(blocks, f.cuts, f.workers[i]))
    && InTurn(f)
    && Collected(blocks, f.cuts, Pulled(f), f.pulled)
  }

  // --- every step keeps the invariants ---

  lemma ReadKeeps(blocks: seq<Block>, max: nat, f: Farm)
    requires Inv(blocks, max, f) && Enabled(blocks, max, f, Read)
    ensures Inv(blocks, max, Next(blocks, max, f, Read))
  {
    hide Holds, InTurn, Collected, AllPackages, Packages;
    var g := Next(blocks, max, f, Read);
    var from := Start(f.cuts, |f.cuts|);
    ReadBatch(blocks, from, f.read);
    SameTurn(f, g);
  }

  lemma ReadBatch(blocks: seq<Block>, from: nat, read: nat)
    requires from <= read < |blocks|
    ensures AllPackages(blocks[from..read + 1]) == AllPackages(blocks[from..read]) + Packages(blocks[read])
    ensures |Packages(blocks[read])| == |blocks[read].senders|
  {
    var b := blocks[from..read + 1];
    assert b[..|b| - 1] == blocks[from..read] && b[|b| - 1] == blocks[read];
  }

  /** Steps that touch neither the queue nor any worker. */
  lemma SameTurn(f: Farm, g: Farm)
    requires InTurn(f) && g.workers == f.workers && g.queue == f.queue && g.popped == f.popped
    requires g.completed == f.completed && g.cuts == f.cuts
    ensures InTurn(g) && Pulled(g) == Pulled(f)
  {
  }

  /** A worker outside the queue may change. */
  lemma OtherTurn(f: Farm, g: Farm, w: nat)
    requires InTurn(f) && w < |f.workers| == |g.workers| && g.workers == f.workers[w := g.workers[w]]
    requires g.queue == f.queue && g.popped == f.popped && g.completed == f.completed && |f.cuts| <= |g.cuts|
    requires !f.workers[w].announced || !Ended(f.workers[w])
    ensures InTurn(g) && Pulled(g) == Pulled(f)
  {
  }

  lemma CutsExtend(blocks: seq<Block>, cuts: seq<nat>, read: nat)
    requires Cuts(blocks, cuts, read) && Start(cuts, |cuts|) <= read
    ensures Cuts(blocks, cuts + [read], read)
    ensures forall i | 0 <= i <= |cuts| :: Start(cuts + [read], i) == Start(cuts, i)
  {
  }

  lemma HoldsExtend(blocks: seq<Block>, cuts: seq<nat>, read: nat, w: Worker)
    requires Holds(blocks, cuts, w)
    ensures Holds(blocks, cuts + [read], w)
  {
    var more := cuts + [read];
    assert Start(more, w.batchId) == Start(cuts, w.batchId) && more[w.batchId] == cuts[w.batchId];
  }

  lemma CollectedExtend(blocks: seq<Block>, cuts: seq<nat>, read: nat, n: nat, pulled: seq<BlockResult>)
    requires Collected(blocks, cuts, n, pulled)
    ensures Collected(blocks, cuts + [read], n, pulled)
  {
    assert Start(cuts + [read], n) == Start(cuts, n);
  }

  lemma DispatchKeeps(blocks: seq<Block>, max: nat, f: Farm, w: nat)
    requires Inv(blocks, max, f) && Enabled(blocks, max, f, Dispatch(w))
    ensures Inv(blocks, max, Next(blocks, max, f, Dispatch(w)))
  {
    var g := Next(blocks, max, f, Dispatch(w));
    DispatchedHolds(blocks, max, f, w);
    hide Holds, InTurn, Collected;
    CutsExtend(blocks, f.cuts, f.read);
    forall i | 0 <= i < |g.workers| && g.workers[i].status != Idle
      ensures Holds(blocks, g.cuts, g.workers[i])
    {
      if i != w {
        HoldsExtend(blocks, f.cuts, f.read, f.workers[i]);
      }
    }
    OtherTurn(f, g, w);
    CollectedExtend(blocks, f.cuts, f.read, Pulled(f), f.pulled);
    assert Start(g.cuts, |g.cuts|) == f.read;
    assert blocks[f.read..f.read] == [];
  }

  lemma DispatchedHolds(blocks: seq<Block>, max: nat, f: Farm, w: nat)
    requires Inv(blocks, max, f) && Enabled(blocks, max, f, Dispatch(w))
    ensures Holds(blocks, f.cuts + [f.read], Worker(Working, f.batchId, f.batch, [], false))
  {
    hide InTurn, Collected;
    assert Start(f.cuts + [f.read], |f.cuts|) == Start(f.cuts, |f.cuts|);
  }

  lemma SpawnKeeps(blocks: seq<Block>, max: nat, f: Farm)
    requires Inv(blocks, max, f) && Enabled(blocks, max, f, Spawn)
    ensures Inv(blocks, max, Next(blocks, max, f, Spawn))
  {
    hide Holds, Collected, AllPackages;
    var g := Next(blocks, max, f, Spawn);
    assert InTurn(g) && Pulled(g) == Pulled(f);
  }

  lemma PopKeeps(blocks: seq<Block>, max: nat, f: Farm)
    requires Inv(blocks, max, f) && Enabled(blocks, max, f, Pop)
    ensures Inv(blocks, max, Next(blocks, max, f, Pop))
  {
    hide Holds, Collected, AllPackages;
    var g := Next(blocks, max, f, Pop);
    assert Items(g) == Items(f);
    assert InTurn(g);
  }

  lemma FinishKeeps(blocks: seq<Block>, max: nat, f: Farm, w: nat, status: Status, results: seq<BlockResult>)
    requires Inv(blocks, max, f) && Enabled(blocks, max, f, Finish(w, status, results))
    ensures Inv(blocks, max, Next(blocks, max, f, Finish(w, status, results)))
  {
    var g := Next(blocks, max, f, Finish(w, status, results));
    assert Holds(blocks, f.cuts, f.workers[w]);
    assert Holds(blocks, g.cuts, g.workers[w]);
    hide Holds, InTurn, Collected, AllPackages, Group;
    OtherTurn(f, g, w);
  }

  lemma AnnounceKeeps(blocks: seq<Block>, max: nat, f: Farm, w: nat)
    requires Inv(blocks, max, f) && Enabled(blocks, max, f, Announce(w))
    ensures Inv(blocks, max, Next(blocks, max, f, Announce(w)))
  {
    var g := Next(blocks, max, f, Announce(w));
    assert Holds(blocks, f.cuts, f.workers[w]);
    assert Holds(blocks, g.cuts, g.workers[w]);
    hide Holds, Collected, AllPackages, Group;
    assert Items(g) == Items(f) + [Item(w, f.completed)];
    assert InTurn(g) && Pulled(g) == Pulled(f);
  }

  /** The results of the batch whose turn it is continue what has been pulled. */
  lemma CollectedNext(blocks: seq<Block>, cuts: seq<nat>, read: nat, n: nat, pulled: seq<BlockResult>, w: Worker)
    requires Ordered(blocks) && Cuts(blocks, cuts, read) && Collected(blocks, cuts, n, pulled)
    requires Holds(blocks, cuts, w) && w.status == ResultsReady && w.batchId == n
    ensures Collected(blocks, cuts, n + 1, pulled + w.results)
  {
    var from, to := Start(cuts, n), cuts[n];
    var x, y := blocks[..from], blocks[from..to];
    assert blocks[..to] == x + y;
    GroupBlocks(y);
    ExpectedConcat(x, y);
    forall i | 0 <= i < to ensures BlockRecovered(blocks[i]) {
      assert (x + y)[i] == blocks[i];
    }
  }

  lemma PullKeeps(blocks: seq<Block>, max: nat, f: Farm)
    requires Ordered(blocks) && Inv(blocks, max, f) && Enabled(blocks, max, f, Pull)
    ensures Inv(blocks, max, Next(blocks, max, f, Pull))
  {
    hide AllPackages, Ordered, Cuts, Collected, Holds;
    var g := Next(blocks, max, f, Pull);
    var item := f.popped.value;
    assert Items(f)[0] == item;
    var w := f.workers[item.worker];
    if w.status == ResultsReady {
      PulledTurn(f, g);
      assert Holds(blocks, f.cuts, w);
      CollectedNext(blocks, f.cuts, f.read, Pulled(f), f.pulled, w);
    } else {
      SameTurn(f, g);
    }
  }

  lemma PulledTurn(f: Farm, g: Farm)
    requires InTurn(f) && f.popped.Some?
    requires f.popped.value.worker < |f.workers| == |g.workers|
    requires g == f.(pulled := g.pulled, workers := f.workers[f.popped.value.worker := g.workers[f.popped.value.worker]], popped := None)
    ensures InTurn(g) && Pulled(g) == Pulled(f) + 1
  {
    assert Items(f) == [f.popped.value] + Items(g);
    assert Items(f)[0] == f.popped.value;
    forall i | 0 <= i < |Items(g)|
      ensures Items(g)[i] == Items(f)[i + 1] && Items(g)[i].worker != f.popped.value.worker
    {
      assert Items(f)[i + 1].batchId != Items(f)[0].batchId;
    }
  }

  lemma StepKeeps(blocks: seq<Block>, max: nat, f: Farm, step: Step)
    requires Ordered(blocks) && Inv(blocks, max, f) && Enabled(blocks, max, f, step)
    ensures Inv(blocks, max, Next(blocks, max, f, step))
  {
    hide Inv, Next;
    match step
    case Read => ReadKeeps(blocks, max, f);
    case Dispatch(w) => DispatchKeeps(blocks, max, f, w);
    case Spawn => SpawnKeeps(blocks, max, f);
    case Pop => PopKeeps(blocks, max, f);
    case Pull => PullKeeps(blocks, max, f);
    case Finish(w, status, results) => FinishKeeps(blocks, max, f, w, status, results);
    case Announce(w) => AnnounceKeeps(blocks, max, f, w);
    case Stop => StopKeeps(blocks, max, f);
  }

  lemma StopKeeps(blocks: seq<Block>, max: nat, f: Farm)
    requires Inv(blocks, max, f)
    ensures Inv(blocks, max, Next(blocks, max, f, Stop))
  {
    hide Holds, Collected, AllPackages, InTurn;
    SameTurn(f, Next(blocks, max, f, Stop));
  }

  // --- every interleaving ---

  ghost predicate Possible(blocks: seq<Block>, max: nat, f: Farm, steps: seq<Step>)
    decreases |steps|
  {
    steps == [] || (Enabled(blocks, max, f, steps[0]) && Possible(blocks, max, Next(blocks, max, f, steps[0]), steps[1..]))
  }

  ghost function Run(blocks: seq<Block>, max: nat, f: Farm, steps: seq<Step>): (g: Farm)
    requires Possible(blocks, max, f, steps)
    decreases |steps|
  {
    if steps == [] then f else Run(blocks, max, Next(blocks, max, f, steps[0]), steps[1..])
  }

  lemma {:induction false} RunKeeps(blocks: seq<Block>, max: nat, f: Farm, steps: seq<Step>)
    requires Ordered(blocks) && Inv(blocks, max, f) && Possible(blocks, max, f, steps)
    ensures Inv(blocks, max, Run(blocks, max, f, steps))
    decreases |steps|
  {
    hide Inv, Next, Enabled, Ordered;
    if steps != [] {
      StepKeeps(blocks, max, f, steps[0]);
      RunKeeps(blocks, max, Next(blocks, max, f, steps[0]), steps[1..]);
    }
  }

  /** Under every interleaving the results come out block by block in order, each with the senders
      of all its transactions, and completed batches wait in the order of their dispatch. */
  lemma InOrder(blocks: seq<Block>, max: nat, steps: seq<Step>)
    requires Ordered(blocks) && Possible(blocks, max, START, steps)
    ensures var f := Run(blocks, max, START, steps);
      && InTurn(f)
      && (forall i | 0 <= i < |Items(f)| :: Holds(blocks, f.cuts, f.workers[Items(f)[i].worker]))
      && (exists k :: (
            && 0 <= k <= f.read <= |blocks|
            && (forall i | 0 <= i < k :: BlockRecovered(blocks[i])) && f.pulled == Expected(blocks[..k])))
  {
    hide Collected, Holds, Run;
    StartInv(blocks, max);
    RunKeeps(blocks, max, START, steps);
    var f := Run(blocks, max, START, steps);
    forall i | 0 <= i < |Items(f)|
      ensures Holds(blocks, f.cuts, f.workers[Items(f)[i].worker])
    {
      assert Ended(f.workers[Items(f)[i].worker]);
    }
    CollectedPrefix(blocks, f.cuts, f.read, Pulled(f), f.pulled);
  }

  lemma StartInv(blocks: seq<Block>, max: nat)
    ensures Inv(blocks, max, START)
  {
    assert blocks[..0] == [] && blocks[0..0] == [];
  }

  lemma CollectedPrefix(blocks: seq<Block>, cuts: seq<nat>, read: nat, n: nat, pulled: seq<BlockResult>)
    requires Cuts(blocks, cuts, read) && Collected(blocks, cuts, n, pulled)
    ensures exists k :: (
      && 0 <= k <= read <= |blocks|
      && (forall i | 0 <= i < k :: BlockRecovered(blocks[i])) && pulled == Expected(blocks[..k]))
  {
    var k := Start(cuts, n);
    assert k <= read;
  }
}
