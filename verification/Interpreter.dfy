/** An interpreter chooses its next host call from the answers it got so far. On two databases that are the same up to
    incarnation numbers it makes the same choices, so the call tree of a message is the same on both. */
module Interpreters {
  import opened Basics
  import opened World
  import opened Journal
  import opened FlatState
  import opened Ether
  import opened Refunds
  import opened Evm
  import opened Traces
  import opened Refinement
  import opened Frames
  import opened Renumbering
  import opened Mirrors
  import opened Ownership
  import opened BlockMirrors
  import C = ChainStates

  /** What a host call tells the interpreter. */
  datatype Answer =
    | Done
    | Seen(account: Option<Account>)
    | Text(code: Bytes)
    | Value(v: Word)
    | Cold(cold: bool)
    | Held(current: Word, original: Word)
    | Ended(result: Result)

  /** What the interpreter does next; storage is written and self-destruction done on its own account. */
  datatype Move = Look(op: Op) | Put(k: Word, v: Word) | Quit(beneficiary: Address) | Send(message: Message) | Halt(result: Result)

  /** The message, the account it runs for, the code, and the answers so far give the next move. */
  type Interpreter = (Message, Address, Bytes, seq<Answer>) -> Move

  /** The program of a message that starts none. */
  const IDLE := Program([], Result(SUCCESS, 0, []))

  function AnswerOf(env: Env, s: State, action: Action): (answer: Answer)
  {
    match action
    case Observe(op) =>
      (match op
       case ReadAccount(a) => Seen(C.Bare(AccountOf(env.db, s, a)))
       case ReadCode(a) => Text(CodeOf(env.db, s, a))
       case ReadStorage(a, k, original) => Value(if original then OriginalStorage(env.db, s, a, k) else CurrentStorage(env.db, s, a, k))
       case WarmAccount(a) => Cold(a !in s.accessedAddresses)
       case WarmStorage(a, k) => Cold(k !in AccessedKeys(s, a))
       case _ => Done)
    case Store(a, k, v) => Held(CurrentStorage(env.db, s, a, k), OriginalStorage(env.db, s, a, k))
    case Destroy(a, _) => Done
    case Invoke(_, _) => Ended(Perform(env, s, action).result)
  }

  // --- the program that an interpreter runs ---

  /** `move` is the action; `CALLCODE` is sent on behalf of one's own account, and a message starts the program of the interpreter. */
  ghost predicate PlaysAction(i: Interpreter, env: Env, s: State, self: Address, move: Move, action: Action)
    decreases action, 1
  {
    match action
    case Observe(op) => move == Look(op)
    case Store(a, k, v) => a == self && move == Put(k, v)
    case Destroy(a, beneficiary) => a == self && move == Quit(beneficiary)
    case Invoke(m, p) => move == Send(m) && (m.kind == CALLCODE ==> m.sender == self) && PlaysMessage(i, env, s, self, m, p)
  }

  /** `p` is what the interpreter does with message `m`, sent in state `s` by the frame of account `self`. */
  ghost predicate PlaysMessage(i: Interpreter, env: Env, s: State, self: Address, m: Message, p: Program)
    decreases p, 2
  {
    match Enter(env, s, self, m)
    case Some(e) => PlaysAll(i, env, e.state, m, e.self, e.code, [], p.actions, p.result)
    case None => p == IDLE
  }

  /** From the answers so far on, the interpreter does `actions` and ends with `result`. */
  ghost predicate PlaysAll(i: Interpreter, env: Env, s: State, m: Message, self: Address, code: Bytes, answers: seq<Answer>,
                           actions: seq<Action>, result: Result)
    decreases actions
  {
    if actions == [] then i(m, self, code, answers) == Halt(result)
    else
      && PlaysAction(i, env, s, self, i(m, self, code, answers), actions[0])
      && PlaysAll(i, env, Perform(env, s, actions[0]).state, m, self, code, answers + [AnswerOf(env, s, actions[0])], actions[1..], result)
  }

  // --- such programs write their own storage only ---

  lemma {:induction false} PlayedAction(i: Interpreter, env: Env, s: State, self: Address, move: Move, action: Action)
    requires PlaysAction(i, env, s, self, move, action)
    ensures OwnAction(env, s, self, action)
    decreases action, 1
  {
    hide Enter;
    if action.Invoke? { PlayedMessage(i, env, s, self, action.message, action.program); }
  }

  lemma {:induction false} PlayedMessage(i: Interpreter, env: Env, s: State, self: Address, m: Message, p: Program)
    requires PlaysMessage(i, env, s, self, m, p)
    ensures OwnMessage(env, s, self, m, p)
    decreases p, 2
  {
    hide Enter, PlaysAll, OwnAll;
    match Enter(env, s, self, m)
    case Some(e) => PlayedAll(i, env, e.state, m, e.self, e.code, [], p.actions, p.result);
    case None =>
  }

  lemma {:induction false} PlayedAll(i: Interpreter, env: Env, s: State, m: Message, self: Address, code: Bytes, answers: seq<Answer>,
                                     actions: seq<Action>, result: Result)
    requires PlaysAll(i, env, s, m, self, code, answers, actions, result)
    ensures OwnAll(env, s, self, actions)
    decreases actions
  {
    hide PlaysAction, OwnAction, Perform, AnswerOf;
    if actions != [] {
      PlayedAction(i, env, s, self, i(m, self, code, answers), actions[0]);
      PlayedAll(i, env, Perform(env, s, actions[0]).state, m, self, code, answers + [AnswerOf(env, s, actions[0])], actions[1..], result);
    }
  }

  // --- an interpreter runs one program only ---

  lemma {:induction false} MessageUnique(i: Interpreter, env: Env, s: State, self: Address, m: Message, p: Program, q: Program)
    requires PlaysMessage(i, env, s, self, m, p) && PlaysMessage(i, env, s, self, m, q)
    ensures p == q
    decreases p, 2
  {
    hide Enter, PlaysAll;
    match Enter(env, s, self, m)
    case Some(e) => AllUnique(i, env, e.state, m, e.self, e.code, [], p.actions, q.actions, p.result, q.result);
    case None =>
  }

  lemma {:induction false} AllUnique(i: Interpreter, env: Env, s: State, m: Message, self: Address, code: Bytes, answers: seq<Answer>,
                                     actions: seq<Action>, others: seq<Action>, result: Result, result': Result)
    requires PlaysAll(i, env, s, m, self, code, answers, actions, result) && PlaysAll(i, env, s, m, self, code, answers, others, result')
    ensures actions == others && result == result'
    decreases actions
  {
    hide Perform, AnswerOf;
    if actions != [] && others != [] {
      var a, b := actions[0], others[0];
      ActionUnique(i, env, s, self, i(m, self, code, answers), a, b);
      AllUnique(i, env, Perform(env, s, a).state, m, self, code, answers + [AnswerOf(env, s, a)], actions[1..], others[1..], result, result');
      assert actions == [a] + actions[1..] && others == [b] + others[1..];
    }
  }

  lemma {:induction false} ActionUnique(i: Interpreter, env: Env, s: State, self: Address, move: Move, a: Action, b: Action)
    requires PlaysAction(i, env, s, self, move, a) && PlaysAction(i, env, s, self, move, b)
    ensures a == b
    decreases a, 1
  {
    hide PlaysMessage;
    if a.Invoke? { MessageUnique(i, env, s, self, a.message, a.program, b.program); }
  }

  // --- runs that never take up an old incarnation ---

  /** The run is legal, and no creation took up the incarnation it began the block with. */
  ghost predicate Novel(db: Db, keccak: Bytes -> Word, f: Flat, steps: seq<HostStep>)
  {
    LegalHostRun(db, keccak, f, [], steps) && FlatHostRun(db, keccak, f, [], steps).novel
  }

  lemma {:induction false} NovelAtFirst(db: Db, keccak: Bytes -> Word, f: Flat, saved: seq<Flat>, steps: seq<HostStep>)
    requires LegalHostRun(db, keccak, f, saved, steps) && FlatHostRun(db, keccak, f, saved, steps).novel
    ensures f.novel
    decreases |steps|
  {
    hide Legal;
    if steps != [] {
      var (g, kept) := FlatHostNext(db, keccak, f, saved, steps[0]);
      NovelAtFirst(db, keccak, g, kept, steps[1..]);
      NextNovel(db, keccak, f, saved, steps[0]);
    }
  }

  lemma NextNovel(db: Db, keccak: Bytes -> Word, f: Flat, saved: seq<Flat>, step: HostStep)
    requires LegalHostStep(f, saved, step) && FlatHostNext(db, keccak, f, saved, step).0.novel
    ensures f.novel
    ensures step.Other? && step.op.MakeContract? ==> !Returns(db, step.op.a, FlatIncarnation(db, f, step.op.a))
  {
    hide Returns, FlatIncarnation, Seed, Without, Edited;
  }

  lemma {:induction false} NovelPrefixFrom(db: Db, keccak: Bytes -> Word, f: Flat, saved: seq<Flat>, x: seq<HostStep>, y: seq<HostStep>)
    requires LegalHostRun(db, keccak, f, saved, x + y) && FlatHostRun(db, keccak, f, saved, x + y).novel
    ensures LegalHostRun(db, keccak, f, saved, x) && FlatHostRun(db, keccak, f, saved, x).novel
    decreases |x|
  {
    hide Legal, FlatApply;
    if x == [] {
      assert x + y == y;
      NovelAtFirst(db, keccak, f, saved, y);
    } else {
      assert (x + y)[0] == x[0] && (x + y)[1..] == x[1..] + y;
      var (g, kept) := FlatHostNext(db, keccak, f, saved, x[0]);
      NovelPrefixFrom(db, keccak, g, kept, x[1..], y);
    }
  }

  lemma NovelPrefix(db: Db, keccak: Bytes -> Word, f: Flat, x: seq<HostStep>, y: seq<HostStep>)
    requires Novel(db, keccak, f, x + y)
    ensures Novel(db, keccak, f, x)
  {
    NovelPrefixFrom(db, keccak, f, [], x, y);
  }

  /** Two novel runs of the same steps agree on every creation. */
  lemma {:induction false} NovelAgree(d: Db, e: Db, keccak: Bytes -> Word, f: Flat, g: Flat, x: seq<Flat>, y: seq<Flat>, steps: seq<HostStep>)
    requires LegalHostRun(d, keccak, f, x, steps) && FlatHostRun(d, keccak, f, x, steps).novel
    requires LegalHostRun(e, keccak, g, y, steps) && FlatHostRun(e, keccak, g, y, steps).novel
    ensures AgreeHostRun(d, e, keccak, f, g, x, y, steps)
    decreases |steps|
  {
    hide Legal, FlatApply, Returns, FlatIncarnation;
    if steps != [] {
      var (f', x') := FlatHostNext(d, keccak, f, x, steps[0]);
      var (g', y') := FlatHostNext(e, keccak, g, y, steps[0]);
      NovelAgree(d, e, keccak, f', g', x', y', steps[1..]);
      NovelAtFirst(d, keccak, f', x', steps[1..]);
      NovelAtFirst(e, keccak, g', y', steps[1..]);
      NextNovel(d, keccak, f, x, steps[0]);
      NextNovel(e, keccak, g, y, steps[0]);
    }
  }

  // --- two sides abreast ---

  /** One database, the state with which the transaction starts, and the flat maps it stands for. */
  datatype Side = Side(env: Env, s0: State, f0: Flat)
  {
    ghost predicate At(steps: seq<HostStep>, s: State, n: nat)
    {
      Reaches(env, s0, f0, steps, s, n)
    }

    ghost predicate Fine(steps: seq<HostStep>)
    {
      Novel(env.db, env.keccak, f0, steps)
    }
  }

  /** The same steps have led to `s` and `t`. */
  ghost predicate Abreast(codeOf: Word -> Bytes, x: Side, y: Side, pre: seq<HostStep>, s: State, t: State, n: nat)
  {
    && Paired(codeOf, x.env, y.env) && Renumbered(x.env.db, y.env.db) && Twins(x.f0, y.f0)
    && x.At(pre, s, n) && y.At(pre, t, n) && Mirror(codeOf, x.env.db, s, y.env.db, t)
  }

  /** Whatever is read is the same on both sides. */
  lemma AbreastReads(codeOf: Word -> Bytes, x: Side, y: Side, pre: seq<HostStep>, s: State, t: State, n: nat, a: Address, k: Word)
    requires Abreast(codeOf, x, y, pre, s, t, n) && x.Fine(pre) && y.Fine(pre)
    ensures CurrentStorage(x.env.db, s, a, k) == CurrentStorage(y.env.db, t, a, k)
    ensures OriginalStorage(x.env.db, s, a, k) == OriginalStorage(y.env.db, t, a, k)
    ensures s.accessedAddresses == t.accessedAddresses && (k in AccessedKeys(s, a) <==> k in AccessedKeys(t, a))
  {
    hide Reaches, Sound, Twins, Renumbered, Mirror, FlatHostRun, LegalHostRun, AgreeHostRun, CountRun, CurrentStorage, OriginalStorage, WarmCells;
    var d, e, keccak := x.env.db, y.env.db, x.env.keccak;
    ReachesMatches(x.env, x.s0, x.f0, pre, s, n);
    ReachesMatches(y.env, y.s0, y.f0, pre, t, n);
    NovelAgree(d, e, keccak, x.f0, y.f0, [], [], pre);
    HostRunTwins(d, e, keccak, x.env.rev, x.f0, y.f0, [], [], Counter(0, []), pre);
    var f, g := FlatHostRun(d, keccak, x.f0, [], pre), FlatHostRun(e, keccak, y.f0, [], pre);
    MatchedReads(d, s, f, a, k);
    MatchedReads(e, t, g, a, k);
    CellTwins(f, g, a, k);
    PendingSame(f, g);
    WarmKey(s.accessedKeys, a, k);
    WarmKey(t.accessedKeys, a, k);
  }

  lemma MatchedReads(db: Db, s: State, f: Flat, a: Address, k: Word)
    requires Matches(db, s, f)
    ensures CurrentStorage(db, s, a, k) == FlatState.At(f.current, a, k) && OriginalStorage(db, s, a, k) == FlatState.At(f.original, a, k)
  {
    ViewedRefines(db, s, f);
  }

  lemma WarmKey(accessed: map<Address, set<Word>>, a: Address, k: Word)
    ensures Cell(a, k) in WarmCells(accessed) <==> k in KeysIn(accessed, a)
  {
  }

  lemma AnswerSame(codeOf: Word -> Bytes, x: Side, y: Side, pre: seq<HostStep>, s: State, t: State, n: nat, action: Action)
    requires Abreast(codeOf, x, y, pre, s, t, n) && x.Fine(pre) && y.Fine(pre)
    requires Perform(x.env, s, action).result == Perform(y.env, t, action).result
    ensures AnswerOf(x.env, s, action) == AnswerOf(y.env, t, action)
  {
    hide Reaches, Novel, Renumbered, Twins, Mirror, CurrentStorage, OriginalStorage, CodeOf, Perform;
    match action
    case Observe(op) =>
      match op {
        case ReadAccount(a) => MirrorAccount(codeOf, x.env.db, s, y.env.db, t, a);
        case ReadCode(a) => MirrorReads(codeOf, x.env, y.env, s, t, a);
        case ReadStorage(a, k, _) => AbreastReads(codeOf, x, y, pre, s, t, n, a, k);
        case WarmAccount(a) => AbreastReads(codeOf, x, y, pre, s, t, n, a, 0);
        case WarmStorage(a, k) => AbreastReads(codeOf, x, y, pre, s, t, n, a, k);
        case _ =>
      }
    case Store(a, k, v) => AbreastReads(codeOf, x, y, pre, s, t, n, a, k);
    case _ =>
  }

  lemma MirrorAccount(codeOf: Word -> Bytes, d: Db, s: State, e: Db, t: State, a: Address)
    requires Mirror(codeOf, d, s, e, t)
    ensures C.Bare(AccountOf(d, s, a)) == C.Bare(AccountOf(e, t, a))
  {
  }

  lemma AbreastOn(codeOf: Word -> Bytes, x: Side, y: Side, pre: seq<HostStep>, s: State, t: State, n: nat, action: Action)
    requires Abreast(codeOf, x, y, pre, s, t, n) && HonestAction(codeOf, x.env.keccak, action)
    requires x.Fine(pre + Trace(x.env, s, n, action)) && y.Fine(pre + Trace(y.env, t, n, action))
    ensures Trace(x.env, s, n, action) == Trace(y.env, t, n, action)
    ensures Perform(x.env, s, action).result == Perform(y.env, t, action).result
    ensures var steps := Trace(x.env, s, n, action);
      Abreast(codeOf, x, y, pre + steps, Perform(x.env, s, action).state, Perform(y.env, t, action).state, After(n, steps))
  {
    hide Reaches, Renumbered, Twins, Mirror, Trace, Perform, HonestAction, LegalHostRun, FlatHostRun, Leads, After;
    ActionMirror(codeOf, x.env, y.env, s, t, n, action);
    TraceLeads(x.env, s, n, action);
    TraceLeads(y.env, t, n, action);
    var steps := Trace(x.env, s, n, action);
    ReachesThen(x.env, x.s0, x.f0, pre, s, n, steps, Perform(x.env, s, action).state);
    ReachesThen(y.env, y.s0, y.f0, pre, t, n, steps, Perform(y.env, t, action).state);
  }

  // --- the same choices on both sides ---

  /** The interpreter does the same with a message on both sides. */
  lemma {:induction false} MessageSame(i: Interpreter, codeOf: Word -> Bytes, x: Side, y: Side, pre: seq<HostStep>, s: State, t: State, n: nat,
                                       self: Address, m: Message, p: Program, q: Program)
    requires Abreast(codeOf, x, y, pre, s, t, n) && Honest(codeOf, x.env.keccak, p)
    requires PlaysMessage(i, x.env, s, self, m, p) && PlaysMessage(i, y.env, t, self, m, q)
    requires x.Fine(pre + TraceMessage(x.env, s, n, m, p)) && y.Fine(pre + TraceMessage(y.env, t, n, m, q))
    ensures p == q
    decreases p, 2
  {
    hide Reaches, Novel, Renumbered, Twins, Mirror, TraceMessage, Enter, Prelude, Coda, TraceAll, HonestAll, PlaysAll, Leads, After, AllPlain, Paired;
    EnterMirror(codeOf, x.env, y.env, s, t, self, m);
    match Enter(x.env, s, self, m)
    case None =>
    case Some(e) =>
      var e' := Enter(y.env, t, self, m).value;
      var before := Prelude(x.env, s, m);
      MessageTrace(x.env, s, self, n, m, p);
      MessageTrace(y.env, t, self, n, m, q);
      PreludeLeads(x.env, s, self, n, m);
      PreludeLeads(y.env, t, self, n, m);
      AroundPlain(x.env, s, n, m, p);
      ReachesOn(x.env, x.s0, x.f0, pre, s, n, before, e.state);
      ReachesOn(y.env, y.s0, y.f0, pre, t, n, before, e'.state);
      var inner, inner' := TraceAll(x.env, e.state, n + 1, p.actions), TraceAll(y.env, e'.state, n + 1, q.actions);
      assert pre + (before + inner + Coda(x.env, s, n, m, p)) == pre + before + inner + Coda(x.env, s, n, m, p);
      assert pre + (before + inner' + Coda(y.env, t, n, m, q)) == pre + before + inner' + Coda(y.env, t, n, m, q);
      NovelPrefix(x.env.db, x.env.keccak, x.f0, pre + before + inner, Coda(x.env, s, n, m, p));
      NovelPrefix(y.env.db, y.env.keccak, y.f0, pre + before + inner', Coda(y.env, t, n, m, q));
      AllSame(i, codeOf, x, y, pre + before, e.state, e'.state, n + 1, m, e.self, e.code, [], p.actions, q.actions, p.result, q.result);
  }

  lemma {:induction false} AllSame(i: Interpreter, codeOf: Word -> Bytes, x: Side, y: Side, pre: seq<HostStep>, s: State, t: State, n: nat,
                                   m: Message, self: Address, code: Bytes, answers: seq<Answer>,
                                   actions: seq<Action>, others: seq<Action>, result: Result, result': Result)
    requires Abreast(codeOf, x, y, pre, s, t, n) && HonestAll(codeOf, x.env.keccak, actions)
    requires PlaysAll(i, x.env, s, m, self, code, answers, actions, result)
    requires PlaysAll(i, y.env, t, m, self, code, answers, others, result')
    requires x.Fine(pre + TraceAll(x.env, s, n, actions)) && y.Fine(pre + TraceAll(y.env, t, n, others))
    ensures actions == others && result == result'
    decreases actions
  {
    hide Abreast, Novel, Trace, Perform, HonestAction, After, AnswerOf;
    if actions != [] && others != [] {
      var a, b := actions[0], others[0];
      var first, first' := Trace(x.env, s, n, a), Trace(y.env, t, n, b);
      var s', t' := Perform(x.env, s, a).state, Perform(y.env, t, b).state;
      var rest, rest' := TraceAll(x.env, s', After(n, first), actions[1..]), TraceAll(y.env, t', After(n, first'), others[1..]);
      assert pre + (first + rest) == pre + first + rest && pre + (first' + rest') == pre + first' + rest';
      NovelPrefix(x.env.db, x.env.keccak, x.f0, pre + first, rest);
      NovelPrefix(y.env.db, y.env.keccak, y.f0, pre + first', rest');
      FirstSame(i, codeOf, x, y, pre, s, t, n, self, i(m, self, code, answers), a, b);
      AbreastOn(codeOf, x, y, pre, s, t, n, a);
      NovelPrefix(x.env.db, x.env.keccak, x.f0, pre, first);
      NovelPrefix(y.env.db, y.env.keccak, y.f0, pre, first);
      AnswerSame(codeOf, x, y, pre, s, t, n, a);
      AllSame(i, codeOf, x, y, pre + first, s', t', After(n, first), m, self, code, answers + [AnswerOf(x.env, s, a)],
              actions[1..], others[1..], result, result');
      assert actions == [a] + actions[1..] && others == [b] + others[1..];
    }
  }

  lemma {:induction false} FirstSame(i: Interpreter, codeOf: Word -> Bytes, x: Side, y: Side, pre: seq<HostStep>, s: State, t: State, n: nat,
                                     self: Address, move: Move, a: Action, b: Action)
    requires Abreast(codeOf, x, y, pre, s, t, n) && HonestAction(codeOf, x.env.keccak, a)
    requires PlaysAction(i, x.env, s, self, move, a) && PlaysAction(i, y.env, t, self, move, b)
    requires x.Fine(pre + Trace(x.env, s, n, a)) && y.Fine(pre + Trace(y.env, t, n, b))
    ensures a == b
    decreases a, 1
  {
    hide Abreast, Novel, TraceMessage, PlaysMessage, Honest;
    if a.Invoke? {
      MessageSame(i, codeOf, x, y, pre, s, t, n, self, a.message, a.program, b.program);
    }
  }

  // --- a run on one side is a run on the other ---

  /** If `p` is what the interpreter does with a message on one side, it is what it does on the other. */
  lemma {:induction false} MessageCarries(i: Interpreter, codeOf: Word -> Bytes, x: Side, y: Side, pre: seq<HostStep>, s: State, t: State, n: nat,
                                          self: Address, m: Message, p: Program)
    requires Abreast(codeOf, x, y, pre, s, t, n) && Honest(codeOf, x.env.keccak, p) && PlaysMessage(i, x.env, s, self, m, p)
    requires x.Fine(pre + TraceMessage(x.env, s, n, m, p)) && y.Fine(pre + TraceMessage(y.env, t, n, m, p))
    ensures PlaysMessage(i, y.env, t, self, m, p)
    decreases p, 2
  {
    hide Reaches, Novel, Renumbered, Twins, Mirror, TraceMessage, Enter, Prelude, Coda, TraceAll, HonestAll, PlaysAll, Leads, After, AllPlain, Paired;
    EnterMirror(codeOf, x.env, y.env, s, t, self, m);
    match Enter(x.env, s, self, m)
    case None =>
    case Some(e) =>
      var e' := Enter(y.env, t, self, m).value;
      var before := Prelude(x.env, s, m);
      MessageTrace(x.env, s, self, n, m, p);
      MessageTrace(y.env, t, self, n, m, p);
      PreludeLeads(x.env, s, self, n, m);
      PreludeLeads(y.env, t, self, n, m);
      AroundPlain(x.env, s, n, m, p);
      ReachesOn(x.env, x.s0, x.f0, pre, s, n, before, e.state);
      ReachesOn(y.env, y.s0, y.f0, pre, t, n, before, e'.state);
      var inner, inner' := TraceAll(x.env, e.state, n + 1, p.actions), TraceAll(y.env, e'.state, n + 1, p.actions);
      assert pre + (before + inner + Coda(x.env, s, n, m, p)) == pre + before + inner + Coda(x.env, s, n, m, p);
      assert pre + (before + inner' + Coda(y.env, t, n, m, p)) == pre + before + inner' + Coda(y.env, t, n, m, p);
      NovelPrefix(x.env.db, x.env.keccak, x.f0, pre + before + inner, Coda(x.env, s, n, m, p));
      NovelPrefix(y.env.db, y.env.keccak, y.f0, pre + before + inner', Coda(y.env, t, n, m, p));
      AllCarry(i, codeOf, x, y, pre + before, e.state, e'.state, n + 1, m, e.self, e.code, [], p.actions, p.result);
  }

  lemma {:induction false} AllCarry(i: Interpreter, codeOf: Word -> Bytes, x: Side, y: Side, pre: seq<HostStep>, s: State, t: State, n: nat,
                                    m: Message, self: Address, code: Bytes, answers: seq<Answer>, actions: seq<Action>, result: Result)
    requires Abreast(codeOf, x, y, pre, s, t, n) && HonestAll(codeOf, x.env.keccak, actions)
    requires PlaysAll(i, x.env, s, m, self, code, answers, actions, result)
    requires x.Fine(pre + TraceAll(x.env, s, n, actions)) && y.Fine(pre + TraceAll(y.env, t, n, actions))
    ensures PlaysAll(i, y.env, t, m, self, code, answers, actions, result)
    decreases actions
  {
    hide Abreast, Novel, Trace, Perform, HonestAction, After, AnswerOf, PlaysAction;
    if actions != [] {
      var a := actions[0];
      var first, first' := Trace(x.env, s, n, a), Trace(y.env, t, n, a);
      var s', t' := Perform(x.env, s, a).state, Perform(y.env, t, a).state;
      var rest, rest' := TraceAll(x.env, s', After(n, first), actions[1..]), TraceAll(y.env, t', After(n, first'), actions[1..]);
      assert pre + (first + rest) == pre + first + rest && pre + (first' + rest') == pre + first' + rest';
      NovelPrefix(x.env.db, x.env.keccak, x.f0, pre + first, rest);
      NovelPrefix(y.env.db, y.env.keccak, y.f0, pre + first', rest');
      FirstCarries(i, codeOf, x, y, pre, s, t, n, self, i(m, self, code, answers), a);
      AbreastOn(codeOf, x, y, pre, s, t, n, a);
      NovelPrefix(x.env.db, x.env.keccak, x.f0, pre, first);
      NovelPrefix(y.env.db, y.env.keccak, y.f0, pre, first);
      AnswerSame(codeOf, x, y, pre, s, t, n, a);
      AllCarry(i, codeOf, x, y, pre + first, s', t', After(n, first), m, self, code, answers + [AnswerOf(x.env, s, a)], actions[1..], result);
    }
  }

  lemma {:induction false} FirstCarries(i: Interpreter, codeOf: Word -> Bytes, x: Side, y: Side, pre: seq<HostStep>, s: State, t: State, n: nat,
                                        self: Address, move: Move, a: Action)
    requires Abreast(codeOf, x, y, pre, s, t, n) && HonestAction(codeOf, x.env.keccak, a) && PlaysAction(i, x.env, s, self, move, a)
    requires x.Fine(pre + Trace(x.env, s, n, a)) && y.Fine(pre + Trace(y.env, t, n, a))
    ensures PlaysAction(i, y.env, t, self, move, a)
    decreases a, 1
  {
    hide Abreast, Novel, TraceMessage, PlaysMessage, Honest;
    if a.Invoke? {
      MessageCarries(i, codeOf, x, y, pre, s, t, n, self, a.message, a.program);
    }
  }

  /** Programs start alike on both sides. */
  lemma EnterMirror(codeOf: Word -> Bytes, x: Env, y: Env, s: State, t: State, self: Address, m: Message)
    requires Paired(codeOf, x, y) && Mirror(codeOf, x.db, s, y.db, t)
    ensures Enter(x, s, self, m).Some? <==> Enter(y, t, self, m).Some?
    ensures Prelude(x, s, m) == Prelude(y, t, m)
    ensures Enter(x, s, self, m).Some? ==>
      var e, e' := Enter(x, s, self, m).value, Enter(y, t, self, m).value;
      e.self == e'.self && e.code == e'.code && Mirror(codeOf, x.db, e.state, y.db, e'.state)
  {
    hide Mirror, Journal.Apply, Others, BalanceIn, Live, CodeOf, NonceOf, CodeHashOf, Paid, Announced, Founded, IsPrecompiled,
      AnnouncedOps, FoundedOps, PaidOps;
    MirrorReads(codeOf, x, y, s, t, m.sender);
    ApplyMirror(codeOf, x, y, s, t, ReadAccount(m.sender));
    var s1, t1 := x.Apply(s, ReadAccount(m.sender)), y.Apply(t, ReadAccount(m.sender));
    MirrorReads(codeOf, x, y, s1, t1, m.sender);
    FoundedOpsSame(x, y, m, NewAddress(x, s, m));
    if Creates(m) {
      var nonce, a := NewNonce(x, s, m), NewAddress(x, s, m);
      AnnouncedMirror(codeOf, x, y, s1, t1, m.sender, nonce, a);
      MirrorReads(codeOf, x, y, Counted(x, s, m), Counted(y, t, m), a);
      FoundedMirror(codeOf, x, y, Counted(x, s, m), Counted(y, t, m), m, a);
    } else {
      var look1, look2 := m.kind != DELEGATECALL, m.value == 0 && x.rev >= SPURIOUS_DRAGON;
      LookMirror(codeOf, x, y, s, t, look1, m.sender);
      var s1', t1' := if look1 then s1 else s, if look1 then t1 else t;
      MirrorReads(codeOf, x, y, s1', t1', m.destination);
      LookMirror(codeOf, x, y, s1', t1', look2, m.destination);
      var s2, t2 := BeforePayment(x, s, m), BeforePayment(y, t, m);
      PaidMirror(codeOf, x, y, s2, t2, m);
      MirrorReads(codeOf, x, y, Paid(x, s2, m), Paid(y, t2, m), m.destination);
      ApplyMirror(codeOf, x, y, Paid(x, s2, m), Paid(y, t2, m), ReadCode(m.destination));
    }
  }

  lemma FoundedOpsSame(x: Env, y: Env, m: Message, a: Address)
    requires x.rev == y.rev
    ensures FoundedOps(x, m, a) == FoundedOps(y, m, a)
  {
  }
}
