/** The journaled state as values: what each operation of `IntraBlockState` does to the
    caches and to the journal, and what each delta undoes
    (core/silkworm/state/intra_block_state.cpp, core/silkworm/state/delta.cpp). */
module Journal {
  import opened Basics
  import opened World

  datatype Object = Object(initial: Option<Account>, current: Option<Account>)

  /** Value of a slot at the beginning of the block and of the transaction. */
  datatype Committed = Committed(initial: Word, original: Word)

  datatype Storage = Storage(committed: map<Word, Committed>, current: map<Word, Word>)

  const NO_STORAGE := Storage(map[], map[])
  const RIPEMD: Address := 3

  datatype Delta =
    | Create(a: Address)
    | Update(a: Address, previous: Object)
    | Suicide(a: Address)
    | Touched(a: Address)
    | StorageChange(a: Address, k: Word, prior: Word)
    | StorageWipe(a: Address, storage: Storage)
    | StorageCreate(a: Address)
    | StorageAccess(a: Address, k: Word)
    | AccountAccess(a: Address)

  datatype State = State(
    objects: map<Address, Object>,
    storage: map<Address, Storage>,
    code: map<Word, Bytes>,
    journal: seq<Delta>,
    selfDestructs: set<Address>,
    logs: seq<Bytes>,
    touched: set<Address>,
    refund: nat,
    accessedAddresses: set<Address>,
    accessedKeys: map<Address, set<Word>>)

  // --- observations ---

  type Objects = map<Address, Object>
  type Storages = map<Address, Storage>

  /** The object that `get_object` returns. */
  function ObjectIn(db: Db, objects: Objects, a: Address): (o: Option<Object>)
  {
    if a in objects then Some(objects[a])
    else match db.ReadAccount(a)
      case Some(account) => Some(Object(Some(account), Some(account)))
      case None => None
  }

  function AccountIn(db: Db, objects: Objects, a: Address): (r: Option<Account>)
  {
    match ObjectIn(db, objects, a) case Some(o) => o.current case None => None
  }

  function StorageIn(storages: Storages, a: Address): (r: Storage)
  {
    if a in storages then storages[a] else NO_STORAGE
  }

  /** Block-initial and transaction-original value of a slot, given the object and the storage of its account. */
  function CommittedAt(db: Db, a: Address, o: Option<Object>, storage: Storage, k: Word): (r: Committed)
  {
    if k in storage.committed then storage.committed[k]
    else match o
      case Some(Object(Some(initial), Some(current))) =>
        if initial.incarnation == current.incarnation then
          var v := db.ReadStorage(a, current.incarnation, k);
          Committed(v, v)
        else Committed(0, 0)
      case _ => Committed(0, 0)
  }

  function CurrentAt(db: Db, a: Address, o: Option<Object>, storage: Storage, k: Word): (v: Word)
  {
    if k in storage.current then storage.current[k] else CommittedAt(db, a, o, storage, k).original
  }

  function ObjectOf(db: Db, s: State, a: Address): (o: Option<Object>)
  {
    ObjectIn(db, s.objects, a)
  }

  function AccountOf(db: Db, s: State, a: Address): (r: Option<Account>)
  {
    AccountIn(db, s.objects, a)
  }

  predicate Live(db: Db, s: State, a: Address)
  {
    AccountOf(db, s, a).Some?
  }

  predicate Dead(db: Db, s: State, a: Address)
  {
    match AccountOf(db, s, a)
    case None => true
    case Some(c) => c.codeHash == EMPTY_HASH && c.nonce == 0 && c.balance == 0
  }

  function StorageOf(s: State, a: Address): (r: Storage)
  {
    StorageIn(s.storage, a)
  }

  function CommittedOf(db: Db, s: State, a: Address, k: Word): (r: Committed)
  {
    CommittedAt(db, a, ObjectOf(db, s, a), StorageOf(s, a), k)
  }

  /** `get_original_storage` and `get_current_storage`. */
  function OriginalStorage(db: Db, s: State, a: Address, k: Word): (v: Word)
  {
    if !Live(db, s, a) then 0 else CommittedOf(db, s, a, k).original
  }

  function CurrentStorage(db: Db, s: State, a: Address, k: Word): (v: Word)
  {
    if !Live(db, s, a) then 0 else CurrentAt(db, a, ObjectOf(db, s, a), StorageOf(s, a), k)
  }

  function KeysIn(accessed: map<Address, set<Word>>, a: Address): (r: set<Word>)
  {
    if a in accessed then accessed[a] else {}
  }

  function AccessedKeys(s: State, a: Address): (r: set<Word>)
  {
    KeysIn(s.accessedKeys, a)
  }

  /** `get_code`. */
  function CodeOf(db: Db, s: State, a: Address): (r: Bytes)
  {
    match AccountOf(db, s, a)
    case None => []
    case Some(c) =>
      if c.codeHash == EMPTY_HASH then []
      else if c.codeHash in s.code then s.code[c.codeHash]
      else db.ReadCode(c.codeHash)
  }

  // --- reads: they fill the caches and write no journal ---

  function Fetch(db: Db, s: State, a: Address): (t: State)
    ensures t.logs == s.logs && t.refund == s.refund
  {
    if a in s.objects || a !in db.accounts then s
    else s.(objects := s.objects[a := Object(Some(db.accounts[a]), Some(db.accounts[a]))])
  }

  function FetchCode(db: Db, s: State, a: Address): (t: State)
    ensures t.logs == s.logs && t.refund == s.refund
  {
    var t := Fetch(db, s, a);
    match AccountOf(db, t, a)
    case None => t
    case Some(c) =>
      if c.codeHash == EMPTY_HASH || c.codeHash in t.code then t
      else t.(code := t.code[c.codeHash := db.ReadCode(c.codeHash)])
  }

  /** What reading slot `k` adds to the storage of a live account. */
  function Filled(db: Db, a: Address, o: Object, storage: Storage, k: Word, original: bool): (r: Storage)
    requires o.current.Some?
  {
    var incarnation := o.current.value.incarnation;
    if (!original && k in storage.current) || k in storage.committed then storage
    else if o.initial.None? || o.initial.value.incarnation != incarnation then storage
    else
      var v := db.ReadStorage(a, incarnation, k);
      storage.(committed := storage.committed[k := Committed(v, v)])
  }

  function FetchStorage(db: Db, s: State, a: Address, k: Word, original: bool): (t: State)
    ensures t.logs == s.logs && t.refund == s.refund
  {
    var t := Fetch(db, s, a);
    match ObjectOf(db, t, a)
    case Some(o) =>
      if o.current.None? then t
      else t.(storage := t.storage[a := Filled(db, a, o, StorageOf(t, a), k, original)])
    case _ => t
  }

  // --- writes ---

  function Log(s: State, delta: Delta): (t: State)
  {
    s.(journal := s.journal + [delta])
  }

  /** `get_or_create_object`. */
  function Obtain(db: Db, s: State, a: Address): (t: State)
    ensures t.logs == s.logs && t.refund == s.refund
    ensures a in t.objects && t.objects[a].current.Some?
  {
    var t := Fetch(db, s, a);
    if a !in t.objects then
      Log(t, Create(a)).(objects := t.objects[a := Object(None, Some(EMPTY_ACCOUNT))])
    else if t.objects[a].current.None? then
      Log(t, Update(a, t.objects[a])).(objects := t.objects[a := t.objects[a].(current := Some(EMPTY_ACCOUNT))])
    else t
  }

  datatype Edit = ToBalance(v: Word) | Credit(v: Word) | Debit(v: Word) | ToNonce(n: nat) | ToCodeHash(h: Word)

  function Edited(c: Account, e: Edit): (r: Account)
    ensures r.incarnation == c.incarnation
  {
    match e
    case ToBalance(v) => c.(balance := v)
    case Credit(v) => c.(balance := (c.balance as int + v as int) % TWO_256)
    case Debit(v) => c.(balance := (c.balance as int - v as int) % TWO_256)
    case ToNonce(n) => c.(nonce := n)
    case ToCodeHash(h) => c.(codeHash := h)
  }

  function Put(db: Db, s: State, a: Address, e: Edit): (t: State)
    ensures t.logs == s.logs && t.refund == s.refund
  {
    var t := Obtain(db, s, a);
    var o := t.objects[a];
    Log(t, Update(a, o)).(objects := t.objects[a := o.(current := Some(Edited(o.current.value, e)))])
  }

  function Touch(s: State, a: Address): (t: State)
    ensures t.logs == s.logs && t.refund == s.refund
  {
    if a in s.touched then s
    else
      var t := s.(touched := s.touched + {a});
      if a != RIPEMD then Log(t, Touched(a)) else t
  }

  function ChangeBalance(db: Db, s: State, a: Address, e: Edit): (t: State)
    ensures t.logs == s.logs && t.refund == s.refund
  {
    Touch(Put(db, s, a, e), a)
  }

  function SetCode(db: Db, keccak: Bytes -> Word, s: State, a: Address, code: Bytes): (t: State)
    ensures t.logs == s.logs && t.refund == s.refund
  {
    var t := Put(db, s, a, ToCodeHash(keccak(code)));
    if keccak(code) in t.code then t else t.(code := t.code[keccak(code) := code])
  }

  function NewIncarnation(db: Db, s: State, a: Address): (n: nat)
  {
    var previous := match ObjectOf(db, s, a)
      case Some(Object(_, Some(current))) => current.incarnation
      case Some(Object(Some(initial), None)) => initial.incarnation
      case _ => 0;
    1 + if previous == 0 then db.PreviousIncarnation(a) else previous
  }

  function CreateObject(db: Db, s: State, a: Address): (t: State)
    ensures t.logs == s.logs && t.refund == s.refund
  {
    var t := Fetch(db, s, a);
    var created := EMPTY_ACCOUNT.(incarnation := NewIncarnation(db, s, a));
    if a in t.objects then
      var o := t.objects[a];
      var balance := if o.current.Some? then o.current.value.balance else 0;
      Log(t, Update(a, o)).(objects := t.objects[a := Object(o.initial, Some(created.(balance := balance)))])
    else
      Log(t, Create(a)).(objects := t.objects[a := Object(None, Some(created))])
  }

  function WipeStorage(s: State, a: Address): (t: State)
  {
    if a in s.storage then Log(s, StorageWipe(a, s.storage[a])).(storage := s.storage - {a})
    else Log(s, StorageCreate(a))
  }

  function CreateContract(db: Db, s: State, a: Address): (t: State)
    ensures t.logs == s.logs && t.refund == s.refund
  {
    WipeStorage(CreateObject(db, s, a), a)
  }

  function SetStorage(db: Db, s: State, a: Address, k: Word, v: Word): (t: State)
    ensures t.logs == s.logs && t.refund == s.refund
  {
    var t := FetchStorage(db, s, a, k, false);
    var prior := CurrentStorage(db, s, a, k);
    if prior == v then t
    else
      var storage := StorageOf(t, a);
      Log(t, StorageChange(a, k, prior)).(storage := t.storage[a := storage.(current := storage.current[k := v])])
  }

  function RecordSuicide(s: State, a: Address): (t: State)
  {
    if a in s.selfDestructs then s else Log(s, Suicide(a)).(selfDestructs := s.selfDestructs + {a})
  }

  function AccessAccount(s: State, a: Address): (t: State)
  {
    if a in s.accessedAddresses then s
    else Log(s, AccountAccess(a)).(accessedAddresses := s.accessedAddresses + {a})
  }

  function AccessStorage(s: State, a: Address, k: Word): (t: State)
  {
    var keys := AccessedKeys(s, a);
    var t := s.(accessedKeys := s.accessedKeys[a := keys + {k}]);
    if k in keys then t else Log(t, StorageAccess(a, k))
  }

  /** One operation of a transaction. */
  datatype Op =
    | ReadAccount(a: Address)
    | ReadCode(a: Address)
    | ReadStorage(a: Address, k: Word, original: bool)
    | SetBalance(a: Address, v: Word)
    | AddToBalance(a: Address, v: Word)
    | SubtractFromBalance(a: Address, v: Word)
    | SetNonce(a: Address, n: nat)
    | DeployCode(a: Address, code: Bytes)
    | WriteStorage(a: Address, k: Word, v: Word)
    | MakeContract(a: Address)
    | TouchAccount(a: Address)
    | SelfDestruct(a: Address)
    | WarmAccount(a: Address)
    | WarmStorage(a: Address, k: Word)
    | AddLog(log: Bytes)
    | AddRefund(n: nat)
    | SubtractRefund(n: nat)

  function Apply(db: Db, keccak: Bytes -> Word, s: State, op: Op): (t: State)
  {
    match op
    case ReadAccount(a) => Fetch(db, s, a)
    case ReadCode(a) => FetchCode(db, s, a)
    case ReadStorage(a, k, original) => FetchStorage(db, s, a, k, original)
    case SetBalance(a, v) => ChangeBalance(db, s, a, ToBalance(v))
    case AddToBalance(a, v) => ChangeBalance(db, s, a, Credit(v))
    case SubtractFromBalance(a, v) => ChangeBalance(db, s, a, Debit(v))
    case SetNonce(a, n) => Put(db, s, a, ToNonce(n))
    case DeployCode(a, code) => SetCode(db, keccak, s, a, code)
    case WriteStorage(a, k, v) => SetStorage(db, s, a, k, v)
    case MakeContract(a) => CreateContract(db, s, a)
    case TouchAccount(a) => Touch(s, a)
    case SelfDestruct(a) => RecordSuicide(s, a)
    case WarmAccount(a) => AccessAccount(s, a)
    case WarmStorage(a, k) => AccessStorage(s, a, k)
    case AddLog(log) => s.(logs := s.logs + [log])
    case AddRefund(n) => s.(refund := (s.refund + n) % TWO_64)
    case SubtractRefund(n) => s.(refund := (s.refund - n) % TWO_64)
  }

  // --- undoing ---

  function Undo(s: State, delta: Delta): (t: State)
  {
    match delta
    case Create(a) => s.(objects := s.objects - {a})
    case Update(a, previous) => s.(objects := s.objects[a := previous])
    case Suicide(a) => s.(selfDestructs := s.selfDestructs - {a})
    case Touched(a) => s.(touched := s.touched - {a})
    case StorageChange(a, k, prior) =>
      s.(storage := s.storage[a := StorageOf(s, a).(current := StorageOf(s, a).current[k := prior])])
    case StorageWipe(a, storage) => s.(storage := s.storage[a := storage])
    case StorageCreate(a) => s.(storage := s.storage - {a})
    case StorageAccess(a, k) => s.(accessedKeys := s.accessedKeys[a := AccessedKeys(s, a) - {k}])
    case AccountAccess(a) => s.(accessedAddresses := s.accessedAddresses - {a})
  }

  /** Undoes the deltas from the last to the first. */
  function UndoAll(s: State, deltas: seq<Delta>): (t: State)
    decreases |deltas|
  {
    if deltas == [] then s
    else UndoAll(Undo(s, deltas[|deltas| - 1]), deltas[..|deltas| - 1])
  }

  datatype Snapshot = Snapshot(journalSize: nat, logSize: nat, refund: nat)

  function TakeSnapshot(s: State): (snapshot: Snapshot)
  {
    Snapshot(|s.journal|, |s.logs|, s.refund)
  }

  function Revert(s: State, snapshot: Snapshot): (t: State)
    requires snapshot.journalSize <= |s.journal| && snapshot.logSize <= |s.logs|
  {
    UndoAll(s, s.journal[snapshot.journalSize..])
    .(journal := s.journal[..snapshot.journalSize], logs := s.logs[..snapshot.logSize], refund := snapshot.refund)
  }

  // --- the end of a transaction ---

  function Destruct(db: Db, s: State, a: Address): (t: State)
  {
    var t := Fetch(db, s.(storage := s.storage - {a}), a);
    if a in t.objects then t.(objects := t.objects[a := t.objects[a].(current := None)]) else t
  }

  /** All of `gone` destructed, in any order. */
  function DestructAll(db: Db, s: State, gone: set<Address>): (t: State)
  {
    s.(storage := s.storage - gone,
       objects := map a | a in s.objects.Keys + (gone * db.accounts.Keys) ::
         var o := ObjectIn(db, s.objects, a).value;
         if a in gone then o.(current := None) else o)
  }

  lemma DestructNone(db: Db, s: State)
    ensures DestructAll(db, s, {}) == s
  {
    assert DestructAll(db, s, {}).objects == s.objects;
  }

  lemma DestructAllAt(db: Db, s: State, gone: set<Address>, b: Address)
    ensures var o := DestructAll(db, s, gone).objects;
      && (b in o <==> b in s.objects || (b in db.accounts && b in gone))
      && (b in o ==> ObjectIn(db, s.objects, b).Some?)
      && (b in o ==>
            o[b] == if b in gone then ObjectIn(db, s.objects, b).value.(current := None) else ObjectIn(db, s.objects, b).value)
  {
  }

  lemma DestructAllRest(db: Db, s: State, gone: set<Address>)
    ensures DestructAll(db, s, gone) == s.(storage := s.storage - gone, objects := DestructAll(db, s, gone).objects)
  {
  }

  lemma DestructStep(db: Db, s: State, a: Address, gone: set<Address>)
    ensures Destruct(db, DestructAll(db, s, gone), a) == DestructAll(db, s, gone + {a})
  {
    hide DestructAll, Destruct;
    var w := DestructAll(db, s, gone);
    var x, y := Destruct(db, w, a), DestructAll(db, s, gone + {a});
    DestructAllRest(db, s, gone);
    DestructAllRest(db, s, gone + {a});
    assert s.storage - gone - {a} == s.storage - (gone + {a});
    DestructedRest(db, w, a);
    forall b
      ensures b in x.objects <==> b in y.objects
      ensures b in x.objects ==> x.objects[b] == y.objects[b]
    {
      DestructAllAt(db, s, gone, b);
      DestructAllAt(db, s, gone + {a}, b);
      DestructedAt(db, w, a, b);
    }
    assert x.objects == y.objects;
  }

  lemma DestructedRest(db: Db, s: State, a: Address)
    ensures Destruct(db, s, a) == s.(storage := s.storage - {a}, objects := Destruct(db, s, a).objects)
  {
  }

  lemma DestructedAt(db: Db, s: State, a: Address, b: Address)
    ensures var o := Destruct(db, s, a).objects;
      && (b in o <==> b in s.objects || (b == a && a in db.accounts))
      && (b in o ==> ObjectIn(db, s.objects, b).Some?)
      && (b in o ==>
            o[b] == if b == a then ObjectIn(db, s.objects, b).value.(current := None) else s.objects[b])
  {
  }

  /** `is_dead` loads every touched account; the dead among them disappear. */
  function Load(db: Db, s: State, addresses: set<Address>): (t: State)
  {
    s.(objects := map a | a in s.objects.Keys + (addresses * db.accounts.Keys) :: ObjectIn(db, s.objects, a).value)
  }

  function ClearDead(db: Db, s: State): (t: State)
  {
    DestructAll(db, Load(db, s, s.touched), set a | a in s.touched && Dead(db, s, a))
  }

  lemma LoadKeeps(db: Db, s: State, addresses: set<Address>)
    ensures forall a :: ObjectIn(db, Load(db, s, addresses).objects, a) == ObjectIn(db, s.objects, a)
  {
  }

  lemma LoadedAt(db: Db, s: State, loaded: set<Address>, gone: set<Address>, b: Address)
    ensures var o := DestructAll(db, Load(db, s, loaded), gone).objects;
      && (b in o <==> b in s.objects || (b in db.accounts && (b in loaded || b in gone)))
      && (b in o ==> ObjectIn(db, s.objects, b).Some?)
      && (b in o ==>
            o[b] == if b in gone then ObjectIn(db, s.objects, b).value.(current := None) else ObjectIn(db, s.objects, b).value)
  {
  }

  lemma LoadedRest(db: Db, s: State, loaded: set<Address>, gone: set<Address>)
    ensures var t := DestructAll(db, Load(db, s, loaded), gone);
      t == s.(storage := s.storage - gone, objects := t.objects)
  {
  }

  /** Looking at one more account commutes with the destruction of others. */
  lemma LoadStep(db: Db, s: State, loaded: set<Address>, gone: set<Address>, a: Address)
    ensures Fetch(db, DestructAll(db, Load(db, s, loaded), gone), a) == DestructAll(db, Load(db, s, loaded + {a}), gone)
    ensures a !in gone ==> (Dead(db, DestructAll(db, Load(db, s, loaded), gone), a) <==> Dead(db, s, a))
  {
    hide DestructAll, Load;
    var w := DestructAll(db, Load(db, s, loaded), gone);
    var x, y := Fetch(db, w, a), DestructAll(db, Load(db, s, loaded + {a}), gone);
    LoadedAt(db, s, loaded, gone, a);
    LoadedRest(db, s, loaded, gone);
    LoadedRest(db, s, loaded + {a}, gone);
    forall b
      ensures b in x.objects <==> b in y.objects
      ensures b in x.objects ==> x.objects[b] == y.objects[b]
    {
      LoadedAt(db, s, loaded, gone, b);
      LoadedAt(db, s, loaded + {a}, gone, b);
    }
    assert x.objects == y.objects;
  }

  lemma LoadNone(db: Db, s: State)
    ensures DestructAll(db, Load(db, s, {}), {}) == s
  {
    assert Load(db, s, {}).objects == s.objects;
    DestructNone(db, s);
  }

  /** The accounts that a transaction removes; `clearDead` from Spurious Dragon on. */
  function Gone(db: Db, s: State, clearDead: bool): (gone: set<Address>)
  {
    var t := DestructAll(db, s, s.selfDestructs);
    s.selfDestructs + if clearDead then set a | a in s.touched && Dead(db, t, a) else {}
  }

  function CommittedStorage(x: Storage): (y: Storage)
  {
    Storage(map k | k in x.committed.Keys + x.current.Keys ::
              if k in x.current then
                Committed(if k in x.committed then x.committed[k].initial else 0, x.current[k])
              else x.committed[k],
            map[])
  }

  /** `finalize_transaction`. */
  function Finalize(s: State): (t: State)
  {
    s.(storage := map a | a in s.storage :: CommittedStorage(s.storage[a]))
  }

  /** `clear_journal_and_substate`. */
  function ClearSubstate(s: State): (t: State)
  {
    s.(journal := [], selfDestructs := {}, logs := [], touched := {}, refund := 0,
       accessedAddresses := {}, accessedKeys := map[])
  }

  // --- what a revert restores ---

  ghost predicate SameObjects(db: Db, x: Objects, y: Objects)
  {
    forall a :: ObjectIn(db, x, a) == ObjectIn(db, y, a)
  }

  /** Two storages of an account observe the same, and the second has at least the
      committed entries of the first. */
  ghost predicate SameSlots(db: Db, a: Address, o: Option<Object>, x: Storage, y: Storage)
  {
    forall k ::
      && CommittedAt(db, a, o, x, k) == CommittedAt(db, a, o, y, k)
      && CurrentAt(db, a, o, x, k) == CurrentAt(db, a, o, y, k)
      && (k in x.committed ==> k in y.committed)
  }

  ghost predicate SameStorage(db: Db, objects: Objects, x: Storages, y: Storages)
  {
    forall a | AccountIn(db, objects, a).Some? ::
      SameSlots(db, a, ObjectIn(db, objects, a), StorageIn(x, a), StorageIn(y, a))
  }

  ghost predicate SameKeys(x: map<Address, set<Word>>, y: map<Address, set<Word>>)
  {
    forall a :: KeysIn(x, a) == KeysIn(y, a)
  }

  /** `t` observes as `s` does; it may have filled more of its caches. */
  ghost predicate Restores(db: Db, s: State, t: State)
  {
    && SameObjects(db, s.objects, t.objects)
    && SameStorage(db, s.objects, s.storage, t.storage)
    && s.selfDestructs == t.selfDestructs
    && s.touched - {RIPEMD} == t.touched - {RIPEMD}
    && s.accessedAddresses == t.accessedAddresses
    && SameKeys(s.accessedKeys, t.accessedKeys)
  }

  /** From any state that observes as `t`, undoing what the journal gained since `s`
      leads back to `s`. */
  ghost predicate Undoable(db: Db, s: State, t: State)
  {
    && s.journal <= t.journal
    && forall u | Restores(db, t, u) :: Restores(db, s, UndoAll(u, t.journal[|s.journal|..]))
  }

  lemma {:induction false} UndoAllConcat(s: State, x: seq<Delta>, y: seq<Delta>)
    ensures UndoAll(s, x + y) == UndoAll(UndoAll(s, y), x)
    decreases |y|
  {
    if y == [] {
      assert x + y == x;
    } else {
      assert (x + y)[..|x + y| - 1] == x + y[..|y| - 1];
      UndoAllConcat(Undo(s, y[|y| - 1]), x, y[..|y| - 1]);
    }
  }

  lemma UndoableTransitive(db: Db, s: State, t: State, u: State)
    requires Undoable(db, s, t) && Undoable(db, t, u)
    ensures Undoable(db, s, u)
  {
    var x, y := t.journal[|s.journal|..], u.journal[|t.journal|..];
    assert u.journal[|s.journal|..] == x + y;
    forall w | Restores(db, u, w)
      ensures Restores(db, s, UndoAll(w, x + y))
    {
      UndoAllConcat(w, x, y);
      assert Restores(db, t, UndoAll(w, y));
    }
  }

  /** Replacing a state by one that observes the same keeps it undoable. */
  lemma UndoableFrom(db: Db, s: State, t: State, t': State)
    requires Undoable(db, s, t) && Restores(db, t, t') && t'.journal == t.journal
    ensures Undoable(db, s, t')
  {
    forall u | Restores(db, t', u)
      ensures Restores(db, s, UndoAll(u, t'.journal[|s.journal|..]))
    {
      assert Restores(db, t, u);
    }
  }

  lemma Unjournaled(db: Db, s: State, t: State)
    requires t.journal == s.journal && Restores(db, s, t)
    ensures Undoable(db, s, t)
  {
    assert t.journal[|s.journal|..] == [];
    forall u | Restores(db, t, u)
      ensures Restores(db, s, UndoAll(u, []))
    {
    }
  }

  /** A single delta. */
  lemma Journaled(db: Db, s: State, t: State, delta: Delta)
    requires t.journal == s.journal + [delta]
    requires forall u | Restores(db, t, u) :: Restores(db, s, Undo(u, delta))
    ensures Undoable(db, s, t)
  {
    assert t.journal[|s.journal|..] == [delta];
    forall u | Restores(db, t, u)
      ensures Restores(db, s, UndoAll(u, [delta]))
    {
      assert UndoAll(u, [delta]) == UndoAll(Undo(u, delta), []);
    }
  }

  // --- every operation can be undone ---

  lemma RestoresReflexive(db: Db, s: State)
    ensures Restores(db, s, s)
  {
  }

  lemma FetchUndoable(db: Db, s: State, a: Address)
    ensures Undoable(db, s, Fetch(db, s, a))
    ensures SameObjects(db, s.objects, Fetch(db, s, a).objects)
  {
    Unjournaled(db, s, Fetch(db, s, a));
  }

  lemma FilledSame(db: Db, a: Address, o: Object, storage: Storage, k: Word, original: bool)
    requires o.current.Some?
    ensures SameSlots(db, a, Some(o), storage, Filled(db, a, o, storage, k, original))
  {
  }

  lemma FetchStorageRestores(db: Db, s: State, a: Address, k: Word, original: bool)
    ensures Restores(db, s, FetchStorage(db, s, a, k, original))
    ensures FetchStorage(db, s, a, k, original).journal == s.journal
  {
    hide SameSlots, Filled, Fetch;
    var t, u := Fetch(db, s, a), FetchStorage(db, s, a, k, original);
    FetchUndoable(db, s, a);
    FetchRest(db, s, a);
    forall b | AccountIn(db, s.objects, b).Some?
      ensures SameSlots(db, b, ObjectIn(db, s.objects, b), StorageIn(s.storage, b), StorageIn(u.storage, b))
    {
      if b == a {
        FilledSame(db, a, ObjectIn(db, t.objects, a).value, StorageIn(s.storage, a), k, original);
      } else {
        SlotsReflexive(db, b, ObjectIn(db, s.objects, b), StorageIn(s.storage, b));
      }
    }
  }

  lemma FetchRest(db: Db, s: State, a: Address)
    ensures Fetch(db, s, a) == s.(objects := Fetch(db, s, a).objects)
    ensures ObjectIn(db, Fetch(db, s, a).objects, a) == ObjectIn(db, s.objects, a)
  {
  }

  lemma SlotsReflexive(db: Db, a: Address, o: Option<Object>, x: Storage)
    ensures SameSlots(db, a, o, x, x)
  {
  }

  /** Undoing a change to the object of `a` whose account keeps its incarnation, or was not live. */
  lemma ObjectUndoable(db: Db, s: State, t: State, a: Address, delta: Delta)
    requires if a in s.objects then delta == Update(a, s.objects[a]) else delta == Create(a) && a !in db.accounts
    requires a in t.objects && t == Log(s, delta).(objects := s.objects[a := t.objects[a]])
    requires AccountOf(db, s, a).Some? ==>
      && t.objects[a].initial == s.objects[a].initial
      && t.objects[a].current.Some?
      && t.objects[a].current.value.incarnation == s.objects[a].current.value.incarnation
    ensures Undoable(db, s, t)
  {
    forall w | Restores(db, t, w)
      ensures Restores(db, s, Undo(w, delta))
    {
      var r := Undo(w, delta);
      forall b
        ensures ObjectIn(db, s.objects, b) == ObjectIn(db, r.objects, b)
      {
        assert ObjectIn(db, t.objects, b) == ObjectIn(db, w.objects, b);
      }
      forall b | AccountIn(db, s.objects, b).Some?
        ensures SameSlots(db, b, ObjectIn(db, s.objects, b), StorageIn(s.storage, b), StorageIn(r.storage, b))
      {
        assert AccountIn(db, t.objects, b).Some?;
        SlotsIgnoreEdits(db, b, ObjectIn(db, t.objects, b), ObjectIn(db, s.objects, b),
                         StorageIn(t.storage, b), StorageIn(w.storage, b));
      }
    }
    Journaled(db, s, t, delta);
  }

  lemma SlotsIgnoreEdits(db: Db, a: Address, o: Option<Object>, o': Option<Object>, x: Storage, y: Storage)
    requires SameSlots(db, a, o, x, y)
    requires o.Some? && o'.Some? && o.value.initial == o'.value.initial
    requires o.value.current.Some? && o'.value.current.Some?
    requires o.value.current.value.incarnation == o'.value.current.value.incarnation
    ensures SameSlots(db, a, o', x, y)
  {
    forall k
      ensures CommittedAt(db, a, o, x, k) == CommittedAt(db, a, o', x, k)
      ensures CommittedAt(db, a, o, y, k) == CommittedAt(db, a, o', y, k)
      ensures CurrentAt(db, a, o, x, k) == CurrentAt(db, a, o', x, k)
      ensures CurrentAt(db, a, o, y, k) == CurrentAt(db, a, o', y, k)
    {
    }
  }

  lemma ObtainUndoable(db: Db, s: State, a: Address)
    ensures Undoable(db, s, Obtain(db, s, a))
  {
    var t, u := Fetch(db, s, a), Obtain(db, s, a);
    FetchUndoable(db, s, a);
    if t != u {
      ObjectUndoable(db, t, u, a, u.journal[|s.journal|]);
      UndoableTransitive(db, s, t, u);
    }
  }

  lemma PutUndoable(db: Db, s: State, a: Address, e: Edit)
    ensures Undoable(db, s, Put(db, s, a, e))
  {
    var t, u := Obtain(db, s, a), Put(db, s, a, e);
    ObtainUndoable(db, s, a);
    ObjectUndoable(db, t, u, a, Update(a, t.objects[a]));
    UndoableTransitive(db, s, t, u);
  }

  lemma TouchUndoable(db: Db, s: State, a: Address)
    ensures Undoable(db, s, Touch(s, a))
  {
    var t := Touch(s, a);
    if a in s.touched || a == RIPEMD {
      Unjournaled(db, s, t);
    } else {
      forall u | Restores(db, t, u)
        ensures Restores(db, s, Undo(u, Touched(a)))
      {
        assert s.touched - {RIPEMD} == (t.touched - {RIPEMD}) - {a} == (u.touched - {a}) - {RIPEMD};
      }
      Journaled(db, s, t, Touched(a));
    }
  }

  /** Contract creation journals the object first and the storage second; undone
      together they restore both exactly. */
  lemma CreateContractUndoable(db: Db, s: State, a: Address)
    ensures Undoable(db, s, CreateContract(db, s, a))
  {
    var t, c, u := Fetch(db, s, a), CreateObject(db, s, a), CreateContract(db, s, a);
    FetchUndoable(db, s, a);
    var d := if a in t.objects then Update(a, t.objects[a]) else Create(a);
    var e := if a in c.storage then StorageWipe(a, c.storage[a]) else StorageCreate(a);
    assert ObjectIn(db, s.objects, a) == ObjectIn(db, t.objects, a);
    assert c == Log(t, d).(objects := t.objects[a := c.objects[a]]);
    CreationUndoable(db, t, c, u, a, d, e);
    UndoableTransitive(db, s, t, u);
  }

  lemma CreationUndoable(db: Db, t: State, c: State, u: State, a: Address, d: Delta, e: Delta)
    requires a in c.objects && c == Log(t, d).(objects := t.objects[a := c.objects[a]])
    requires if a in t.objects then d == Update(a, t.objects[a]) else d == Create(a) && a !in db.accounts
    requires e == if a in c.storage then StorageWipe(a, c.storage[a]) else StorageCreate(a)
    requires u == WipeStorage(c, a)
    ensures Undoable(db, t, u)
  {
    hide Restores;
    forall w | Restores(db, u, w)
      ensures Restores(db, t, UndoAll(w, [d, e]))
    {
      assert [d, e][..1] == [d];
      assert UndoAll(w, [d, e]) == UndoAll(Undo(w, e), [d]) == Undo(Undo(w, e), d);
      UndoCreation(db, t, c, u, w, a, d, e);
    }
    assert u.journal == t.journal + [d, e];
    assert u.journal[|t.journal|..] == [d, e];
  }

  lemma UndoCreation(db: Db, t: State, c: State, u: State, w: State, a: Address, d: Delta, e: Delta)
    requires a in c.objects && c == Log(t, d).(objects := t.objects[a := c.objects[a]])
    requires if a in t.objects then d == Update(a, t.objects[a]) else d == Create(a) && a !in db.accounts
    requires e == if a in c.storage then StorageWipe(a, c.storage[a]) else StorageCreate(a)
    requires u == WipeStorage(c, a) && Restores(db, u, w)
    ensures Restores(db, t, Undo(Undo(w, e), d))
  {
    hide SameSlots;
    var r := Undo(Undo(w, e), d);
    forall b
      ensures ObjectIn(db, t.objects, b) == ObjectIn(db, r.objects, b)
    {
      assert ObjectIn(db, u.objects, b) == ObjectIn(db, w.objects, b);
    }
    forall b | AccountIn(db, t.objects, b).Some?
      ensures SameSlots(db, b, ObjectIn(db, t.objects, b), StorageIn(t.storage, b), StorageIn(r.storage, b))
    {
      if b == a {
        SlotsReflexive(db, a, ObjectIn(db, t.objects, a), StorageIn(t.storage, a));
      } else {
        assert AccountIn(db, u.objects, b).Some?;
      }
    }
  }

  lemma SetStorageUndoable(db: Db, s: State, a: Address, k: Word, v: Word)
    ensures Undoable(db, s, SetStorage(db, s, a, k, v))
  {
    var t, u := FetchStorage(db, s, a, k, false), SetStorage(db, s, a, k, v);
    FetchStorageRestores(db, s, a, k, false);
    Unjournaled(db, s, t);
    if CurrentStorage(db, s, a, k) != v {
      var d := StorageChange(a, k, CurrentStorage(db, s, a, k));
      assert ObjectIn(db, s.objects, a) == ObjectIn(db, t.objects, a);
      assert Live(db, s, a) ==> CurrentStorage(db, t, a, k) == CurrentStorage(db, s, a, k);
      forall w | Restores(db, u, w)
        ensures Restores(db, t, Undo(w, d))
      {
        UndoWrite(db, t, u, w, a, k, v, CurrentStorage(db, s, a, k));
      }
      Journaled(db, t, u, d);
      UndoableTransitive(db, s, t, u);
    }
  }

  lemma UndoWrite(db: Db, t: State, u: State, w: State, a: Address, k: Word, v: Word, prior: Word)
    requires var x := StorageOf(t, a);
      u == Log(t, StorageChange(a, k, prior)).(storage := t.storage[a := x.(current := x.current[k := v])])
    requires Live(db, t, a) ==> prior == CurrentStorage(db, t, a, k)
    requires Restores(db, u, w)
    ensures Restores(db, t, Undo(w, StorageChange(a, k, prior)))
  {
    hide SameSlots;
    var r := Undo(w, StorageChange(a, k, prior));
    forall b | AccountIn(db, t.objects, b).Some?
      ensures SameSlots(db, b, ObjectIn(db, t.objects, b), StorageIn(t.storage, b), StorageIn(r.storage, b))
    {
      if b == a {
        UndoSlot(db, a, ObjectIn(db, t.objects, a), StorageIn(t.storage, a), StorageIn(u.storage, a),
                 StorageIn(w.storage, a), k, v);
      }
    }
  }

  lemma UndoSlot(db: Db, a: Address, o: Option<Object>, x: Storage, y: Storage, z: Storage, k: Word, v: Word)
    requires y == x.(current := x.current[k := v]) && SameSlots(db, a, o, y, z)
    ensures SameSlots(db, a, o, x, z.(current := z.current[k := CurrentAt(db, a, o, x, k)]))
  {
    var r := z.(current := z.current[k := CurrentAt(db, a, o, x, k)]);
    forall j
      ensures CommittedAt(db, a, o, x, j) == CommittedAt(db, a, o, r, j)
      ensures CurrentAt(db, a, o, x, j) == CurrentAt(db, a, o, r, j)
      ensures j in x.committed ==> j in r.committed
    {
      assert CommittedAt(db, a, o, y, j) == CommittedAt(db, a, o, z, j);
      assert CurrentAt(db, a, o, y, j) == CurrentAt(db, a, o, z, j);
    }
  }

  lemma SuicideUndoable(db: Db, s: State, a: Address)
    ensures Undoable(db, s, RecordSuicide(s, a))
  {
    if a in s.selfDestructs {
      Unjournaled(db, s, s);
    } else {
      var t := RecordSuicide(s, a);
      forall u | Restores(db, t, u)
        ensures Restores(db, s, Undo(u, Suicide(a)))
      {
        assert s.selfDestructs == t.selfDestructs - {a};
      }
      Journaled(db, s, t, Suicide(a));
    }
  }

  lemma AccessUndoable(db: Db, s: State, a: Address)
    ensures Undoable(db, s, AccessAccount(s, a))
  {
    if a in s.accessedAddresses {
      Unjournaled(db, s, s);
    } else {
      var t := AccessAccount(s, a);
      forall u | Restores(db, t, u)
        ensures Restores(db, s, Undo(u, AccountAccess(a)))
      {
        assert s.accessedAddresses == t.accessedAddresses - {a};
      }
      Journaled(db, s, t, AccountAccess(a));
    }
  }

  lemma AccessStorageUndoable(db: Db, s: State, a: Address, k: Word)
    ensures Undoable(db, s, AccessStorage(s, a, k))
  {
    var t := AccessStorage(s, a, k);
    if k in AccessedKeys(s, a) {
      forall b
        ensures KeysIn(s.accessedKeys, b) == KeysIn(t.accessedKeys, b)
      {
      }
      Unjournaled(db, s, t);
    } else {
      forall u | Restores(db, t, u)
        ensures Restores(db, s, Undo(u, StorageAccess(a, k)))
      {
        var r := Undo(u, StorageAccess(a, k));
        forall b
          ensures KeysIn(s.accessedKeys, b) == KeysIn(r.accessedKeys, b)
        {
          assert KeysIn(t.accessedKeys, b) == KeysIn(u.accessedKeys, b);
          if b == a {
            assert KeysIn(t.accessedKeys, a) == KeysIn(s.accessedKeys, a) + {k};
            assert KeysIn(r.accessedKeys, a) == KeysIn(u.accessedKeys, a) - {k};
          }
        }
      }
      Journaled(db, s, t, StorageAccess(a, k));
    }
  }

  lemma ApplyUndoable(db: Db, keccak: Bytes -> Word, s: State, op: Op)
    ensures Undoable(db, s, Apply(db, keccak, s, op))
  {
    hide Undoable, Restores, Fetch, FetchCode, FetchStorage, Put, ChangeBalance, SetCode, CreateContract, SetStorage, Touch,
      RecordSuicide, AccessAccount, AccessStorage;
    var t := Apply(db, keccak, s, op);
    match op
    case ReadStorage(a, k, original) =>
      FetchStorageRestores(db, s, a, k, original);
      Unjournaled(db, s, t);
    case SetBalance(a, v) => ChangeBalanceUndoable(db, s, a, ToBalance(v));
    case AddToBalance(a, v) => ChangeBalanceUndoable(db, s, a, Credit(v));
    case SubtractFromBalance(a, v) => ChangeBalanceUndoable(db, s, a, Debit(v));
    case SetNonce(a, n) => PutUndoable(db, s, a, ToNonce(n));
    case DeployCode(a, code) => SetCodeUndoable(db, keccak, s, a, code);
    case WriteStorage(a, k, v) => SetStorageUndoable(db, s, a, k, v);
    case MakeContract(a) => CreateContractUndoable(db, s, a);
    case TouchAccount(a) => TouchUndoable(db, s, a);
    case SelfDestruct(a) => SuicideUndoable(db, s, a);
    case WarmAccount(a) => AccessUndoable(db, s, a);
    case WarmStorage(a, k) => AccessStorageUndoable(db, s, a, k);
    case ReadAccount(a) => FetchUndoable(db, s, a);
    case ReadCode(a) => FetchCodeUndoable(db, s, a);
    case _ =>
      SameViews(db, s, t);
      Unjournaled(db, s, t);
  }

  lemma SetCodeUndoable(db: Db, keccak: Bytes -> Word, s: State, a: Address, code: Bytes)
    ensures Undoable(db, s, SetCode(db, keccak, s, a, code))
  {
    hide Undoable, Restores, Put;
    var put, t := Put(db, s, a, ToCodeHash(keccak(code))), SetCode(db, keccak, s, a, code);
    PutUndoable(db, s, a, ToCodeHash(keccak(code)));
    SameViews(db, put, t);
    UndoableFrom(db, s, put, t);
  }

  lemma FetchCodeUndoable(db: Db, s: State, a: Address)
    ensures Undoable(db, s, FetchCode(db, s, a))
  {
    hide Undoable, Restores, Fetch;
    var u, t := Fetch(db, s, a), FetchCode(db, s, a);
    FetchUndoable(db, s, a);
    SameViews(db, u, t);
    UndoableFrom(db, s, u, t);
  }

  /** Code, logs and the refund are not among the views that deltas restore. */
  lemma SameViews(db: Db, s: State, t: State)
    requires t.objects == s.objects && t.storage == s.storage && t.selfDestructs == s.selfDestructs
    requires t.touched == s.touched && t.accessedAddresses == s.accessedAddresses && t.accessedKeys == s.accessedKeys
    ensures Restores(db, s, t)
  {
  }

  lemma ChangeBalanceUndoable(db: Db, s: State, a: Address, e: Edit)
    ensures Undoable(db, s, ChangeBalance(db, s, a, e))
  {
    PutUndoable(db, s, a, e);
    TouchUndoable(db, Put(db, s, a, e), a);
    UndoableTransitive(db, s, Put(db, s, a, e), ChangeBalance(db, s, a, e));
  }

  // --- what an edit and a creation leave in the caches ---

  lemma PutShape(db: Db, s: State, a: Address, e: Edit)
    ensures var t, o := Put(db, s, a, e), ObjectIn(db, s.objects, a);
      && t.storage == s.storage && t.code == s.code && s.objects.Keys <= t.objects.Keys
      && ObjectIn(db, t.objects, a) ==
         Some(Object(if o.Some? then o.value.initial else None,
                     Some(Edited(if o.Some? && o.value.current.Some? then o.value.current.value else EMPTY_ACCOUNT, e))))
      && forall b | b != a :: ObjectIn(db, s.objects, b) == ObjectIn(db, t.objects, b)
  {
    hide Edited, Obtain;
    ObtainShape(db, s, a);
  }

  lemma ObtainShape(db: Db, s: State, a: Address)
    ensures var t, o := Obtain(db, s, a), ObjectIn(db, s.objects, a);
      && t.storage == s.storage && t.code == s.code && s.objects.Keys <= t.objects.Keys
      && t.objects[a] == Object(if o.Some? then o.value.initial else None,
                                Some(if o.Some? && o.value.current.Some? then o.value.current.value else EMPTY_ACCOUNT))
      && forall b | b != a :: ObjectIn(db, s.objects, b) == ObjectIn(db, t.objects, b)
  {
    hide Fetch;
    FetchRest(db, s, a);
    FetchAt(db, s, a);
    var u := Fetch(db, s, a);
    forall b | b != a ensures ObjectIn(db, s.objects, b) == ObjectIn(db, u.objects, b) {
      assert Get(u.objects, b) == Get(s.objects, b);
    }
  }

  lemma FetchAt(db: Db, s: State, a: Address)
    ensures var t := Fetch(db, s, a);
      && s.objects.Keys <= t.objects.Keys && Get(t.objects, a) == ObjectIn(db, s.objects, a)
      && forall b | b != a :: Get(t.objects, b) == Get(s.objects, b)
  {
  }

  /** What contract creation leaves in the caches. */
  lemma CreatedShape(db: Db, s: State, a: Address)
    ensures var u, o := CreateContract(db, s, a), ObjectIn(db, s.objects, a);
      var balance := if o.Some? && o.value.current.Some? then o.value.current.value.balance else 0;
      && ObjectIn(db, u.objects, a) ==
         Some(Object(if o.Some? then o.value.initial else None,
                     Some(Account(0, balance, EMPTY_HASH, NewIncarnation(db, s, a)))))
      && StorageIn(u.storage, a) == NO_STORAGE
      && s.objects.Keys <= u.objects.Keys && u.storage.Keys <= s.storage.Keys && u.code == s.code
      && (forall b | b != a :: ObjectIn(db, s.objects, b) == ObjectIn(db, u.objects, b))
      && (forall b | b != a :: StorageIn(s.storage, b) == StorageIn(u.storage, b))
  {
    hide NewIncarnation, CreateObject;
    CreatedObject(db, s, a);
    var c := CreateObject(db, s, a);
    assert StorageIn(WipeStorage(c, a).storage, a) == NO_STORAGE;
  }

  lemma CreatedObject(db: Db, s: State, a: Address)
    ensures var c, o := CreateObject(db, s, a), ObjectIn(db, s.objects, a);
      var balance := if o.Some? && o.value.current.Some? then o.value.current.value.balance else 0;
      && c.storage == s.storage && c.code == s.code && s.objects.Keys <= c.objects.Keys
      && ObjectIn(db, c.objects, a) ==
         Some(Object(if o.Some? then o.value.initial else None,
                     Some(Account(0, balance, EMPTY_HASH, NewIncarnation(db, s, a)))))
      && forall b | b != a :: ObjectIn(db, s.objects, b) == ObjectIn(db, c.objects, b)
  {
    hide NewIncarnation;
  }

  // --- whole runs ---

  /** A step of the code between two transactions: an operation, `take_snapshot`, or
      `revert_to_snapshot` with a snapshot that has not been reverted past. */
  datatype Step = Do(op: Op) | Take | RevertTo(i: nat)

  /** A snapshot with the state in which it was taken. */
  datatype Mark = Mark(snapshot: Snapshot, saved: State)

  datatype Machine = Machine(now: State, marks: seq<Mark>)

  /** `cur` descends from `saved`, where `snapshot` was taken. */
  ghost predicate Descends(db: Db, saved: State, cur: State)
  {
    Undoable(db, saved, cur) && saved.logs <= cur.logs
  }

  ghost predicate Consistent(db: Db, m: Machine)
  {
    && (forall i | 0 <= i < |m.marks| :: m.marks[i].snapshot == TakeSnapshot(m.marks[i].saved))
    && (forall i | 0 <= i < |m.marks| :: Descends(db, m.marks[i].saved, m.now))
    && (forall i, j | 0 <= i <= j < |m.marks| :: Descends(db, m.marks[i].saved, m.marks[j].saved))
  }

  /** What a snapshot must bring back: every observation of the interface. */
  ghost predicate SameObservations(db: Db, s: State, t: State)
  {
    && (forall a :: AccountOf(db, t, a) == AccountOf(db, s, a))
    && (forall a, k :: CurrentStorage(db, t, a, k) == CurrentStorage(db, s, a, k))
    && (forall a, k :: OriginalStorage(db, t, a, k) == OriginalStorage(db, s, a, k))
    && t.selfDestructs == s.selfDestructs
    && t.logs == s.logs
    && t.refund == s.refund
    && t.touched - {RIPEMD} == s.touched - {RIPEMD}
    && t.accessedAddresses == s.accessedAddresses
    && (forall a :: AccessedKeys(t, a) == AccessedKeys(s, a))
  }

  lemma RestoredObservations(db: Db, s: State, t: State)
    requires Restores(db, s, t) && t.logs == s.logs && t.refund == s.refund
    ensures SameObservations(db, s, t)
  {
    forall a
      ensures AccountOf(db, t, a) == AccountOf(db, s, a)
      ensures AccessedKeys(t, a) == AccessedKeys(s, a)
    {
      assert ObjectIn(db, t.objects, a) == ObjectIn(db, s.objects, a);
      assert KeysIn(t.accessedKeys, a) == KeysIn(s.accessedKeys, a);
    }
    forall a, k
      ensures CurrentStorage(db, t, a, k) == CurrentStorage(db, s, a, k)
      ensures OriginalStorage(db, t, a, k) == OriginalStorage(db, s, a, k)
    {
      assert ObjectIn(db, t.objects, a) == ObjectIn(db, s.objects, a);
      if AccountIn(db, s.objects, a).Some? {
        var o := ObjectIn(db, s.objects, a);
        assert SameSlots(db, a, o, StorageIn(s.storage, a), StorageIn(t.storage, a));
        assert CommittedAt(db, a, o, StorageIn(s.storage, a), k) == CommittedAt(db, a, o, StorageIn(t.storage, a), k);
      }
    }
  }

  /** Reverting to a snapshot brings back every observation made when it was taken. */
  lemma RevertRestores(db: Db, saved: State, cur: State)
    requires Descends(db, saved, cur)
    ensures var snapshot := TakeSnapshot(saved);
      && snapshot.journalSize <= |cur.journal| && snapshot.logSize <= |cur.logs|
      && var t := Revert(cur, snapshot);
         && Restores(db, saved, t)
         && t.journal == saved.journal
         && SameObservations(db, saved, t)
  {
    RestoresReflexive(db, cur);
    var u := UndoAll(cur, cur.journal[|saved.journal|..]);
    assert Restores(db, saved, u);
    var t := Revert(cur, TakeSnapshot(saved));
    SameViews(db, u, t);
    RestoresTransitive(db, saved, u, t);
    RestoredObservations(db, saved, t);
  }

  lemma RestoresTransitive(db: Db, s: State, t: State, u: State)
    requires Restores(db, s, t) && Restores(db, t, u)
    ensures Restores(db, s, u)
  {
  }

  function Next(db: Db, keccak: Bytes -> Word, m: Machine, step: Step): (n: Machine)
    requires step.RevertTo? ==> step.i < |m.marks|
    requires step.RevertTo? ==> m.marks[step.i].snapshot.journalSize <= |m.now.journal|
    requires step.RevertTo? ==> m.marks[step.i].snapshot.logSize <= |m.now.logs|
  {
    match step
    case Do(op) => m.(now := Apply(db, keccak, m.now, op))
    case Take => m.(marks := m.marks + [Mark(TakeSnapshot(m.now), m.now)])
    case RevertTo(i) => Machine(Revert(m.now, m.marks[i].snapshot), m.marks[..i + 1])
  }

  lemma ApplyExtendsLogs(db: Db, keccak: Bytes -> Word, s: State, op: Op)
    ensures s.logs <= Apply(db, keccak, s, op).logs
  {
    hide Fetch, FetchCode, FetchStorage, Put, Touch, ChangeBalance, SetCode, CreateContract, SetStorage;
  }

  lemma NextConsistent(db: Db, keccak: Bytes -> Word, m: Machine, step: Step)
    requires Consistent(db, m) && (step.RevertTo? ==> step.i < |m.marks|)
    ensures step.RevertTo? ==>
      m.marks[step.i].snapshot.journalSize <= |m.now.journal| && m.marks[step.i].snapshot.logSize <= |m.now.logs|
    ensures Consistent(db, Next(db, keccak, m, step))
  {
    hide Undoable, Apply;
    match step
    case Do(op) =>
      ApplyUndoable(db, keccak, m.now, op);
      ApplyExtendsLogs(db, keccak, m.now, op);
      forall i | 0 <= i < |m.marks|
        ensures Descends(db, m.marks[i].saved, Apply(db, keccak, m.now, op))
      {
        UndoableTransitive(db, m.marks[i].saved, m.now, Apply(db, keccak, m.now, op));
      }
    case Take =>
      RestoresReflexive(db, m.now);
      Unjournaled(db, m.now, m.now);
    case RevertTo(i) =>
      RevertRestores(db, m.marks[i].saved, m.now);
      var t := Revert(m.now, m.marks[i].snapshot);
      forall j | 0 <= j < i + 1
        ensures Descends(db, m.marks[j].saved, t)
      {
        UndoableFrom(db, m.marks[j].saved, m.marks[i].saved, t);
      }
  }

  /** A run never reverts to a snapshot it does not hold. */
  ghost predicate Proper(marks: nat, steps: seq<Step>)
    decreases |steps|
  {
    steps == [] ||
    match steps[0]
    case Do(_) => Proper(marks, steps[1..])
    case Take => Proper(marks + 1, steps[1..])
    case RevertTo(i) => i < marks && Proper(i + 1, steps[1..])
  }

  ghost function Run(db: Db, keccak: Bytes -> Word, m: Machine, steps: seq<Step>): (n: Machine)
    requires Consistent(db, m) && Proper(|m.marks|, steps)
    ensures Consistent(db, n)
    decreases |steps|
  {
    if steps == [] then m
    else
      NextConsistent(db, keccak, m, steps[0]);
      Run(db, keccak, Next(db, keccak, m, steps[0]), steps[1..])
  }

  /** For every run from any state, with nested snapshots and reverts, reverting to any
      snapshot still held restores every observation. */
  lemma RunThenRevert(db: Db, keccak: Bytes -> Word, s: State, steps: seq<Step>, i: nat)
    requires Proper(0, steps)
    requires i < |Run(db, keccak, Machine(s, []), steps).marks|
    ensures var m := Run(db, keccak, Machine(s, []), steps);
      var mark := m.marks[i];
      && mark.snapshot == TakeSnapshot(mark.saved)
      && mark.snapshot.journalSize <= |m.now.journal| && mark.snapshot.logSize <= |m.now.logs|
      && SameObservations(db, mark.saved, Revert(m.now, mark.snapshot))
  {
    var m := Run(db, keccak, Machine(s, []), steps);
    RevertRestores(db, m.marks[i].saved, m.now);
  }

  // --- code ---

  /** Every cached code is the one that `codeOf` assigns to its hash, and the code of every
      account can be found in the cache or in the database. */
  ghost predicate Resolved(codeOf: Word -> Bytes, db: Db, s: State)
  {
    && (forall h <- s.code :: s.code[h] == codeOf(h))
    && (forall a | Live(db, s, a) ::
          var h := AccountOf(db, s, a).value.codeHash; h == EMPTY_HASH || h in s.code || h in db.code)
  }

  lemma ResolvedCode(codeOf: Word -> Bytes, db: Db, s: State, a: Address)
    requires Resolved(codeOf, db, s) && forall h <- db.code :: db.code[h] == codeOf(h)
    ensures CodeOf(db, s, a) ==
            if Live(db, s, a) && AccountOf(db, s, a).value.codeHash != EMPTY_HASH
            then codeOf(AccountOf(db, s, a).value.codeHash) else []
  {
  }

  lemma AccountsAfter(db: Db, s: State, a: Address, e: Edit, b: Address)
    ensures var t := Put(db, s, a, e);
      && t.code == s.code
      && AccountOf(db, t, b) ==
         if b == a then Some(Edited(if Live(db, s, a) then AccountOf(db, s, a).value else EMPTY_ACCOUNT, e))
         else AccountOf(db, s, b)
  {
    hide Edited, Put;
    PutShape(db, s, a, e);
  }

  lemma PutResolved(codeOf: Word -> Bytes, db: Db, s: State, a: Address, e: Edit)
    requires Resolved(codeOf, db, s) && !e.ToCodeHash?
    ensures Resolved(codeOf, db, Put(db, s, a, e))
  {
    hide Put;
    var t := Put(db, s, a, e);
    forall b | Live(db, t, b)
      ensures var h := AccountOf(db, t, b).value.codeHash; h == EMPTY_HASH || h in t.code || h in db.code
    {
      AccountsAfter(db, s, a, e, b);
    }
    AccountsAfter(db, s, a, e, a);
  }

  lemma ResolvedCopy(codeOf: Word -> Bytes, db: Db, s: State, t: State)
    requires Resolved(codeOf, db, s) && t.code == s.code && SameObjects(db, s.objects, t.objects)
    ensures Resolved(codeOf, db, t)
  {
    forall a | Live(db, t, a)
      ensures var h := AccountOf(db, t, a).value.codeHash; h == EMPTY_HASH || h in t.code || h in db.code
    {
      assert ObjectIn(db, s.objects, a) == ObjectIn(db, t.objects, a);
      assert Live(db, s, a);
    }
  }

  lemma DeployResolved(codeOf: Word -> Bytes, db: Db, keccak: Bytes -> Word, s: State, a: Address, code: Bytes)
    requires Resolved(codeOf, db, s) && codeOf(keccak(code)) == code
    ensures Resolved(codeOf, db, SetCode(db, keccak, s, a, code))
  {
    hide Put;
    var e := ToCodeHash(keccak(code));
    var t := SetCode(db, keccak, s, a, code);
    assert t.objects == Put(db, s, a, e).objects;
    AccountsAfter(db, s, a, e, a);
    forall b | Live(db, t, b)
      ensures var h := AccountOf(db, t, b).value.codeHash; h == EMPTY_HASH || h in t.code || h in db.code
    {
      AccountsAfter(db, s, a, e, b);
    }
  }

  lemma CreateResolved(codeOf: Word -> Bytes, db: Db, s: State, a: Address)
    requires Resolved(codeOf, db, s)
    ensures Resolved(codeOf, db, CreateContract(db, s, a))
  {
    hide CreateContract;
    CreatedShape(db, s, a);
    var t := CreateContract(db, s, a);
    forall b | Live(db, t, b)
      ensures var h := AccountOf(db, t, b).value.codeHash; h == EMPTY_HASH || h in t.code || h in db.code
    {
      assert b != a ==> Live(db, s, b);
    }
  }

  /** Operations keep codes resolvable, if deployed code does not collide in hash with other code. */
  lemma ApplyResolved(codeOf: Word -> Bytes, db: Db, keccak: Bytes -> Word, s: State, op: Op)
    requires Resolved(codeOf, db, s) && forall h <- db.code :: db.code[h] == codeOf(h)
    requires op.DeployCode? ==> codeOf(keccak(op.code)) == op.code
    ensures Resolved(codeOf, db, Apply(db, keccak, s, op))
  {
    hide Resolved, Put, CreateContract, SetCode, FetchStorage, SetStorage, Fetch, FetchCode, Touch, RecordSuicide,
      AccessAccount, AccessStorage;
    var t := Apply(db, keccak, s, op);
    match op
    case ReadAccount(a) => FetchResolved(codeOf, db, s, a);
    case ReadCode(a) => FetchCodeResolved(codeOf, db, s, a);
    case ReadStorage(a, k, original) => StorageResolved(codeOf, db, s, a, k, original, 0);
    case SetBalance(a, v) => PutResolved(codeOf, db, s, a, ToBalance(v)); TouchResolved(codeOf, db, Put(db, s, a, ToBalance(v)), a);
    case AddToBalance(a, v) => PutResolved(codeOf, db, s, a, Credit(v)); TouchResolved(codeOf, db, Put(db, s, a, Credit(v)), a);
    case SubtractFromBalance(a, v) => PutResolved(codeOf, db, s, a, Debit(v)); TouchResolved(codeOf, db, Put(db, s, a, Debit(v)), a);
    case SetNonce(a, n) => PutResolved(codeOf, db, s, a, ToNonce(n));
    case DeployCode(a, code) => DeployResolved(codeOf, db, keccak, s, a, code);
    case WriteStorage(a, k, v) => StorageResolved(codeOf, db, s, a, k, false, v);
    case MakeContract(a) => CreateResolved(codeOf, db, s, a);
    case TouchAccount(a) => TouchResolved(codeOf, db, s, a);
    case _ =>
      SubstateKeepsCode(db, keccak, s, op);
      ResolvedCopy(codeOf, db, s, t);
  }

  lemma TouchResolved(codeOf: Word -> Bytes, db: Db, s: State, a: Address)
    requires Resolved(codeOf, db, s)
    ensures Resolved(codeOf, db, Touch(s, a))
  {
    ResolvedCopy(codeOf, db, s, Touch(s, a));
  }

  lemma FetchResolved(codeOf: Word -> Bytes, db: Db, s: State, a: Address)
    requires Resolved(codeOf, db, s)
    ensures Resolved(codeOf, db, Fetch(db, s, a))
  {
    FetchUndoable(db, s, a);
    ResolvedCopy(codeOf, db, s, Fetch(db, s, a));
  }

  lemma FetchCodeResolved(codeOf: Word -> Bytes, db: Db, s: State, a: Address)
    requires Resolved(codeOf, db, s) && forall h <- db.code :: db.code[h] == codeOf(h)
    ensures Resolved(codeOf, db, FetchCode(db, s, a))
  {
    hide Fetch;
    FetchResolved(codeOf, db, s, a);
    var t, u := Fetch(db, s, a), FetchCode(db, s, a);
    forall b | Live(db, u, b)
      ensures var h := AccountOf(db, u, b).value.codeHash; h == EMPTY_HASH || h in u.code || h in db.code
    {
      assert Live(db, t, b);
    }
  }

  lemma StorageResolved(codeOf: Word -> Bytes, db: Db, s: State, a: Address, k: Word, original: bool, v: Word)
    requires Resolved(codeOf, db, s)
    ensures Resolved(codeOf, db, FetchStorage(db, s, a, k, original))
    ensures Resolved(codeOf, db, SetStorage(db, s, a, k, v))
  {
    hide Resolved, FetchStorage;
    FetchStorageRestores(db, s, a, k, original);
    FetchKeepsCode(db, s, a, k, original);
    ResolvedCopy(codeOf, db, s, FetchStorage(db, s, a, k, original));
    FetchStorageRestores(db, s, a, k, false);
    FetchKeepsCode(db, s, a, k, false);
    ResolvedCopy(codeOf, db, s, FetchStorage(db, s, a, k, false));
    ResolvedCopy(codeOf, db, FetchStorage(db, s, a, k, false), SetStorage(db, s, a, k, v));
  }

  ghost predicate CodeKept(codeOf: Word -> Bytes, db: Db, m: Machine)
  {
    && Resolved(codeOf, db, m.now)
    && (forall i | 0 <= i < |m.marks| :: Resolved(codeOf, db, m.marks[i].saved))
    && (forall i | 0 <= i < |m.marks| :: m.marks[i].saved.code.Keys <= m.now.code.Keys)
  }

  lemma {:induction false} UndoKeepsCode(s: State, deltas: seq<Delta>)
    ensures UndoAll(s, deltas).code == s.code
    decreases |deltas|
  {
    if deltas != [] {
      UndoKeepsCode(Undo(s, deltas[|deltas| - 1]), deltas[..|deltas| - 1]);
    }
  }

  lemma ApplyKeepsCode(db: Db, keccak: Bytes -> Word, s: State, op: Op)
    ensures s.code.Keys <= Apply(db, keccak, s, op).code.Keys
  {
    hide Fetch, FetchStorage, Put, CreateContract, CurrentStorage, RecordSuicide, AccessAccount, AccessStorage;
    match op {
      case ReadCode(a) => FetchKeepsCode(db, s, a, 0, false);
      case ReadAccount(a) => FetchKeepsCode(db, s, a, 0, false);
      case ReadStorage(a, k, original) => FetchKeepsCode(db, s, a, k, original);
      case WriteStorage(a, k, v) => FetchKeepsCode(db, s, a, k, false);
      case SetBalance(a, v) => PutShape(db, s, a, ToBalance(v));
      case AddToBalance(a, v) => PutShape(db, s, a, Credit(v));
      case SubtractFromBalance(a, v) => PutShape(db, s, a, Debit(v));
      case SetNonce(a, n) => PutShape(db, s, a, ToNonce(n));
      case DeployCode(a, code) => PutShape(db, s, a, ToCodeHash(keccak(code)));
      case MakeContract(a) => CreatedShape(db, s, a);
      case _ => SubstateKeepsCode(db, keccak, s, op);
    }
  }

  lemma SubstateKeepsCode(db: Db, keccak: Bytes -> Word, s: State, op: Op)
    requires op.TouchAccount? || op.SelfDestruct? || op.WarmAccount? || op.WarmStorage? || op.AddLog? || op.AddRefund? || op.SubtractRefund?
    ensures Apply(db, keccak, s, op).code == s.code && Apply(db, keccak, s, op).objects == s.objects
    ensures Apply(db, keccak, s, op).storage == s.storage
  {
    hide Touch, RecordSuicide, AccessAccount, AccessStorage;
    match op
    case TouchAccount(a) => TouchRest(s, a);
    case SelfDestruct(a) => SuicideRest(s, a);
    case WarmAccount(a) => WarmRest(s, a);
    case WarmStorage(a, k) => WarmKeyRest(s, a, k);
    case _ =>
  }

  lemma TouchRest(s: State, a: Address)
    ensures Touch(s, a) == s.(touched := s.touched + {a}, journal := Touch(s, a).journal)
  {
  }

  lemma SuicideRest(s: State, a: Address)
    ensures RecordSuicide(s, a) == s.(selfDestructs := s.selfDestructs + {a}, journal := RecordSuicide(s, a).journal)
  {
  }

  lemma WarmRest(s: State, a: Address)
    ensures AccessAccount(s, a) == s.(accessedAddresses := s.accessedAddresses + {a}, journal := AccessAccount(s, a).journal)
  {
  }

  lemma WarmKeyRest(s: State, a: Address, k: Word)
    ensures AccessStorage(s, a, k) == s.(accessedKeys := AccessStorage(s, a, k).accessedKeys, journal := AccessStorage(s, a, k).journal)
  {
  }

  lemma FetchKeepsCode(db: Db, s: State, a: Address, k: Word, original: bool)
    ensures Fetch(db, s, a).code == s.code && FetchStorage(db, s, a, k, original).code == s.code
  {
  }

  lemma RevertedResolved(codeOf: Word -> Bytes, db: Db, saved: State, cur: State)
    requires Descends(db, saved, cur) && Resolved(codeOf, db, saved) && Resolved(codeOf, db, cur)
    requires saved.code.Keys <= cur.code.Keys
    ensures |saved.journal| <= |cur.journal| && |saved.logs| <= |cur.logs|
    ensures var t := Revert(cur, TakeSnapshot(saved)); t.code == cur.code && Resolved(codeOf, db, t)
  {
    RevertRestores(db, saved, cur);
    UndoKeepsCode(cur, cur.journal[|saved.journal|..]);
    var t := Revert(cur, TakeSnapshot(saved));
    forall a | Live(db, t, a)
      ensures var h := AccountOf(db, t, a).value.codeHash; h == EMPTY_HASH || h in t.code || h in db.code
    {
      assert ObjectIn(db, saved.objects, a) == ObjectIn(db, t.objects, a);
      assert Live(db, saved, a);
    }
  }

  ghost predicate NoCollision(codeOf: Word -> Bytes, keccak: Bytes -> Word, step: Step)
  {
    step.Do? && step.op.DeployCode? ==> codeOf(keccak(step.op.code)) == step.op.code
  }

  lemma NextCodeKept(codeOf: Word -> Bytes, db: Db, keccak: Bytes -> Word, m: Machine, step: Step)
    requires Consistent(db, m) && CodeKept(codeOf, db, m) && NoCollision(codeOf, keccak, step)
    requires forall h <- db.code :: db.code[h] == codeOf(h)
    requires step.RevertTo? ==> step.i < |m.marks|
    ensures step.RevertTo? ==> m.marks[step.i].snapshot.journalSize <= |m.now.journal|
    ensures step.RevertTo? ==> m.marks[step.i].snapshot.logSize <= |m.now.logs|
    ensures CodeKept(codeOf, db, Next(db, keccak, m, step))
  {
    hide Resolved, Undoable, Apply;
    match step
    case Do(op) =>
      ApplyResolved(codeOf, db, keccak, m.now, op);
      ApplyKeepsCode(db, keccak, m.now, op);
    case Take =>
    case RevertTo(i) => RevertedResolved(codeOf, db, m.marks[i].saved, m.now);
  }

  lemma {:induction false} RunCodeKept(codeOf: Word -> Bytes, db: Db, keccak: Bytes -> Word, m: Machine, steps: seq<Step>)
    requires Consistent(db, m) && CodeKept(codeOf, db, m) && Proper(|m.marks|, steps)
    requires forall h <- db.code :: db.code[h] == codeOf(h)
    requires forall step <- steps :: NoCollision(codeOf, keccak, step)
    ensures CodeKept(codeOf, db, Run(db, keccak, m, steps))
    decreases |steps|
  {
    hide CodeKept, Consistent, NoCollision;
    if steps != [] {
      NextConsistent(db, keccak, m, steps[0]);
      NextCodeKept(codeOf, db, keccak, m, steps[0]);
      RunCodeKept(codeOf, db, keccak, Next(db, keccak, m, steps[0]), steps[1..]);
    }
  }

  /** Reverting also brings back the code of every account, although the code cache is never
      undone, as long as no two codes share a hash. */
  lemma RunThenRevertCode(codeOf: Word -> Bytes, db: Db, keccak: Bytes -> Word, s: State, steps: seq<Step>, i: nat, a: Address)
    requires Proper(0, steps) && Resolved(codeOf, db, s)
    requires forall h <- db.code :: db.code[h] == codeOf(h)
    requires forall step <- steps :: NoCollision(codeOf, keccak, step)
    requires i < |Run(db, keccak, Machine(s, []), steps).marks|
    ensures var m := Run(db, keccak, Machine(s, []), steps);
      var mark := m.marks[i];
      && mark.snapshot.journalSize <= |m.now.journal| && mark.snapshot.logSize <= |m.now.logs|
      && CodeOf(db, Revert(m.now, mark.snapshot), a) == CodeOf(db, mark.saved, a)
  {
    hide Resolved, Undoable;
    RunCodeKept(codeOf, db, keccak, Machine(s, []), steps);
    var m := Run(db, keccak, Machine(s, []), steps);
    RevertedResolved(codeOf, db, m.marks[i].saved, m.now);
    RevertRestores(db, m.marks[i].saved, m.now);
    var t := Revert(m.now, m.marks[i].snapshot);
    ResolvedCode(codeOf, db, m.marks[i].saved, a);
    ResolvedCode(codeOf, db, t, a);
    assert AccountOf(db, t, a) == AccountOf(db, m.marks[i].saved, a);
  }
}
