/** The caches of `IntraBlockState` implement flat maps: accounts, current storage and
    transaction-original storage, over any number of transactions of a block. */
module FlatState {
  import opened Basics
  import opened World
  import opened Journal

  datatype Cell = Cell(a: Address, k: Word)

  /** What a transaction gathers besides accounts and storage. */
  datatype Substate = Substate(
    selfDestructs: set<Address>, touched: set<Address>, logs: seq<Bytes>, warm: set<Address>, warmKeys: set<Cell>)

  const NOTHING := Substate({}, {}, [], {}, {})

  /** What a client of the interface should see: accounts, storage, and what the transaction has gathered.
      `anchored` tells that no contract was created under an incarnation for which the database holds storage
      that cannot be seen, `novel` that none, reverted or not, took up the incarnation it began the block with. */
  datatype Flat = Flat(
    accounts: map<Address, Account>, current: map<Cell, Word>, original: map<Cell, Word>,
    sub: Substate, anchored: bool, novel: bool)

  function At(m: map<Cell, Word>, a: Address, k: Word): (v: Word)
  {
    if Cell(a, k) in m then m[Cell(a, k)] else 0
  }

  function Without(m: map<Cell, Word>, gone: set<Address>): (r: map<Cell, Word>)
  {
    map c | c in m && c.a !in gone :: m[c]
  }

  // --- the flat meaning of the operations ---

  function FlatEdit(f: Flat, a: Address, e: Edit): (g: Flat)
  {
    f.(accounts := f.accounts[a := Edited(if a in f.accounts then f.accounts[a] else EMPTY_ACCOUNT, e)])
  }

  /** The incarnation of a contract created at `a`. */
  function FlatIncarnation(db: Db, f: Flat, a: Address): (n: nat)
  {
    var previous :=
      if a in f.accounts then f.accounts[a].incarnation else if a in db.accounts then db.accounts[a].incarnation else 0;
    1 + if previous == 0 then db.PreviousIncarnation(a) else previous
  }

  /** The block began with `a` under this very incarnation. */
  predicate Returns(db: Db, a: Address, incarnation: nat)
  {
    a in db.accounts && db.accounts[a].incarnation == incarnation
  }

  /** The storage with which a contract created at `a` starts: none, unless its incarnation returns. */
  function Seed(db: Db, a: Address, incarnation: nat): (m: map<Cell, Word>)
  {
    if Returns(db, a, incarnation) then
      map slot | slot in db.storage && slot.address == a && slot.incarnation == incarnation ::
        Cell(a, slot.location) := db.storage[slot]
    else map[]
  }

  predicate Unused(db: Db, a: Address, incarnation: nat)
  {
    forall slot <- db.storage :: slot.address != a || slot.incarnation != incarnation
  }

  function FlatCreate(db: Db, f: Flat, a: Address): (g: Flat)
  {
    var balance := if a in f.accounts then f.accounts[a].balance else 0;
    var n := FlatIncarnation(db, f, a);
    f.(accounts := f.accounts[a := Account(0, balance, EMPTY_HASH, n)],
       current := Without(f.current, {a}) + Seed(db, a, n),
       original := Without(f.original, {a}) + Seed(db, a, n),
       anchored := f.anchored && (Returns(db, a, n) || Unused(db, a, n)),
       novel := f.novel && !Returns(db, a, n))
  }

  function FlatTouch(f: Flat, a: Address): (g: Flat)
  {
    f.(sub := f.sub.(touched := f.sub.touched + {a}))
  }

  function FlatApply(db: Db, keccak: Bytes -> Word, f: Flat, op: Op): (g: Flat)
  {
    match op
    case SetBalance(a, v) => FlatTouch(FlatEdit(f, a, ToBalance(v)), a)
    case AddToBalance(a, v) => FlatTouch(FlatEdit(f, a, Credit(v)), a)
    case SubtractFromBalance(a, v) => FlatTouch(FlatEdit(f, a, Debit(v)), a)
    case SetNonce(a, n) => FlatEdit(f, a, ToNonce(n))
    case DeployCode(a, code) => FlatEdit(f, a, ToCodeHash(keccak(code)))
    case WriteStorage(a, k, v) => f.(current := f.current[Cell(a, k) := v])
    case MakeContract(a) => FlatCreate(db, f, a)
    case TouchAccount(a) => FlatTouch(f, a)
    case SelfDestruct(a) => f.(sub := f.sub.(selfDestructs := f.sub.selfDestructs + {a}))
    case WarmAccount(a) => f.(sub := f.sub.(warm := f.sub.warm + {a}))
    case WarmStorage(a, k) => f.(sub := f.sub.(warmKeys := f.sub.warmKeys + {Cell(a, k)}))
    case AddLog(log) => f.(sub := f.sub.(logs := f.sub.logs + [log]))
    case _ => f
  }

  predicate FlatDead(f: Flat, a: Address)
  {
    a in f.accounts ==> f.accounts[a].codeHash == EMPTY_HASH && f.accounts[a].nonce == 0 && f.accounts[a].balance == 0
  }

  /** The accounts that disappear at the end of a transaction; the dead ones from Spurious Dragon on. */
  function FlatGone(f: Flat, clearDead: bool): (gone: set<Address>)
  {
    f.sub.selfDestructs + if clearDead then set a | a in f.sub.touched && FlatDead(f, a) else {}
  }

  /** Some accounts disappear with their storage. */
  function FlatRemove(f: Flat, gone: set<Address>): (g: Flat)
  {
    f.(accounts := f.accounts - gone, current := Without(f.current, gone), original := Without(f.original, gone))
  }

  /** The end of a transaction: some accounts disappear, the rest is committed. */
  function FlatEnd(f: Flat, clearDead: bool): (g: Flat)
  {
    var g := FlatRemove(f, FlatGone(f, clearDead));
    g.(original := g.current, sub := NOTHING)
  }

  // --- hypotheses ---

  /** Zero values are not stored, and accounts that are not contracts have no storage. */
  ghost predicate DbOk(db: Db)
  {
    forall slot <- db.storage :: db.storage[slot] != 0 && slot.incarnation > 0
  }

  /** The database holds no storage under the incarnation that creating `a` would choose. */
  ghost predicate Fresh(db: Db, s: State, a: Address)
  {
    forall k :: db.ReadStorage(a, NewIncarnation(db, s, a), k) == 0
  }

  /** Storage is written by contracts only. */
  predicate Legal(f: Flat, op: Op)
  {
    op.WriteStorage? ==> op.a in f.accounts && f.accounts[op.a].incarnation > 0
  }

  // --- invariants ---

  ghost predicate Refines(db: Db, s: State, f: Flat)
  {
    && (forall a :: AccountOf(db, s, a) == Get(f.accounts, a))
    && (forall a, k :: CurrentStorage(db, s, a, k) == At(f.current, a, k))
    && (forall a, k :: OriginalStorage(db, s, a, k) == At(f.original, a, k))
  }

  /** The remembered initial values are those of the database. */
  ghost predicate AnchoredAt(db: Db, a: Address, o: Object, storage: Storage)
  {
    o.current.Some? ==>
      forall k :: CommittedAt(db, a, Some(o), storage, k).initial == db.ReadStorage(a, o.current.value.incarnation, k)
  }

  predicate Contract(o: Option<Object>)
  {
    o.Some? && o.value.current.Some? && o.value.current.value.incarnation > 0
  }

  /** A contract unchanged since the block began has a committed entry for every
      written slot; anything else has only zeros left in its storage cache. */
  ghost predicate TidyAt(o: Option<Object>, storage: Storage)
  {
    if Contract(o) then
      o.value.initial.Some? && o.value.initial.value.incarnation == o.value.current.value.incarnation ==>
        forall k <- storage.current :: k in storage.committed
    else
      && (forall k <- storage.current :: storage.current[k] == 0)
      && (forall k <- storage.committed :: storage.committed[k] == Committed(0, 0))
  }

  /** An account of the database is loaded before its storage is. */
  ghost predicate Loaded(db: Db, objects: Objects, storage: Storages)
  {
    forall a <- storage | a in db.accounts :: a in objects
  }

  ghost predicate Tidy(db: Db, s: State)
  {
    && (forall a :: TidyAt(ObjectIn(db, s.objects, a), StorageIn(s.storage, a)))
    && Loaded(db, s.objects, s.storage)
  }

  /** The cached object and storage of `a` stand for its part of the flat maps. */
  ghost predicate ViewAt(db: Db, a: Address, o: Option<Object>, storage: Storage, f: Flat)
  {
    && (o.Some? ==> o.value.initial == db.ReadAccount(a))
    && (o.Some? && f.anchored ==> AnchoredAt(db, a, o.value, storage))
    && (o.None? ==> a !in db.accounts)
    && Get(f.accounts, a) == (if o.Some? then o.value.current else None)
    && (forall k :: At(f.current, a, k) == if a in f.accounts then CurrentAt(db, a, o, storage, k) else 0)
    && (forall k :: At(f.original, a, k) == if a in f.accounts then CommittedAt(db, a, o, storage, k).original else 0)
  }

  ghost predicate Viewed(db: Db, s: State, f: Flat)
  {
    forall a :: ViewAt(db, a, ObjectIn(db, s.objects, a), StorageIn(s.storage, a), f)
  }

  ghost predicate Sound(db: Db, s: State, f: Flat)
  {
    Viewed(db, s, f) && Tidy(db, s)
  }

  lemma ViewedRefines(db: Db, s: State, f: Flat)
    requires Viewed(db, s, f)
    ensures Refines(db, s, f)
  {
    forall a, k
      ensures AccountOf(db, s, a) == Get(f.accounts, a)
      ensures CurrentStorage(db, s, a, k) == At(f.current, a, k)
      ensures OriginalStorage(db, s, a, k) == At(f.original, a, k)
    {
      assert ViewAt(db, a, ObjectIn(db, s.objects, a), StorageIn(s.storage, a), f);
    }
  }

  // --- reverting keeps the invariants ---

  lemma SlotsKeepView(db: Db, a: Address, o: Option<Object>, x: Storage, y: Storage, f: Flat)
    requires ViewAt(db, a, o, x, f)
    requires o.Some? && o.value.current.Some? ==> SameSlots(db, a, o, x, y)
    ensures ViewAt(db, a, o, y, f)
  {
    if o.Some? && o.value.current.Some? {
      forall k
        ensures CommittedAt(db, a, o, x, k) == CommittedAt(db, a, o, y, k)
        ensures CurrentAt(db, a, o, x, k) == CurrentAt(db, a, o, y, k)
      {
      }
    }
  }

  lemma RestoresKeepsView(db: Db, s: State, t: State, f: Flat)
    requires Restores(db, s, t) && Viewed(db, s, f)
    ensures Viewed(db, t, f)
  {
    hide ViewAt, SameSlots;
    forall a
      ensures ViewAt(db, a, ObjectIn(db, t.objects, a), StorageIn(t.storage, a), f)
    {
      assert ObjectIn(db, t.objects, a) == ObjectIn(db, s.objects, a);
      assert AccountIn(db, s.objects, a).Some? ==>
        SameSlots(db, a, ObjectIn(db, s.objects, a), StorageIn(s.storage, a), StorageIn(t.storage, a));
      SlotsKeepView(db, a, ObjectIn(db, s.objects, a), StorageIn(s.storage, a), StorageIn(t.storage, a), f);
    }
  }

  /** Undoing what the journal gained between `s` and `t` leaves tidy states tidy. */
  ghost predicate UndoTidy(db: Db, s: State, t: State)
  {
    && s.journal <= t.journal
    && forall u | Restores(db, t, u) && Tidy(db, u) :: Tidy(db, UndoAll(u, t.journal[|s.journal|..]))
  }

  lemma UndoTidyTransitive(db: Db, s: State, t: State, u: State)
    requires UndoTidy(db, s, t) && UndoTidy(db, t, u) && Undoable(db, t, u)
    ensures UndoTidy(db, s, u)
  {
    var x, y := t.journal[|s.journal|..], u.journal[|t.journal|..];
    assert u.journal[|s.journal|..] == x + y;
    forall w | Restores(db, u, w) && Tidy(db, w)
      ensures Tidy(db, UndoAll(w, x + y))
    {
      UndoAllConcat(w, x, y);
      assert Restores(db, t, UndoAll(w, y));
    }
  }

  lemma UndoTidyFrom(db: Db, s: State, t: State, t': State)
    requires UndoTidy(db, s, t) && Restores(db, t, t') && t'.journal == t.journal
    ensures UndoTidy(db, s, t')
  {
    forall u | Restores(db, t', u) && Tidy(db, u)
      ensures Tidy(db, UndoAll(u, t'.journal[|s.journal|..]))
    {
      RestoresTransitive(db, t, t', u);
    }
  }

  lemma UndoTidyUnjournaled(db: Db, s: State, t: State)
    requires t.journal == s.journal
    ensures UndoTidy(db, s, t)
  {
    assert t.journal[|s.journal|..] == [];
  }

  lemma UndoTidyDelta(db: Db, s: State, t: State, delta: Delta)
    requires t.journal == s.journal + [delta]
    requires forall u | Restores(db, t, u) && Tidy(db, u) :: Tidy(db, Undo(u, delta))
    ensures UndoTidy(db, s, t)
  {
    assert t.journal[|s.journal|..] == [delta];
    forall u | Restores(db, t, u) && Tidy(db, u)
      ensures Tidy(db, UndoAll(u, [delta]))
    {
      assert UndoAll(u, [delta]) == UndoAll(Undo(u, delta), []);
    }
  }

  /** Deltas that touch neither objects nor storage. */
  lemma UndoTidySubstate(db: Db, s: State, t: State, delta: Delta)
    requires t.journal == s.journal + [delta]
    requires delta.Suicide? || delta.Touched? || delta.StorageAccess? || delta.AccountAccess?
    ensures UndoTidy(db, s, t)
  {
    forall u | Tidy(db, u)
      ensures Tidy(db, Undo(u, delta))
    {
      assert Undo(u, delta).objects == u.objects && Undo(u, delta).storage == u.storage;
    }
    UndoTidyDelta(db, s, t, delta);
  }

  // --- each operation acts as its flat counterpart ---

  /** Addresses other than `a` are not affected. */
  lemma OnlyAt(db: Db, s: State, t: State, a: Address, f: Flat, g: Flat)
    requires Sound(db, s, f)
    requires forall b | b != a :: ObjectIn(db, s.objects, b) == ObjectIn(db, t.objects, b)
    requires forall b | b != a :: StorageIn(s.storage, b) == StorageIn(t.storage, b)
    requires forall b | b != a :: Get(f.accounts, b) == Get(g.accounts, b)
    requires forall b, k | b != a :: At(f.current, b, k) == At(g.current, b, k)
    requires forall b, k | b != a :: At(f.original, b, k) == At(g.original, b, k)
    requires g.anchored ==> f.anchored
    requires ViewAt(db, a, ObjectIn(db, t.objects, a), StorageIn(t.storage, a), g)
    requires TidyAt(ObjectIn(db, t.objects, a), StorageIn(t.storage, a))
    requires Loaded(db, t.objects, t.storage)
    ensures Sound(db, t, g)
  {
    forall b
      ensures ViewAt(db, b, ObjectIn(db, t.objects, b), StorageIn(t.storage, b), g)
      ensures TidyAt(ObjectIn(db, t.objects, b), StorageIn(t.storage, b))
    {
      if b != a {
        assert ViewAt(db, b, ObjectIn(db, s.objects, b), StorageIn(s.storage, b), f);
        assert TidyAt(ObjectIn(db, s.objects, b), StorageIn(s.storage, b));
        assert Get(f.accounts, b) == Get(g.accounts, b);
      }
    }
  }

  lemma FetchSound(db: Db, s: State, a: Address, f: Flat)
    requires Sound(db, s, f)
    ensures Sound(db, Fetch(db, s, a), f)
    ensures UndoTidy(db, s, Fetch(db, s, a))
  {
    FetchUndoable(db, s, a);
    var t := Fetch(db, s, a);
    forall b
      ensures ViewAt(db, b, ObjectIn(db, t.objects, b), StorageIn(t.storage, b), f)
      ensures TidyAt(ObjectIn(db, t.objects, b), StorageIn(t.storage, b))
    {
      assert ObjectIn(db, t.objects, b) == ObjectIn(db, s.objects, b);
      assert ViewAt(db, b, ObjectIn(db, s.objects, b), StorageIn(s.storage, b), f);
      assert TidyAt(ObjectIn(db, s.objects, b), StorageIn(s.storage, b));
    }
    UndoTidyUnjournaled(db, s, t);
  }

  lemma FilledTidy(db: Db, a: Address, o: Object, storage: Storage, k: Word, original: bool)
    requires DbOk(db) && o.current.Some? && TidyAt(Some(o), storage)
    ensures TidyAt(Some(o), Filled(db, a, o, storage, k, original))
    ensures Contract(Some(o)) && o.initial.Some? && !original ==>
      o.initial.value.incarnation == o.current.value.incarnation ==>
      k in Filled(db, a, o, storage, k, original).committed
  {
  }

  lemma FetchStorageSound(db: Db, s: State, a: Address, k: Word, original: bool, f: Flat)
    requires DbOk(db) && Sound(db, s, f)
    ensures Sound(db, FetchStorage(db, s, a, k, original), f)
    ensures UndoTidy(db, s, FetchStorage(db, s, a, k, original))
  {
    hide ViewAt, TidyAt, Filled;
    var t, u := Fetch(db, s, a), FetchStorage(db, s, a, k, original);
    FetchStorageRestores(db, s, a, k, original);
    RestoresKeepsView(db, s, u, f);
    FetchSound(db, s, a, f);
    forall b
      ensures TidyAt(ObjectIn(db, u.objects, b), StorageIn(u.storage, b))
    {
      assert TidyAt(ObjectIn(db, t.objects, b), StorageIn(t.storage, b));
      var o := ObjectIn(db, t.objects, a);
      if b == a && o.Some? && o.value.current.Some? {
        FilledTidy(db, a, o.value, StorageIn(t.storage, a), k, original);
      }
    }
    UndoTidyUnjournaled(db, s, u);
  }

  lemma EditAt(db: Db, a: Address, o: Option<Object>, storage: Storage, f: Flat, e: Edit)
    requires DbOk(db) && ViewAt(db, a, o, storage, f) && TidyAt(o, storage)
    ensures var initial := if o.Some? then o.value.initial else None;
      var c := if o.Some? && o.value.current.Some? then o.value.current.value else EMPTY_ACCOUNT;
      var o' := Some(Object(initial, Some(Edited(c, e))));
      ViewAt(db, a, o', storage, FlatEdit(f, a, e)) && TidyAt(o', storage)
  {
    hide Edited, TidyAt;
    var initial := if o.Some? then o.value.initial else None;
    var c := if o.Some? && o.value.current.Some? then o.value.current.value else EMPTY_ACCOUNT;
    var o' := Some(Object(initial, Some(Edited(c, e))));
    EditTidy(o, storage, e);
    forall k
      ensures f.anchored ==> CommittedAt(db, a, o', storage, k).initial == db.ReadStorage(a, c.incarnation, k)
      ensures At(f.current, a, k) == CurrentAt(db, a, o', storage, k)
      ensures At(f.original, a, k) == CommittedAt(db, a, o', storage, k).original
    {
      if o.Some? && o.value.current.Some? {
        EditCell(db, a, o.value, storage, e, k);
      } else {
        NewCell(db, a, o, storage, f, e, k);
      }
    }
  }

  lemma EditTidy(o: Option<Object>, storage: Storage, e: Edit)
    requires TidyAt(o, storage)
    ensures var initial := if o.Some? then o.value.initial else None;
      var c := if o.Some? && o.value.current.Some? then o.value.current.value else EMPTY_ACCOUNT;
      TidyAt(Some(Object(initial, Some(Edited(c, e)))), storage)
  {
    hide Edited;
  }

  lemma EditCell(db: Db, a: Address, o: Object, storage: Storage, e: Edit, k: Word)
    requires o.current.Some?
    ensures var o' := Some(Object(o.initial, Some(Edited(o.current.value, e))));
      && CommittedAt(db, a, o', storage, k) == CommittedAt(db, a, Some(o), storage, k)
      && CurrentAt(db, a, o', storage, k) == CurrentAt(db, a, Some(o), storage, k)
  {
    hide Edited;
  }

  lemma NewCell(db: Db, a: Address, o: Option<Object>, storage: Storage, f: Flat, e: Edit, k: Word)
    requires DbOk(db) && ViewAt(db, a, o, storage, f) && TidyAt(o, storage) && (o.Some? ==> o.value.current.None?)
    ensures var o' := Some(Object(if o.Some? then o.value.initial else None, Some(Edited(EMPTY_ACCOUNT, e))));
      && CommittedAt(db, a, o', storage, k) == Committed(0, 0) && CurrentAt(db, a, o', storage, k) == 0
      && db.ReadStorage(a, 0, k) == 0 && At(f.current, a, k) == 0 && At(f.original, a, k) == 0
  {
    hide Edited;
  }

  lemma PutSound(db: Db, s: State, a: Address, e: Edit, f: Flat)
    requires DbOk(db) && Sound(db, s, f)
    ensures Sound(db, Put(db, s, a, e), FlatEdit(f, a, e))
  {
    hide ViewAt, TidyAt, Put;
    PutShape(db, s, a, e);
    EditAt(db, a, ObjectIn(db, s.objects, a), StorageIn(s.storage, a), f, e);
    OnlyAt(db, s, Put(db, s, a, e), a, f, FlatEdit(f, a, e));
  }

  /** Undoing a change of an object that kept it a contract, or kept it none. */
  lemma ObjectUndoTidy(db: Db, s: State, t: State, a: Address, delta: Delta)
    requires if a in s.objects then delta == Update(a, s.objects[a]) else delta == Create(a) && a !in db.accounts
    requires a in t.objects && t == Log(s, delta).(objects := s.objects[a := t.objects[a]])
    requires forall x | TidyAt(Some(t.objects[a]), x) :: TidyAt(ObjectIn(db, s.objects, a), x)
    ensures UndoTidy(db, s, t)
  {
    hide TidyAt;
    forall u | Restores(db, t, u) && Tidy(db, u)
      ensures Tidy(db, Undo(u, delta))
    {
      var r := Undo(u, delta);
      forall b
        ensures TidyAt(ObjectIn(db, r.objects, b), StorageIn(r.storage, b))
      {
        assert TidyAt(ObjectIn(db, u.objects, b), StorageIn(u.storage, b));
        if b == a {
          assert ObjectIn(db, u.objects, a) == ObjectIn(db, t.objects, a) == Some(t.objects[a]);
          assert ObjectIn(db, r.objects, a) == ObjectIn(db, s.objects, a);
        }
      }
    }
    UndoTidyDelta(db, s, t, delta);
  }

  lemma PutUndoTidy(db: Db, s: State, a: Address, e: Edit)
    ensures UndoTidy(db, s, Put(db, s, a, e))
  {
    hide UndoTidy, Undoable, Edited, Obtain, TidyAt, Restores;
    var u, w := Obtain(db, s, a), Put(db, s, a, e);
    FetchObtainUndoTidy(db, s, a);
    EditUntidies(u.objects[a], e);
    ObjectUndoTidy(db, u, w, a, Update(a, u.objects[a]));
    ObjectUndoable(db, u, w, a, Update(a, u.objects[a]));
    UndoTidyTransitive(db, s, u, w);
  }

  lemma EditUntidies(o: Object, e: Edit)
    requires o.current.Some?
    ensures forall x | TidyAt(Some(o.(current := Some(Edited(o.current.value, e)))), x) :: TidyAt(Some(o), x)
  {
    hide Edited;
  }

  lemma FetchObtainUndoTidy(db: Db, s: State, a: Address)
    ensures UndoTidy(db, s, Obtain(db, s, a))
  {
    hide UndoTidy, Undoable;
    var t := Fetch(db, s, a);
    UndoTidyUnjournaled(db, s, t);
    ObtainUndoTidy(db, t, a);
    assert Obtain(db, s, a) == Obtain(db, t, a);
    ObtainUndoable(db, t, a);
    UndoTidyTransitive(db, s, t, Obtain(db, s, a));
  }

  lemma ObtainUndoTidy(db: Db, t: State, a: Address)
    requires t == Fetch(db, t, a)
    ensures UndoTidy(db, t, Obtain(db, t, a))
  {
    var u := Obtain(db, t, a);
    if a in t.objects && t.objects[a].current.Some? {
      UndoTidyUnjournaled(db, t, u);
    } else {
      var delta := if a in t.objects then Update(a, t.objects[a]) else Create(a);
      ObjectUndoTidy(db, t, u, a, delta);
    }
  }

  lemma SeedAt(db: Db, a: Address, n: nat, b: Address, k: Word)
    ensures At(Seed(db, a, n), b, k) == if b == a && Returns(db, a, n) then db.ReadStorage(a, n, k) else 0
  {
    var slot := Slot(a, n, k);
    if b == a && Returns(db, a, n) && slot in db.storage {
      assert Cell(a, slot.location) in Seed(db, a, n);
    }
  }

  lemma CreatedCells(m: map<Cell, Word>, db: Db, a: Address, n: nat, b: Address, k: Word)
    ensures At(Without(m, {a}) + Seed(db, a, n), b, k) ==
            if b != a then At(m, b, k) else if Returns(db, a, n) then db.ReadStorage(a, n, k) else 0
  {
    hide Seed;
    SeedAt(db, a, n, b, k);
    WithoutOthers(m, {a}, b, k);
    SeedOnly(db, a, n);
  }

  lemma SeedOnly(db: Db, a: Address, n: nat)
    ensures forall c <- Seed(db, a, n) :: c.a == a
  {
  }

  lemma UnusedReads(db: Db, a: Address, n: nat, k: Word)
    requires Unused(db, a, n)
    ensures db.ReadStorage(a, n, k) == 0
  {
  }

  lemma CreateAt(db: Db, a: Address, o': Object, f: Flat)
    requires o'.initial == db.ReadAccount(a) && o'.current.Some? && FlatIncarnation(db, f, a) > 0
    requires o'.current.value ==
      Account(0, if a in f.accounts then f.accounts[a].balance else 0, EMPTY_HASH, FlatIncarnation(db, f, a))
    ensures ViewAt(db, a, Some(o'), NO_STORAGE, FlatCreate(db, f, a))
    ensures TidyAt(Some(o'), NO_STORAGE)
  {
    hide FlatIncarnation, Seed, Without;
    var g, n := FlatCreate(db, f, a), FlatIncarnation(db, f, a);
    forall k
      ensures var v := if Returns(db, a, n) then db.ReadStorage(a, n, k) else 0;
        && CommittedAt(db, a, Some(o'), NO_STORAGE, k) == Committed(v, v)
        && At(g.current, a, k) == v && At(g.original, a, k) == v
        && (g.anchored ==> db.ReadStorage(a, n, k) == v)
    {
      CreatedCells(f.current, db, a, n, a, k);
      CreatedCells(f.original, db, a, n, a, k);
      if Unused(db, a, n) { UnusedReads(db, a, n, k); }
    }
  }

  lemma WithoutOthers(m: map<Cell, Word>, gone: set<Address>, a: Address, k: Word)
    ensures At(Without(m, gone), a, k) == if a in gone then 0 else At(m, a, k)
  {
  }

  /** The incarnation is chosen from what the flat maps show. */
  lemma SameIncarnation(db: Db, s: State, a: Address, f: Flat)
    requires Sound(db, s, f)
    ensures NewIncarnation(db, s, a) == FlatIncarnation(db, f, a)
  {
    assert ViewAt(db, a, ObjectIn(db, s.objects, a), StorageIn(s.storage, a), f);
  }

  /** Creating a contract gives it the storage that returns with its incarnation, if any. */
  lemma CreateContractSound(db: Db, s: State, a: Address, f: Flat)
    requires Sound(db, s, f)
    ensures Sound(db, CreateContract(db, s, a), FlatCreate(db, f, a))
  {
    hide TidyAt, CreateContract, FlatIncarnation, NewIncarnation, Seed, Without;
    var u, g := CreateContract(db, s, a), FlatCreate(db, f, a);
    CreatedShape(db, s, a);
    SameIncarnation(db, s, a, f);
    IncarnationPositive(db, f, a);
    var o := ObjectIn(db, s.objects, a);
    assert ViewAt(db, a, o, StorageIn(s.storage, a), f);
    CreateAt(db, a, ObjectIn(db, u.objects, a).value, f);
    forall b, k | b != a
      ensures At(f.current, b, k) == At(g.current, b, k)
      ensures At(f.original, b, k) == At(g.original, b, k)
    {
      CreatedCells(f.current, db, a, FlatIncarnation(db, f, a), b, k);
      CreatedCells(f.original, db, a, FlatIncarnation(db, f, a), b, k);
    }
    OnlyAt(db, s, u, a, f, g);
  }

  lemma IncarnationPositive(db: Db, f: Flat, a: Address)
    ensures FlatIncarnation(db, f, a) > 0
  {
  }

  lemma CreateContractUndoTidy(db: Db, s: State, a: Address)
    requires Tidy(db, s)
    ensures UndoTidy(db, s, CreateContract(db, s, a))
  {
    hide TidyAt, Restores, Undoable, CreateContract, Fetch;
    var t, u := Fetch(db, s, a), CreateContract(db, s, a);
    CreationJournal(db, s, a);
    FetchedObject(db, s, a);
    var d := if a in t.objects then Update(a, t.objects[a]) else Create(a);
    var e := if a in t.storage then StorageWipe(a, t.storage[a]) else StorageCreate(a);
    assert TidyAt(ObjectIn(db, t.objects, a), StorageIn(t.storage, a));
    assert u.journal[|s.journal|..] == [d, e];
    forall w | Tidy(db, w)
      ensures Tidy(db, UndoAll(w, [d, e]))
    {
      assert [d, e][..1] == [d];
      assert UndoAll(w, [d, e]) == UndoAll(Undo(w, e), [d]) == Undo(Undo(w, e), d);
      CreationUndoTidy(db, t, w, a, d, e);
    }
  }

  /** The two entries that creating a contract leaves in the journal. */
  lemma CreationJournal(db: Db, s: State, a: Address)
    ensures var t := Fetch(db, s, a);
      CreateContract(db, s, a).journal == s.journal +
        [if a in t.objects then Update(a, t.objects[a]) else Create(a),
         if a in t.storage then StorageWipe(a, t.storage[a]) else StorageCreate(a)]
  {
    hide NewIncarnation, Fetch;
    var t, c := Fetch(db, s, a), CreateObject(db, s, a);
    FetchRest(db, s, a);
    var d := if a in t.objects then Update(a, t.objects[a]) else Create(a);
    var e := if a in t.storage then StorageWipe(a, t.storage[a]) else StorageCreate(a);
    assert c.journal == s.journal + [d] && c.storage == t.storage;
    assert s.journal + [d] + [e] == s.journal + [d, e];
  }

  lemma FetchedObject(db: Db, s: State, a: Address)
    ensures var t := Fetch(db, s, a);
      && ObjectIn(db, t.objects, a) == ObjectIn(db, s.objects, a) && t.storage == s.storage
      && (a in db.accounts ==> a in t.objects)
  {
  }

  lemma CreationUndoTidy(db: Db, t: State, w: State, a: Address, d: Delta, e: Delta)
    requires if a in t.objects then d == Update(a, t.objects[a]) else d == Create(a) && a !in db.accounts
    requires e == if a in t.storage then StorageWipe(a, t.storage[a]) else StorageCreate(a)
    requires TidyAt(ObjectIn(db, t.objects, a), StorageIn(t.storage, a)) && Tidy(db, w)
    ensures Tidy(db, Undo(Undo(w, e), d))
  {
    hide TidyAt;
    var r := Undo(Undo(w, e), d);
    forall b
      ensures TidyAt(ObjectIn(db, r.objects, b), StorageIn(r.storage, b))
    {
      assert TidyAt(ObjectIn(db, w.objects, b), StorageIn(w.storage, b));
      if b == a {
        assert ObjectIn(db, r.objects, a) == ObjectIn(db, t.objects, a);
        assert StorageIn(r.storage, a) == StorageIn(t.storage, a);
      }
    }
  }

  lemma WriteAt(db: Db, a: Address, o: Option<Object>, storage: Storage, f: Flat, k: Word, v: Word)
    requires ViewAt(db, a, o, storage, f) && TidyAt(o, storage) && Contract(o)
    requires o.value.initial.Some? && o.value.initial.value.incarnation == o.value.current.value.incarnation ==>
      k in storage.committed
    ensures var y := storage.(current := storage.current[k := v]);
      ViewAt(db, a, o, y, f.(current := f.current[Cell(a, k) := v])) && TidyAt(o, y)
  {
    var y, g := storage.(current := storage.current[k := v]), f.(current := f.current[Cell(a, k) := v]);
    forall j
      ensures CommittedAt(db, a, o, y, j) == CommittedAt(db, a, o, storage, j)
      ensures At(g.current, a, j) == CurrentAt(db, a, o, y, j)
      ensures At(g.original, a, j) == At(f.original, a, j)
    {
      assert j != k ==> At(g.current, a, j) == At(f.current, a, j);
    }
  }

  lemma SetStorageSound(db: Db, s: State, a: Address, k: Word, v: Word, f: Flat)
    requires DbOk(db) && Sound(db, s, f) && Contract(ObjectIn(db, s.objects, a))
    ensures Sound(db, SetStorage(db, s, a, k, v), f.(current := f.current[Cell(a, k) := v]))
    ensures UndoTidy(db, s, SetStorage(db, s, a, k, v))
  {
    hide ViewAt, TidyAt, Fetch, FetchStorage, UndoTidy, Restores, Undoable, CurrentStorage, DbOk, Sound;
    var t, u := FetchStorage(db, s, a, k, false), SetStorage(db, s, a, k, v);
    FetchStorageSound(db, s, a, k, false, f);
    FetchStorageRestores(db, s, a, k, false);
    SameObject(db, s, t, a);
    FilledTidyCommits(db, s, a, k, f);
    if CurrentStorage(db, s, a, k) == v {
      ViewedRefines(db, s, f) by { SoundViewed(db, s, f); }
      NoChange(db, t, f, a, k, v) by { assert CurrentStorage(db, s, a, k) == At(f.current, a, k); }
      UndoTidyUnjournaled(db, s, t);
    } else {
      FetchStorageLoads(db, s, a, k);
      WrittenSound(db, t, u, a, k, v, f, CurrentStorage(db, s, a, k));
      WriteUndoTidy(db, s, t, u, a, k, v);
    }
  }

  lemma SoundViewed(db: Db, s: State, f: Flat)
    requires Sound(db, s, f)
    ensures Viewed(db, s, f)
  {
  }

  lemma SameObject(db: Db, s: State, t: State, a: Address)
    requires Restores(db, s, t)
    ensures ObjectIn(db, s.objects, a) == ObjectIn(db, t.objects, a)
  {
  }

  lemma FetchStorageLoads(db: Db, s: State, a: Address, k: Word)
    ensures a in db.accounts ==> a in FetchStorage(db, s, a, k, false).objects
  {
  }

  lemma WrittenSound(db: Db, t: State, u: State, a: Address, k: Word, v: Word, f: Flat, prior: Word)
    requires Sound(db, t, f) && Contract(ObjectIn(db, t.objects, a))
    requires var o := ObjectIn(db, t.objects, a).value;
      o.initial.Some? && o.initial.value.incarnation == o.current.value.incarnation ==>
        k in StorageIn(t.storage, a).committed
    requires var x := StorageOf(t, a);
      u == Log(t, StorageChange(a, k, prior)).(storage := t.storage[a := x.(current := x.current[k := v])])
    requires a in db.accounts ==> a in t.objects
    ensures Sound(db, u, f.(current := f.current[Cell(a, k) := v]))
  {
    hide ViewAt, TidyAt;
    var g := f.(current := f.current[Cell(a, k) := v]);
    assert ViewAt(db, a, ObjectIn(db, t.objects, a), StorageIn(t.storage, a), f);
    WriteAt(db, a, ObjectIn(db, t.objects, a), StorageIn(t.storage, a), f, k, v);
    OnlyAt(db, t, u, a, f, g);
  }

  lemma FilledTidyCommits(db: Db, s: State, a: Address, k: Word, f: Flat)
    requires DbOk(db) && Sound(db, s, f) && Contract(ObjectIn(db, s.objects, a))
    ensures var t := FetchStorage(db, s, a, k, false);
      var o := ObjectIn(db, s.objects, a).value;
      o.initial.Some? && o.initial.value.incarnation == o.current.value.incarnation ==>
        k in StorageIn(t.storage, a).committed
  {
    var o := ObjectIn(db, s.objects, a);
    FetchUndoable(db, s, a);
    assert o == ObjectIn(db, Fetch(db, s, a).objects, a);
    assert TidyAt(o, StorageIn(s.storage, a));
    FilledTidy(db, a, o.value, StorageIn(s.storage, a), k, false);
  }

  lemma NoChange(db: Db, t: State, f: Flat, a: Address, k: Word, v: Word)
    requires Sound(db, t, f) && At(f.current, a, k) == v
    ensures Sound(db, t, f.(current := f.current[Cell(a, k) := v]))
  {
    var g := f.(current := f.current[Cell(a, k) := v]);
    forall b, j
      ensures At(g.current, b, j) == At(f.current, b, j)
    {
    }
    forall b
      ensures ViewAt(db, b, ObjectIn(db, t.objects, b), StorageIn(t.storage, b), g)
    {
      assert ViewAt(db, b, ObjectIn(db, t.objects, b), StorageIn(t.storage, b), f);
    }
  }

  lemma WriteUndoTidy(db: Db, s: State, t: State, u: State, a: Address, k: Word, v: Word)
    requires Contract(ObjectIn(db, t.objects, a)) && t.journal == s.journal
    requires var o := ObjectIn(db, t.objects, a).value;
      o.initial.Some? && o.initial.value.incarnation == o.current.value.incarnation ==>
        k in StorageIn(t.storage, a).committed
    requires exists prior :: var x := StorageOf(t, a);
      u == Log(t, StorageChange(a, k, prior)).(storage := t.storage[a := x.(current := x.current[k := v])])
    ensures UndoTidy(db, s, u)
  {
    var prior :| var x := StorageOf(t, a);
      u == Log(t, StorageChange(a, k, prior)).(storage := t.storage[a := x.(current := x.current[k := v])]);
    forall w | Restores(db, u, w) && Tidy(db, w)
      ensures Tidy(db, Undo(w, StorageChange(a, k, prior)))
    {
      var r := Undo(w, StorageChange(a, k, prior));
      assert ObjectIn(db, w.objects, a) == ObjectIn(db, u.objects, a) == ObjectIn(db, t.objects, a);
      assert AccountIn(db, u.objects, a).Some?;
      assert SameSlots(db, a, ObjectIn(db, u.objects, a), StorageIn(u.storage, a), StorageIn(w.storage, a));
      assert k in StorageIn(u.storage, a).committed ==> k in StorageIn(w.storage, a).committed;
      forall b
        ensures TidyAt(ObjectIn(db, r.objects, b), StorageIn(r.storage, b))
      {
        assert TidyAt(ObjectIn(db, w.objects, b), StorageIn(w.storage, b));
      }
    }
    UndoTidyDelta(db, s, u, StorageChange(a, k, prior));
  }

  /** States that agree on objects and storage are alike. */
  lemma SoundCopy(db: Db, s: State, t: State, f: Flat)
    requires Sound(db, s, f) && t.objects == s.objects && t.storage == s.storage
    ensures Sound(db, t, f)
  {
  }

  /** What is pending for the end of the transaction does not matter for accounts and storage. */
  lemma SoundAside(db: Db, s: State, f: Flat, sub: Substate, novel: bool)
    requires Sound(db, s, f)
    ensures Sound(db, s, f.(sub := sub, novel := novel))
  {
    var g := f.(sub := sub, novel := novel);
    forall a
      ensures ViewAt(db, a, ObjectIn(db, s.objects, a), StorageIn(s.storage, a), g)
    {
      assert ViewAt(db, a, ObjectIn(db, s.objects, a), StorageIn(s.storage, a), f);
    }
  }

  /** Every legal operation acts on the caches as its counterpart acts on the flat maps. */
  lemma ApplySound(db: Db, keccak: Bytes -> Word, s: State, op: Op, f: Flat)
    requires DbOk(db) && Sound(db, s, f) && Legal(f, op)
    ensures Sound(db, Apply(db, keccak, s, op), FlatApply(db, keccak, f, op))
  {
    hide Sound, DbOk, Put, ChangeBalance, SetCode, CreateContract, SetStorage, Fetch, FetchCode, FetchStorage, FlatEdit,
      FlatCreate, Touch, RecordSuicide, AccessAccount, AccessStorage;
    match op
    case SetBalance(a, v) => ChangeBalanceSound(db, s, a, ToBalance(v), f);
    case AddToBalance(a, v) => ChangeBalanceSound(db, s, a, Credit(v), f);
    case SubtractFromBalance(a, v) => ChangeBalanceSound(db, s, a, Debit(v), f);
    case SetNonce(a, n) => PutSound(db, s, a, ToNonce(n), f);
    case DeployCode(a, code) => DeploySound(db, keccak, s, a, code, f);
    case WriteStorage(a, k, v) =>
      LegalContract(db, s, f, op);
      SetStorageSound(db, s, a, k, v, f);
    case MakeContract(a) => CreateContractSound(db, s, a, f);
    case ReadAccount(a) => FetchSound(db, s, a, f);
    case ReadCode(a) => FetchCodeSound(db, s, a, f);
    case ReadStorage(a, k, original) => FetchStorageSound(db, s, a, k, original, f);
    case _ => SubstateSound(db, keccak, s, op, f);
  }

  predicate OnSubstate(op: Op)
  {
    op.TouchAccount? || op.SelfDestruct? || op.WarmAccount? || op.WarmStorage? || op.AddLog? || op.AddRefund? || op.SubtractRefund?
  }

  lemma SubstateSound(db: Db, keccak: Bytes -> Word, s: State, op: Op, f: Flat)
    requires OnSubstate(op) && Sound(db, s, f)
    ensures Sound(db, Apply(db, keccak, s, op), FlatApply(db, keccak, f, op))
  {
    hide Sound, Apply;
    SubstateKeeps(db, keccak, s, op);
    var g := FlatApply(db, keccak, f, op);
    SoundAside(db, s, f, g.sub, g.novel);
    SoundCopy(db, s, Apply(db, keccak, s, op), g);
  }

  lemma LegalContract(db: Db, s: State, f: Flat, op: Op)
    requires Sound(db, s, f) && Legal(f, op) && op.WriteStorage?
    ensures Contract(ObjectIn(db, s.objects, op.a))
  {
    assert ViewAt(db, op.a, ObjectIn(db, s.objects, op.a), StorageIn(s.storage, op.a), f);
  }

  lemma SubstateKeeps(db: Db, keccak: Bytes -> Word, s: State, op: Op)
    requires OnSubstate(op)
    ensures Apply(db, keccak, s, op).objects == s.objects && Apply(db, keccak, s, op).storage == s.storage
  {
    hide Apply;
    SubstateKeepsCode(db, keccak, s, op);
  }

  lemma FetchCodeSound(db: Db, s: State, a: Address, f: Flat)
    requires Sound(db, s, f)
    ensures Sound(db, FetchCode(db, s, a), f)
  {
    hide Sound, Fetch;
    FetchSound(db, s, a, f);
    SoundCopy(db, Fetch(db, s, a), FetchCode(db, s, a), f);
  }

  lemma DeploySound(db: Db, keccak: Bytes -> Word, s: State, a: Address, code: Bytes, f: Flat)
    requires DbOk(db) && Sound(db, s, f)
    ensures Sound(db, SetCode(db, keccak, s, a, code), FlatEdit(f, a, ToCodeHash(keccak(code))))
  {
    hide Sound, Put, FlatEdit;
    var e := ToCodeHash(keccak(code));
    PutSound(db, s, a, e, f);
    SoundCopy(db, Put(db, s, a, e), SetCode(db, keccak, s, a, code), FlatEdit(f, a, e));
  }

  lemma ChangeBalanceSound(db: Db, s: State, a: Address, e: Edit, f: Flat)
    requires DbOk(db) && Sound(db, s, f)
    ensures Sound(db, ChangeBalance(db, s, a, e), FlatTouch(FlatEdit(f, a, e), a))
  {
    hide Sound, Put, FlatEdit;
    PutSound(db, s, a, e, f);
    var g := FlatTouch(FlatEdit(f, a, e), a);
    SoundAside(db, Put(db, s, a, e), FlatEdit(f, a, e), g.sub, g.novel);
    SoundCopy(db, Put(db, s, a, e), ChangeBalance(db, s, a, e), g);
  }

  lemma ApplyUndoTidy(db: Db, keccak: Bytes -> Word, s: State, op: Op, f: Flat)
    requires DbOk(db) && Sound(db, s, f) && Legal(f, op)
    ensures UndoTidy(db, s, Apply(db, keccak, s, op))
  {
    hide UndoTidy, FetchStorage, CreateContract, SetStorage, SetCode, FetchCode, ChangeBalance, Touch, Put, Fetch,
      RecordSuicide, AccessAccount, AccessStorage;
    var t := Apply(db, keccak, s, op);
    match op
    case ReadAccount(a) => FetchSound(db, s, a, f);
    case ReadCode(a) => FetchCodeUndoTidy(db, s, a);
    case ReadStorage(a, k, original) => FetchStorageSound(db, s, a, k, original, f);
    case SetBalance(a, v) => ChangeBalanceUndoTidy(db, s, a, ToBalance(v));
    case AddToBalance(a, v) => ChangeBalanceUndoTidy(db, s, a, Credit(v));
    case SubtractFromBalance(a, v) => ChangeBalanceUndoTidy(db, s, a, Debit(v));
    case SetNonce(a, n) => PutUndoTidy(db, s, a, ToNonce(n));
    case DeployCode(a, code) => SetCodeUndoTidy(db, keccak, s, a, code);
    case WriteStorage(a, k, v) =>
      LegalContract(db, s, f, op);
      SetStorageSound(db, s, a, k, v, f);
    case MakeContract(a) => CreateContractUndoTidy(db, s, a);
    case TouchAccount(a) => TouchUndoTidy(db, s, a);
    case SelfDestruct(_) | WarmAccount(_) | WarmStorage(_, _) => SubstateUndoTidy(db, keccak, s, op);
    case _ => UndoTidyUnjournaled(db, s, t);
  }

  lemma FetchCodeUndoTidy(db: Db, s: State, a: Address)
    ensures UndoTidy(db, s, FetchCode(db, s, a))
  {
    hide UndoTidy, Fetch;
    FetchJournal(db, s, a);
    UndoTidyUnjournaled(db, s, FetchCode(db, s, a));
  }

  lemma SetCodeUndoTidy(db: Db, keccak: Bytes -> Word, s: State, a: Address, code: Bytes)
    ensures UndoTidy(db, s, SetCode(db, keccak, s, a, code))
  {
    hide UndoTidy, Put;
    var put, t := Put(db, s, a, ToCodeHash(keccak(code))), SetCode(db, keccak, s, a, code);
    PutUndoTidy(db, s, a, ToCodeHash(keccak(code)));
    SameViews(db, put, t);
    UndoTidyFrom(db, s, put, t);
  }

  lemma SubstateUndoTidy(db: Db, keccak: Bytes -> Word, s: State, op: Op)
    requires op.SelfDestruct? || op.WarmAccount? || op.WarmStorage?
    ensures UndoTidy(db, s, Apply(db, keccak, s, op))
  {
    hide UndoTidy;
    var t := Apply(db, keccak, s, op);
    if t.journal == s.journal {
      UndoTidyUnjournaled(db, s, t);
    } else {
      var delta := match op
        case SelfDestruct(a) => Suicide(a)
        case WarmAccount(a) => AccountAccess(a)
        case WarmStorage(a, k) => StorageAccess(a, k);
      UndoTidySubstate(db, s, t, delta);
    }
  }

  lemma FetchJournal(db: Db, s: State, a: Address)
    ensures Fetch(db, s, a).journal == s.journal
  {
  }

  lemma TouchUndoTidy(db: Db, s: State, a: Address)
    ensures UndoTidy(db, s, Touch(s, a))
  {
    if a in s.touched || a == RIPEMD {
      UndoTidyUnjournaled(db, s, Touch(s, a));
    } else {
      UndoTidySubstate(db, s, Touch(s, a), Touched(a));
    }
  }

  lemma ChangeBalanceUndoTidy(db: Db, s: State, a: Address, e: Edit)
    ensures UndoTidy(db, s, ChangeBalance(db, s, a, e))
  {
    hide UndoTidy, Undoable, Put, Touch;
    PutUndoTidy(db, s, a, e);
    TouchUndoTidy(db, Put(db, s, a, e), a);
    TouchUndoable(db, Put(db, s, a, e), a);
    UndoTidyTransitive(db, s, Put(db, s, a, e), ChangeBalance(db, s, a, e));
  }

  // --- the end of a transaction ---

  lemma DestructedAt(db: Db, a: Address, o: Option<Object>, storage: Storage, f: Flat, gone: set<Address>)
    requires ViewAt(db, a, o, storage, f) && a in gone
    ensures var o' := if o.Some? then Some(o.value.(current := None)) else None;
      ViewAt(db, a, o', NO_STORAGE, FlatRemove(f, gone)) && TidyAt(o', NO_STORAGE)
  {
    forall k
      ensures At(Without(f.current, gone), a, k) == 0 && At(Without(f.original, gone), a, k) == 0
    {
      WithoutOthers(f.current, gone, a, k);
      WithoutOthers(f.original, gone, a, k);
    }
  }

  lemma KeptAt(db: Db, a: Address, o: Option<Object>, storage: Storage, f: Flat, gone: set<Address>)
    requires ViewAt(db, a, o, storage, f) && a !in gone
    ensures ViewAt(db, a, o, storage, FlatRemove(f, gone))
  {
    forall k
      ensures At(Without(f.current, gone), a, k) == At(f.current, a, k)
      ensures At(Without(f.original, gone), a, k) == At(f.original, a, k)
    {
      WithoutOthers(f.current, gone, a, k);
      WithoutOthers(f.original, gone, a, k);
    }
  }

  lemma DestructSound(db: Db, s: State, f: Flat, gone: set<Address>)
    requires Sound(db, s, f)
    ensures Sound(db, DestructAll(db, s, gone), FlatRemove(f, gone))
  {
    hide ViewAt, TidyAt, FlatEnd;
    var t := DestructAll(db, s, gone);
    var g := FlatRemove(f, gone);
    forall a
      ensures ViewAt(db, a, ObjectIn(db, t.objects, a), StorageIn(t.storage, a), g)
      ensures TidyAt(ObjectIn(db, t.objects, a), StorageIn(t.storage, a))
    {
      var o := ObjectIn(db, s.objects, a);
      assert ViewAt(db, a, o, StorageIn(s.storage, a), f);
      assert TidyAt(o, StorageIn(s.storage, a));
      if a in gone {
        DestructedAt(db, a, o, StorageIn(s.storage, a), f, gone);
        assert ObjectIn(db, t.objects, a) == if o.Some? then Some(o.value.(current := None)) else None;
      } else {
        KeptAt(db, a, o, StorageIn(s.storage, a), f, gone);
        assert ObjectIn(db, t.objects, a) == o;
      }
    }
  }

  lemma CommittedStorageAt(db: Db, a: Address, o: Option<Object>, storage: Storage, f: Flat)
    requires DbOk(db) && ViewAt(db, a, o, storage, f) && TidyAt(o, storage)
    ensures ViewAt(db, a, o, CommittedStorage(storage), f.(original := f.current))
    ensures TidyAt(o, CommittedStorage(storage))
  {
    var y := CommittedStorage(storage);
    if o.Some? && o.value.current.Some? {
      var incarnation := o.value.current.value.incarnation;
      forall k
        ensures CommittedAt(db, a, o, y, k).original == CurrentAt(db, a, o, storage, k)
        ensures f.anchored ==> CommittedAt(db, a, o, y, k).initial == db.ReadStorage(a, incarnation, k)
        ensures CurrentAt(db, a, o, y, k) == CurrentAt(db, a, o, storage, k)
      {
        assert f.anchored ==> CommittedAt(db, a, o, storage, k).initial == db.ReadStorage(a, incarnation, k);
      }
    }
  }

  /** Committing a transaction makes its current storage the next one's original storage. */
  lemma FinalizeSound(db: Db, s: State, f: Flat)
    requires DbOk(db) && Sound(db, s, f)
    ensures Sound(db, Finalize(s), f.(original := f.current))
  {
    hide ViewAt, TidyAt, CommittedStorage;
    var t, g := Finalize(s), f.(original := f.current);
    assert CommittedStorage(NO_STORAGE) == NO_STORAGE by { CommittedNothing(); }
    forall a
      ensures ViewAt(db, a, ObjectIn(db, t.objects, a), StorageIn(t.storage, a), g)
      ensures TidyAt(ObjectIn(db, t.objects, a), StorageIn(t.storage, a))
    {
      assert ViewAt(db, a, ObjectIn(db, s.objects, a), StorageIn(s.storage, a), f);
      assert TidyAt(ObjectIn(db, s.objects, a), StorageIn(s.storage, a));
      CommittedStorageAt(db, a, ObjectIn(db, s.objects, a), StorageIn(s.storage, a), f);
      assert StorageIn(t.storage, a) == CommittedStorage(StorageIn(s.storage, a));
    }
  }

  lemma CommittedNothing()
    ensures CommittedStorage(NO_STORAGE) == NO_STORAGE
  {
    assert CommittedStorage(NO_STORAGE).committed == map[];
  }

  function EndTransaction(db: Db, s: State, clearDead: bool): (t: State)
  {
    ClearSubstate(Finalize(DestructAll(db, s, Gone(db, s, clearDead))))
  }

  /** The slots that have been accessed. */
  function WarmCells(accessed: map<Address, set<Word>>): (r: set<Cell>)
  {
    set a, k | a in accessed && k in accessed[a] :: Cell(a, k)
  }

  function Gathered(s: State): (sub: Substate)
  {
    Substate(s.selfDestructs, s.touched, s.logs, s.accessedAddresses, WarmCells(s.accessedKeys))
  }

  /** The caches stand for the flat maps, and the same has been gathered. */
  ghost predicate Matches(db: Db, s: State, f: Flat)
  {
    Sound(db, s, f) && Gathered(s) == f.sub
  }

  /** The same accounts disappear. */
  lemma SameGone(db: Db, s: State, f: Flat, clearDead: bool)
    requires Matches(db, s, f)
    ensures Gone(db, s, clearDead) == FlatGone(f, clearDead)
  {
    hide DestructAll;
    var t := DestructAll(db, s, s.selfDestructs);
    forall a | a !in s.selfDestructs
      ensures Dead(db, t, a) <==> FlatDead(f, a)
    {
      DestructAllAt(db, s, s.selfDestructs, a);
      assert ViewAt(db, a, ObjectIn(db, s.objects, a), StorageIn(s.storage, a), f);
    }
  }

  lemma EndTransactionSound(db: Db, s: State, f: Flat, clearDead: bool)
    requires DbOk(db) && Matches(db, s, f)
    ensures Matches(db, EndTransaction(db, s, clearDead), FlatEnd(f, clearDead))
  {
    hide Sound, Gone, FlatGone, DestructAll, Finalize;
    var gone := Gone(db, s, clearDead);
    SameGone(db, s, f, clearDead);
    var g := FlatRemove(f, gone);
    DestructSound(db, s, f, gone);
    FinalizeSound(db, DestructAll(db, s, gone), g);
    var t := Finalize(DestructAll(db, s, gone));
    SoundAside(db, t, g.(original := g.current), NOTHING, g.novel);
    SoundCopy(db, t, EndTransaction(db, s, clearDead), FlatEnd(f, clearDead));
  }

  // --- what is pending ---

  /** Touching address 3 is not journaled, so no revert undoes it. */
  ghost predicate NoRipemd(deltas: seq<Delta>)
  {
    forall i | 0 <= i < |deltas| :: deltas[i] != Touched(RIPEMD)
  }

  lemma {:induction false} UndoKeepsRipemd(s: State, deltas: seq<Delta>)
    requires NoRipemd(deltas)
    ensures RIPEMD in UndoAll(s, deltas).touched <==> RIPEMD in s.touched
    decreases |deltas|
  {
    if deltas != [] {
      var last := deltas[|deltas| - 1];
      assert last != Touched(RIPEMD);
      UndoKeepsRipemd(Undo(s, last), deltas[..|deltas| - 1]);
    }
  }

  /** Nothing was gathered between `s` and `t`. */
  predicate Aside(s: State, t: State)
  {
    && t.selfDestructs == s.selfDestructs && t.touched == s.touched && t.logs == s.logs
    && t.accessedAddresses == s.accessedAddresses && t.accessedKeys == s.accessedKeys
  }

  lemma PutPending(db: Db, s: State, a: Address, e: Edit)
    requires NoRipemd(s.journal)
    ensures var t := Put(db, s, a, e); Aside(s, t) && NoRipemd(t.journal)
  {
    hide Edited, Obtain;
    ObtainPending(db, s, a);
  }

  lemma ObtainPending(db: Db, s: State, a: Address)
    requires NoRipemd(s.journal)
    ensures var t := Obtain(db, s, a); Aside(s, t) && NoRipemd(t.journal)
  {
    hide Fetch;
    FetchRest(db, s, a);
  }

  lemma FetchStoragePending(db: Db, s: State, a: Address, k: Word, original: bool)
    ensures var t := FetchStorage(db, s, a, k, original);
      Aside(s, t) && t.journal == s.journal
  {
    hide Filled;
  }

  lemma SetStoragePending(db: Db, s: State, a: Address, k: Word, v: Word)
    requires NoRipemd(s.journal)
    ensures var t := SetStorage(db, s, a, k, v);
      Aside(s, t) && NoRipemd(t.journal)
  {
    hide FetchStorage, CurrentStorage;
    FetchStoragePending(db, s, a, k, false);
  }

  lemma CreatePending(db: Db, s: State, a: Address)
    requires NoRipemd(s.journal)
    ensures var t := CreateContract(db, s, a);
      Aside(s, t) && NoRipemd(t.journal)
  {
    hide CreateObject;
    CreateObjectPending(db, s, a);
  }

  lemma CreateObjectPending(db: Db, s: State, a: Address)
    requires NoRipemd(s.journal)
    ensures var t := CreateObject(db, s, a);
      Aside(s, t) && NoRipemd(t.journal)
  {
    hide NewIncarnation;
  }

  lemma TouchPending(s: State, a: Address)
    requires NoRipemd(s.journal)
    ensures var t := Touch(s, a);
      Aside(s.(touched := s.touched + {a}), t) && NoRipemd(t.journal)
  {
  }

  lemma FetchPending(db: Db, s: State, a: Address)
    ensures var t := Fetch(db, s, a); Aside(s, t) && t.journal == s.journal
    ensures var t := FetchCode(db, s, a); Aside(s, t) && t.journal == s.journal
  {
  }

  lemma CodePending(db: Db, keccak: Bytes -> Word, s: State, a: Address, code: Bytes)
    requires NoRipemd(s.journal)
    ensures var t := SetCode(db, keccak, s, a, code);
      Aside(s, t) && NoRipemd(t.journal)
  {
    hide Put;
    PutPending(db, s, a, ToCodeHash(keccak(code)));
  }

  lemma BalancePending(db: Db, s: State, a: Address, e: Edit)
    requires NoRipemd(s.journal)
    ensures var t := ChangeBalance(db, s, a, e);
      Aside(s.(touched := s.touched + {a}), t) && NoRipemd(t.journal)
  {
    hide Put, Touch;
    PutPending(db, s, a, e);
    TouchPending(Put(db, s, a, e), a);
  }

  lemma SubstatePending(db: Db, keccak: Bytes -> Word, s: State, op: Op)
    requires NoRipemd(s.journal)
    requires op.SelfDestruct? || op.WarmAccount? || op.WarmStorage? || op.AddLog? || op.AddRefund? || op.SubtractRefund?
    ensures var t := Apply(db, keccak, s, op);
      && NoRipemd(t.journal)
      && Gathered(t) ==
         match op
         case SelfDestruct(a) => Gathered(s).(selfDestructs := s.selfDestructs + {a})
         case WarmAccount(a) => Gathered(s).(warm := s.accessedAddresses + {a})
         case WarmStorage(a, k) => Gathered(s).(warmKeys := Gathered(s).warmKeys + {Cell(a, k)})
         case AddLog(log) => Gathered(s).(logs := s.logs + [log])
         case _ => Gathered(s)
  {
    hide RecordSuicide, AccessAccount, AccessStorage;
    match op
    case SelfDestruct(a) => SuicidePending(s, a);
    case WarmAccount(a) => WarmPending(s, a, 0);
    case WarmStorage(a, k) => WarmPending(s, a, k);
    case _ =>
  }

  lemma SuicidePending(s: State, a: Address)
    requires NoRipemd(s.journal)
    ensures var t := RecordSuicide(s, a); Aside(s.(selfDestructs := s.selfDestructs + {a}), t) && NoRipemd(t.journal)
  {
  }

  lemma WarmPending(s: State, a: Address, k: Word)
    requires NoRipemd(s.journal)
    ensures var t := AccessAccount(s, a); Aside(s.(accessedAddresses := s.accessedAddresses + {a}), t) && NoRipemd(t.journal)
    ensures var t := AccessStorage(s, a, k);
      && Aside(s.(accessedKeys := t.accessedKeys), t) && NoRipemd(t.journal)
      && WarmCells(t.accessedKeys) == WarmCells(s.accessedKeys) + {Cell(a, k)}
  {
    var t := AccessStorage(s, a, k);
    var keys := if a in s.accessedKeys then s.accessedKeys[a] else {};
    assert t.accessedKeys == s.accessedKeys[a := keys + {k}];
    WarmCellsAdd(s.accessedKeys, a, k);
  }

  lemma WarmCellsAdd(accessed: map<Address, set<Word>>, a: Address, k: Word)
    ensures WarmCells(accessed[a := (if a in accessed then accessed[a] else {}) + {k}]) == WarmCells(accessed) + {Cell(a, k)}
  {
  }

  /** Operations leave the same pending as their flat counterparts. */
  lemma ApplyPending(db: Db, keccak: Bytes -> Word, s: State, op: Op, f: Flat)
    requires NoRipemd(s.journal) && Gathered(s) == f.sub
    ensures var t, g := Apply(db, keccak, s, op), FlatApply(db, keccak, f, op); Gathered(t) == g.sub && NoRipemd(t.journal)
  {
    hide NoRipemd, Put, ChangeBalance, SetCode, CreateContract, SetStorage, Fetch, FetchCode, FetchStorage,
      Seed, Without, FlatIncarnation, Touch, RecordSuicide, AccessAccount, AccessStorage, WarmCells;
    match op
    case SetBalance(a, v) => BalancePending(db, s, a, ToBalance(v));
    case AddToBalance(a, v) => BalancePending(db, s, a, Credit(v));
    case SubtractFromBalance(a, v) => BalancePending(db, s, a, Debit(v));
    case SetNonce(a, n) => PutPending(db, s, a, ToNonce(n));
    case DeployCode(a, code) => CodePending(db, keccak, s, a, code);
    case WriteStorage(a, k, v) => SetStoragePending(db, s, a, k, v);
    case MakeContract(a) => CreatePending(db, s, a);
    case ReadAccount(a) => FetchPending(db, s, a);
    case ReadCode(a) => FetchPending(db, s, a);
    case ReadStorage(a, k, original) => FetchStoragePending(db, s, a, k, original);
    case TouchAccount(a) => TouchPending(s, a);
    case _ => SubstatePending(db, keccak, s, op);
  }

  // --- whole transactions and blocks ---

  /** A run of the caches beside a run of the flat maps, where a snapshot is a plain copy. */
  ghost predicate Linked(db: Db, m: Machine, f: Flat, saved: seq<Flat>)
  {
    && Consistent(db, m) && Matches(db, m.now, f) && NoRipemd(m.now.journal)
    && |saved| == |m.marks|
    && (forall i | 0 <= i < |saved| :: Matches(db, m.marks[i].saved, saved[i]))
    && (forall i | 0 <= i < |saved| :: UndoTidy(db, m.marks[i].saved, m.now))
    && (forall i, j | 0 <= i <= j < |saved| :: UndoTidy(db, m.marks[i].saved, m.marks[j].saved))
  }

  /** Going back to `g`; that address 3 was touched is not forgotten. */
  function FlatRevert(f: Flat, g: Flat): (h: Flat)
  {
    g.(sub := g.sub.(touched := (g.sub.touched - {RIPEMD}) + (f.sub.touched * {RIPEMD})), novel := f.novel)
  }

  function FlatNext(db: Db, keccak: Bytes -> Word, f: Flat, saved: seq<Flat>, step: Step): (r: (Flat, seq<Flat>))
    requires step.RevertTo? ==> step.i < |saved|
  {
    match step
    case Do(op) => (FlatApply(db, keccak, f, op), saved)
    case Take => (f, saved + [f])
    case RevertTo(i) => (FlatRevert(f, saved[i]), saved[..i + 1])
  }

  predicate LegalStep(f: Flat, saved: seq<Flat>, step: Step)
  {
    match step
    case Do(op) => Legal(f, op)
    case Take => true
    case RevertTo(i) => i < |saved|
  }

  lemma NextLinked(db: Db, keccak: Bytes -> Word, m: Machine, step: Step, f: Flat, saved: seq<Flat>)
    requires DbOk(db) && Linked(db, m, f, saved) && LegalStep(f, saved, step)
    ensures step.RevertTo? ==>
      && step.i < |m.marks|
      && m.marks[step.i].snapshot.journalSize <= |m.now.journal|
      && m.marks[step.i].snapshot.logSize <= |m.now.logs|
    ensures var (g, kept) := FlatNext(db, keccak, f, saved, step);
      Linked(db, Next(db, keccak, m, step), g, kept)
  {
    hide Consistent, Sound, UndoTidy, Undoable, Restores, Apply, FlatApply, NoRipemd;
    NextConsistent(db, keccak, m, step);
    var s := m.now;
    match step
    case Do(op) =>
      ApplySound(db, keccak, s, op, f);
      ApplyPending(db, keccak, s, op, f);
      ApplyUndoTidy(db, keccak, s, op, f);
      ApplyUndoable(db, keccak, s, op);
      forall i | 0 <= i < |saved|
        ensures UndoTidy(db, m.marks[i].saved, Apply(db, keccak, s, op))
      {
        UndoTidyTransitive(db, m.marks[i].saved, s, Apply(db, keccak, s, op));
      }
    case Take =>
      UndoTidyUnjournaled(db, s, s);
    case RevertTo(i) =>
      var from := m.marks[i].saved;
      assert Descends(db, from, s) && m.marks[i].snapshot == TakeSnapshot(from) by { ConsistentMark(db, m, i); }
      RevertRestores(db, from, s);
      var t := Revert(s, m.marks[i].snapshot);
      RevertTidy(db, from, s, saved[i], f);
      RevertPending(db, from, s, saved[i], f);
      forall j | 0 <= j < i + 1
        ensures UndoTidy(db, m.marks[j].saved, t)
      {
        UndoTidyFrom(db, m.marks[j].saved, from, t);
      }
  }

  lemma ConsistentMark(db: Db, m: Machine, i: nat)
    requires Consistent(db, m) && i < |m.marks|
    ensures Descends(db, m.marks[i].saved, m.now) && m.marks[i].snapshot == TakeSnapshot(m.marks[i].saved)
  {
  }

  lemma RevertTidy(db: Db, saved: State, cur: State, g: Flat, f: Flat)
    requires Descends(db, saved, cur) && UndoTidy(db, saved, cur) && Sound(db, saved, g) && Sound(db, cur, f)
    ensures |saved.journal| <= |cur.journal| && |saved.logs| <= |cur.logs|
    ensures Sound(db, Revert(cur, TakeSnapshot(saved)), FlatRevert(f, g))
  {
    hide Viewed, Restores;
    RevertRestores(db, saved, cur);
    var t := Revert(cur, TakeSnapshot(saved));
    RestoresKeepsView(db, saved, t, g);
    RestoresReflexive(db, cur);
    assert Tidy(db, UndoAll(cur, cur.journal[|saved.journal|..]));
    SoundAside(db, t, g, FlatRevert(f, g).sub, f.novel);
  }

  lemma RevertPending(db: Db, saved: State, cur: State, g: Flat, f: Flat)
    requires Descends(db, saved, cur) && NoRipemd(cur.journal)
    requires Gathered(saved) == g.sub && Gathered(cur) == f.sub
    ensures |saved.journal| <= |cur.journal| && |saved.logs| <= |cur.logs|
    ensures var t, h := Revert(cur, TakeSnapshot(saved)), FlatRevert(f, g);
      Gathered(t) == h.sub && NoRipemd(t.journal)
  {
    hide Restores, SameObservations, Undoable;
    RevertRestores(db, saved, cur);
    var deltas, t := cur.journal[|saved.journal|..], Revert(cur, TakeSnapshot(saved));
    UndoKeepsRipemd(cur, deltas);
    RestoredPending(db, saved, t);
    assert t.journal == cur.journal[..|saved.journal|];
  }

  lemma RestoredPending(db: Db, s: State, t: State)
    requires SameObservations(db, s, t)
    ensures t.selfDestructs == s.selfDestructs && t.touched - {RIPEMD} == s.touched - {RIPEMD} && t.logs == s.logs
    ensures t.accessedAddresses == s.accessedAddresses && WarmCells(t.accessedKeys) == WarmCells(s.accessedKeys)
  {
    forall a, k ensures Cell(a, k) in WarmCells(t.accessedKeys) <==> Cell(a, k) in WarmCells(s.accessedKeys) {
      assert AccessedKeys(t, a) == AccessedKeys(s, a);
    }
    forall c: Cell ensures c in WarmCells(t.accessedKeys) <==> c in WarmCells(s.accessedKeys) {
      assert c == Cell(c.a, c.k);
    }
  }

  ghost predicate LegalRun(db: Db, keccak: Bytes -> Word, f: Flat, saved: seq<Flat>, steps: seq<Step>)
    decreases |steps|
  {
    steps == [] ||
    (LegalStep(f, saved, steps[0]) &&
     var (g, kept) := FlatNext(db, keccak, f, saved, steps[0]);
     LegalRun(db, keccak, g, kept, steps[1..]))
  }

  /** The flat maps after a run. */
  function FlatRun(db: Db, keccak: Bytes -> Word, f: Flat, saved: seq<Flat>, steps: seq<Step>): (g: Flat)
    requires LegalRun(db, keccak, f, saved, steps)
    decreases |steps|
  {
    if steps == [] then f
    else
      var (g, kept) := FlatNext(db, keccak, f, saved, steps[0]);
      FlatRun(db, keccak, g, kept, steps[1..])
  }

  lemma {:induction false} LegalProper(db: Db, keccak: Bytes -> Word, f: Flat, saved: seq<Flat>, steps: seq<Step>)
    requires LegalRun(db, keccak, f, saved, steps)
    ensures Proper(|saved|, steps)
    decreases |steps|
  {
    if steps != [] {
      var (g, kept) := FlatNext(db, keccak, f, saved, steps[0]);
      LegalProper(db, keccak, g, kept, steps[1..]);
    }
  }

  /** After every legal run, with nested snapshots and reverts, the caches stand for the flat maps. */
  lemma {:induction false} RunSound(db: Db, keccak: Bytes -> Word, m: Machine, steps: seq<Step>, f: Flat, saved: seq<Flat>)
    requires DbOk(db) && Linked(db, m, f, saved) && LegalRun(db, keccak, f, saved, steps)
    ensures Proper(|m.marks|, steps)
    ensures Matches(db, Run(db, keccak, m, steps).now, FlatRun(db, keccak, f, saved, steps))
    decreases |steps|
  {
    hide Consistent, Sound, UndoTidy, NoRipemd, FlatNext, Legal;
    LegalProper(db, keccak, f, saved, steps);
    if steps != [] {
      NextLinked(db, keccak, m, steps[0], f, saved);
      var (g, kept) := FlatNext(db, keccak, f, saved, steps[0]);
      RunSound(db, keccak, Next(db, keccak, m, steps[0]), steps[1..], g, kept);
    }
  }

  lemma StartLinked(db: Db, s: State, f: Flat)
    requires Matches(db, s, f) && s.journal == []
    ensures Consistent(db, Machine(s, [])) && Linked(db, Machine(s, []), f, [])
  {
  }

  /** Transactions one after the other, each from a state without snapshots. */
  ghost predicate LegalBlock(db: Db, keccak: Bytes -> Word, f: Flat, txns: seq<seq<Step>>, clearDead: bool)
    decreases |txns|
  {
    txns == [] ||
    (LegalRun(db, keccak, f, [], txns[0]) &&
     LegalBlock(db, keccak, FlatEnd(FlatRun(db, keccak, f, [], txns[0]), clearDead), txns[1..], clearDead))
  }

  function FlatBlock(db: Db, keccak: Bytes -> Word, f: Flat, txns: seq<seq<Step>>, clearDead: bool): (g: Flat)
    requires LegalBlock(db, keccak, f, txns, clearDead)
    decreases |txns|
  {
    if txns == [] then f
    else FlatBlock(db, keccak, FlatEnd(FlatRun(db, keccak, f, [], txns[0]), clearDead), txns[1..], clearDead)
  }

  ghost function AfterTransaction(db: Db, keccak: Bytes -> Word, s: State, txn: seq<Step>, clearDead: bool): (t: State)
    requires Proper(0, txn)
  {
    EndTransaction(db, Run(db, keccak, Machine(s, []), txn).now, clearDead)
  }

  ghost function AfterBlock(db: Db, keccak: Bytes -> Word, s: State, txns: seq<seq<Step>>, clearDead: bool): (t: State)
    requires forall txn <- txns :: Proper(0, txn)
    decreases |txns|
  {
    if txns == [] then s
    else AfterBlock(db, keccak, AfterTransaction(db, keccak, s, txns[0], clearDead), txns[1..], clearDead)
  }

  const FRESH_STATE := State(map[], map[], map[], [], {}, [], {}, 0, {}, map[])

  /** The flat maps that a database stands for, restricted to the cells it holds. */
  ghost function FlatOf(db: Db): (f: Flat)
  {
    var cells := map slot | slot in db.storage && slot.address in db.accounts
                            && db.accounts[slot.address].incarnation == slot.incarnation ::
                   Cell(slot.address, slot.location) := db.storage[slot];
    Flat(db.accounts, cells, cells, NOTHING, true, true)
  }

  lemma CellsOf(db: Db, a: Address, k: Word)
    ensures At(FlatOf(db).current, a, k) ==
            if a in db.accounts then db.ReadStorage(a, db.accounts[a].incarnation, k) else 0
  {
    if a in db.accounts {
      var slot := Slot(a, db.accounts[a].incarnation, k);
      if slot in db.storage {
        assert Cell(slot.address, slot.location) in FlatOf(db).current;
      }
    }
  }

  lemma FreshSound(db: Db)
    ensures Matches(db, FRESH_STATE, FlatOf(db))
  {
    hide FlatOf;
    var f := FlatOf(db);
    assert f.accounts == db.accounts && f.original == f.current && f.sub == NOTHING by { FlatOfAccounts(db); }
    forall a
      ensures ViewAt(db, a, ObjectIn(db, map[], a), NO_STORAGE, f)
    {
      forall k
        ensures At(f.current, a, k) == if a in db.accounts then db.ReadStorage(a, db.accounts[a].incarnation, k) else 0
      {
        CellsOf(db, a, k);
      }
    }
  }

  lemma FlatOfAccounts(db: Db)
    ensures var f := FlatOf(db);
      f.accounts == db.accounts && f.original == f.current && f.sub == NOTHING && f.anchored && f.novel
  {
  }

  lemma {:induction false} LegalBlockProper(db: Db, keccak: Bytes -> Word, f: Flat, txns: seq<seq<Step>>, clearDead: bool)
    requires LegalBlock(db, keccak, f, txns, clearDead)
    ensures forall txn <- txns :: Proper(0, txn)
    decreases |txns|
  {
    hide Proper, LegalRun, FlatRun;
    if txns != [] {
      LegalProper(db, keccak, f, [], txns[0]);
      LegalBlockProper(db, keccak, FlatEnd(FlatRun(db, keccak, f, [], txns[0]), clearDead), txns[1..], clearDead);
      assert txns == [txns[0]] + txns[1..];
    }
  }

  /** Over any number of transactions the caches stand for the flat maps: current storage is
      the last write that was not reverted, and original storage is its value when the
      transaction began. */
  lemma {:induction false} BlockSound(db: Db, keccak: Bytes -> Word, s: State, txns: seq<seq<Step>>, clearDead: bool, f: Flat)
    requires DbOk(db) && Matches(db, s, f) && s.journal == [] && LegalBlock(db, keccak, f, txns, clearDead)
    ensures forall txn <- txns :: Proper(0, txn)
    ensures Matches(db, AfterBlock(db, keccak, s, txns, clearDead), FlatBlock(db, keccak, f, txns, clearDead))
    ensures AfterBlock(db, keccak, s, txns, clearDead).journal == []
    decreases |txns|
  {
    hide Sound, Consistent, LegalRun, Proper, Gone, FlatGone, Finalize, DestructAll, Matches, FlatRun;
    LegalBlockProper(db, keccak, f, txns, clearDead);
    if txns != [] {
      var m := Machine(s, []);
      StartLinked(db, s, f);
      RunSound(db, keccak, m, txns[0], f, []);
      var t, g := Run(db, keccak, m, txns[0]).now, FlatRun(db, keccak, f, [], txns[0]);
      EndTransactionSound(db, t, g, clearDead);
      BlockSound(db, keccak, AfterTransaction(db, keccak, s, txns[0], clearDead), txns[1..], clearDead, FlatEnd(g, clearDead));
    }
  }

  /** From the state in which a block starts, what the interface returns is what the flat maps hold. */
  lemma BlockRefines(db: Db, keccak: Bytes -> Word, txns: seq<seq<Step>>, clearDead: bool)
    requires DbOk(db) && LegalBlock(db, keccak, FlatOf(db), txns, clearDead)
    ensures forall txn <- txns :: Proper(0, txn)
    ensures Refines(db, AfterBlock(db, keccak, FRESH_STATE, txns, clearDead),
                    FlatBlock(db, keccak, FlatOf(db), txns, clearDead))
  {
    hide Proper, FlatOf, AfterBlock, FlatBlock, LegalBlock;
    FreshSound(db);
    BlockSound(db, keccak, FRESH_STATE, txns, clearDead, FlatOf(db));
    ViewedRefines(db, AfterBlock(db, keccak, FRESH_STATE, txns, clearDead),
                  FlatBlock(db, keccak, FlatOf(db), txns, clearDead));
  }

  // --- when a created contract starts with empty storage ---

  /** Exactly when the chosen incarnation is not the one the block started with, or the
      database holds nothing under it. */
  lemma CreatedStorageEmpty(db: Db, s: State, a: Address)
    ensures (forall k :: CurrentStorage(db, CreateContract(db, s, a), a, k) == 0) <==>
            var o := ObjectOf(db, s, a);
            (o.Some? && o.value.initial.Some? && o.value.initial.value.incarnation == NewIncarnation(db, s, a)
             ==> Fresh(db, s, a))
  {
    hide CreateContract, NewIncarnation;
    CreatedShape(db, s, a);
    var u, o := CreateContract(db, s, a), ObjectOf(db, s, a);
    var n := NewIncarnation(db, s, a);
    forall k
      ensures CurrentStorage(db, u, a, k) ==
              if o.Some? && o.value.initial.Some? && o.value.initial.value.incarnation == n
              then db.ReadStorage(a, n, k) else 0
    {
    }
  }

  /** A contract that is destructed, then credited, then created again within one block takes
      up the incarnation it had before, and its storage of the previous block reappears. */
  lemma StaleStorageReappears(db: Db, keccak: Bytes -> Word, a: Address, k: Word)
    requires a in db.accounts && db.accounts[a].incarnation == 1 && db.PreviousIncarnation(a) == 0
    ensures var s1 := EndTransaction(db, Apply(db, keccak, FRESH_STATE, SelfDestruct(a)), true);
      var s2 := EndTransaction(db, Apply(db, keccak, s1, AddToBalance(a, 5)), true);
      var s3 := Apply(db, keccak, s2, MakeContract(a));
      && !Live(db, s1, a)
      && CurrentStorage(db, s3, a, k) == db.ReadStorage(a, 1, k)
  {
    hide EndTransaction, ChangeBalance, CreateContract;
    var acc := db.accounts[a];
    var t1 := RecordSuicide(FRESH_STATE, a);
    EndDestructed(db, a, t1);
    var s1 := EndTransaction(db, t1, true);
    var t2 := ChangeBalance(db, s1, a, Credit(5));
    CreditedAgain(db, s1, a, acc);
    EndKept(db, a, t2);
    var s2 := EndTransaction(db, t2, true);
    CreatedShape(db, s2, a);
  }

  lemma EndDestructed(db: Db, a: Address, s: State)
    requires a in db.accounts && s == RecordSuicide(FRESH_STATE, a)
    ensures var t := EndTransaction(db, s, true);
      && t.objects == map[a := Object(Some(db.accounts[a]), None)] && t.storage == map[]
      && t.touched == {} && t.selfDestructs == {}
  {
    assert Gone(db, s, true) == {a};
    assert DestructAll(db, s, {a}).objects == map[a := Object(Some(db.accounts[a]), None)];
  }

  lemma CreditedAgain(db: Db, s: State, a: Address, acc: Account)
    requires s.objects == map[a := Object(Some(acc), None)] && s.touched == {} && s.storage == map[]
    ensures var t := ChangeBalance(db, s, a, Credit(5));
      && t.objects == map[a := Object(Some(acc), Some(EMPTY_ACCOUNT.(balance := 5)))]
      && t.touched == {a} && t.selfDestructs == s.selfDestructs && t.storage == map[]
  {
  }

  lemma EndKept(db: Db, a: Address, s: State)
    requires s.selfDestructs == {} && s.touched == {a} && a in s.objects && s.storage == map[]
    requires s.objects[a].current.Some? && s.objects[a].current.value.balance != 0
    ensures EndTransaction(db, s, true).objects == s.objects && EndTransaction(db, s, true).storage == map[]
  {
    DestructNone(db, s);
    assert Gone(db, s, true) == {};
  }
}
