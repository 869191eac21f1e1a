/** The sum of all balances, and what each operation of the state does to it. */
module Ether {
  import opened Basics
  import opened World
  import opened Journal

  // --- sums over maps ---

  ghost function Total(m: map<Address, nat>): (t: nat)
  {
    if m == map[] then 0
    else
      var a :| a in m;
      m[a] + Total(m - {a})
  }

  lemma {:induction false} TotalSplit(m: map<Address, nat>, a: Address)
    requires a in m
    ensures Total(m) == m[a] + Total(m - {a})
  {
    var b :| b in m && Total(m) == m[b] + Total(m - {b});
    if a != b {
      TotalSplit(m - {b}, a);
      TotalSplit(m - {a}, b);
      assert m - {b} - {a} == m - {a} - {b};
    }
  }

  function ValueAt(m: map<Address, nat>, a: Address): (v: nat)
  {
    if a in m then m[a] else 0
  }

  /** Zeros are not kept. */
  function With(m: map<Address, nat>, a: Address, v: nat): (r: map<Address, nat>)
  {
    if v == 0 then m - {a} else m[a := v]
  }

  lemma TotalWith(m: map<Address, nat>, a: Address, v: nat)
    ensures Total(With(m, a, v)) == Total(m) - ValueAt(m, a) + v
    ensures ValueAt(m, a) <= Total(m)
  {
    if a in m {
      TotalSplit(m, a);
    } else {
      assert m - {a} == m;
    }
    if v != 0 {
      TotalSplit(m[a := v], a);
      assert m[a := v] - {a} == m - {a};
    }
  }

  lemma TotalPair(m: map<Address, nat>, a: Address, b: Address)
    requires a != b
    ensures ValueAt(m, a) + ValueAt(m, b) <= Total(m)
  {
    TotalWith(m, a, 0);
    TotalWith(m - {a}, b, 0);
    assert ValueAt(m - {a}, b) == ValueAt(m, b);
  }

  // --- balances ---

  function BalanceIn(db: Db, objects: Objects, a: Address): (v: Word)
  {
    match AccountIn(db, objects, a) case Some(c) => c.balance case None => 0
  }

  function BalanceOf(db: Db, s: State, a: Address): (v: Word)
  {
    BalanceIn(db, s.objects, a)
  }

  ghost function Balances(db: Db, s: State): (m: map<Address, nat>)
  {
    map a | a in s.objects.Keys + db.accounts.Keys && BalanceIn(db, s.objects, a) != 0 :: BalanceIn(db, s.objects, a)
  }

  lemma BalancesAt(db: Db, s: State, a: Address)
    ensures ValueAt(Balances(db, s), a) == BalanceOf(db, s, a)
    ensures a in Balances(db, s) <==> BalanceOf(db, s, a) != 0
  {
  }

  /** The sum of all balances. */
  ghost function Supply(db: Db, s: State): (n: nat)
  {
    Total(Balances(db, s))
  }

  lemma SameBalances(db: Db, s: State, t: State)
    requires forall a :: BalanceIn(db, t.objects, a) == BalanceIn(db, s.objects, a)
    ensures Supply(db, t) == Supply(db, s)
  {
    forall a
      ensures a in Balances(db, t) <==> a in Balances(db, s)
      ensures a in Balances(db, s) ==> Balances(db, t)[a] == Balances(db, s)[a]
    {
      BalancesAt(db, s, a);
      BalancesAt(db, t, a);
      assert BalanceIn(db, t.objects, a) == BalanceIn(db, s.objects, a);
    }
    assert Balances(db, t) == Balances(db, s);
  }

  /** Only the balance of `a` has changed. */
  lemma OneBalance(db: Db, s: State, t: State, a: Address)
    requires forall b | b != a :: BalanceIn(db, t.objects, b) == BalanceIn(db, s.objects, b)
    ensures Supply(db, t) == Supply(db, s) - BalanceOf(db, s, a) + BalanceOf(db, t, a)
    ensures BalanceOf(db, s, a) <= Supply(db, s)
  {
    var x, y, v := Balances(db, s), Balances(db, t), BalanceOf(db, t, a);
    forall b
      ensures b in y <==> b in With(x, a, v)
      ensures b in y ==> y[b] == With(x, a, v)[b]
    {
      BalancesAt(db, s, b);
      BalancesAt(db, t, b);
    }
    assert y == With(x, a, v);
    TotalWith(x, a, v);
    BalancesAt(db, s, a);
  }

  lemma TwoBalances(db: Db, s: State, a: Address, b: Address)
    requires a != b
    ensures BalanceOf(db, s, a) + BalanceOf(db, s, b) <= Supply(db, s)
  {
    TotalPair(Balances(db, s), a, b);
    BalancesAt(db, s, a);
    BalancesAt(db, s, b);
  }

  // --- operations ---

  /** The balance that `op` leaves in the account it names. */
  function NewBalance(op: Op, balance: Word): (v: Word)
  {
    match op
    case SetBalance(_, v) => v
    case AddToBalance(_, v) => (balance as int + v as int) % TWO_256
    case SubtractFromBalance(_, v) => (balance as int - v as int) % TWO_256
    case _ => balance
  }

  predicate MovesBalance(op: Op)
  {
    op.SetBalance? || op.AddToBalance? || op.SubtractFromBalance?
  }

  lemma PutBalance(db: Db, s: State, a: Address, e: Edit)
    ensures var c := if AccountOf(db, s, a).Some? then AccountOf(db, s, a).value else EMPTY_ACCOUNT;
      BalanceOf(db, Put(db, s, a, e), a) == Edited(c, e).balance
    ensures forall b | b != a :: BalanceIn(db, Put(db, s, a, e).objects, b) == BalanceIn(db, s.objects, b)
  {
    hide Put, Edited;
    PutShape(db, s, a, e);
    var t := Put(db, s, a, e);
    forall b | b != a
      ensures BalanceIn(db, t.objects, b) == BalanceIn(db, s.objects, b)
    {
      assert ObjectIn(db, s.objects, b) == ObjectIn(db, t.objects, b);
    }
  }

  lemma ApplyMoves(db: Db, keccak: Bytes -> Word, s: State, op: Op)
    requires MovesBalance(op)
    ensures var t := Apply(db, keccak, s, op);
      && BalanceOf(db, t, op.a) == NewBalance(op, BalanceOf(db, s, op.a))
      && (forall b | b != op.a :: BalanceIn(db, t.objects, b) == BalanceIn(db, s.objects, b))
      && Supply(db, t) == Supply(db, s) - BalanceOf(db, s, op.a) + NewBalance(op, BalanceOf(db, s, op.a))
      && BalanceOf(db, s, op.a) <= Supply(db, s)
  {
    hide Put, BalanceIn, Touch, Supply;
    var e := match op case SetBalance(_, v) => ToBalance(v) case AddToBalance(_, v) => Credit(v) case SubtractFromBalance(_, v) => Debit(v);
    PutBalance(db, s, op.a, e);
    var t := Apply(db, keccak, s, op);
    assert t.objects == Put(db, s, op.a, e).objects by { TouchObjects(Put(db, s, op.a, e), op.a); }
    assert BalanceOf(db, t, op.a) == NewBalance(op, BalanceOf(db, s, op.a)) by { BalanceEdited(db, s, op.a, e); }
    OneBalance(db, s, t, op.a);
  }

  lemma BalanceEdited(db: Db, s: State, a: Address, e: Edit)
    ensures BalanceOf(db, Put(db, s, a, e), a) ==
      match e
      case ToBalance(v) => v
      case Credit(v) => (BalanceOf(db, s, a) as int + v as int) % TWO_256
      case Debit(v) => (BalanceOf(db, s, a) as int - v as int) % TWO_256
      case _ => BalanceOf(db, s, a)
  {
    hide Put;
    PutBalance(db, s, a, e);
  }

  /** Everything else leaves every balance alone. */
  lemma ApplyKeeps(db: Db, keccak: Bytes -> Word, s: State, op: Op)
    requires !MovesBalance(op)
    ensures forall b :: BalanceIn(db, Apply(db, keccak, s, op).objects, b) == BalanceIn(db, s.objects, b)
    ensures Supply(db, Apply(db, keccak, s, op)) == Supply(db, s)
  {
    hide Put, CreateContract, Supply, Balances, SetCode, Fetch, FetchCode, FetchStorage, SetStorage, Touch, RecordSuicide,
      AccessAccount, AccessStorage, BalanceIn;
    var t := Apply(db, keccak, s, op);
    match op {
      case SetNonce(a, n) => EditKeeps(db, s, a, ToNonce(n));
      case DeployCode(a, code) => EditKeeps(db, s, a, ToCodeHash(keccak(code))); CodeObjects(db, keccak, s, a, code);
      case MakeContract(a) => CreateKeeps(db, s, a);
      case ReadAccount(a) => FetchKeeps(db, s, a);
      case ReadCode(a) => FetchKeeps(db, s, a); CodeObjects(db, keccak, s, a, []);
      case ReadStorage(a, k, original) => FetchKeeps(db, s, a); StorageObjects(db, s, a, k, original, 0);
      case WriteStorage(a, k, v) => FetchKeeps(db, s, a); StorageObjects(db, s, a, k, false, v);
      case _ => SubstateObjects(db, keccak, s, op);
    }
    SameBalances(db, s, t);
  }

  lemma EditKeeps(db: Db, s: State, a: Address, e: Edit)
    requires e.ToNonce? || e.ToCodeHash?
    ensures forall b :: BalanceIn(db, Put(db, s, a, e).objects, b) == BalanceIn(db, s.objects, b)
  {
    hide Put, BalanceIn;
    PutBalance(db, s, a, e);
    BalanceEdited(db, s, a, e);
  }

  lemma CreateKeeps(db: Db, s: State, a: Address)
    ensures forall b :: BalanceIn(db, CreateContract(db, s, a).objects, b) == BalanceIn(db, s.objects, b)
  {
    hide CreateContract, NewIncarnation;
    CreatedShape(db, s, a);
    var t := CreateContract(db, s, a);
    forall b
      ensures BalanceIn(db, t.objects, b) == BalanceIn(db, s.objects, b)
    {
      assert b != a ==> ObjectIn(db, s.objects, b) == ObjectIn(db, t.objects, b);
    }
  }

  lemma FetchKeeps(db: Db, s: State, a: Address)
    ensures forall b :: BalanceIn(db, Fetch(db, s, a).objects, b) == BalanceIn(db, s.objects, b)
  {
  }

  lemma CodeObjects(db: Db, keccak: Bytes -> Word, s: State, a: Address, code: Bytes)
    ensures SetCode(db, keccak, s, a, code).objects == Put(db, s, a, ToCodeHash(keccak(code))).objects
    ensures FetchCode(db, s, a).objects == Fetch(db, s, a).objects
  {
    hide Put, Fetch;
  }

  lemma StorageObjects(db: Db, s: State, a: Address, k: Word, original: bool, v: Word)
    ensures FetchStorage(db, s, a, k, original).objects == Fetch(db, s, a).objects
    ensures SetStorage(db, s, a, k, v).objects == Fetch(db, s, a).objects
  {
    hide Fetch, Filled;
  }

  lemma SubstateObjects(db: Db, keccak: Bytes -> Word, s: State, op: Op)
    requires op.TouchAccount? || op.SelfDestruct? || op.WarmAccount? || op.WarmStorage? || op.AddLog? || op.AddRefund? || op.SubtractRefund?
    ensures Apply(db, keccak, s, op).objects == s.objects
  {
  }

  lemma TouchObjects(s: State, a: Address)
    ensures Touch(s, a).objects == s.objects
  {
  }
}
