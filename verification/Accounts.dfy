/** What the operations on one account do to its fields, and to nothing else
    (core/silkworm/state/intra_block_state.cpp). */
module Accounts {
  import opened Basics
  import opened World
  import opened Journal
  import opened FlatState

  /** The account as it is read; a missing one has no nonce, no balance, no code and no incarnation. */
  function FieldsOf(c: Option<Account>): (r: Account)
  {
    match c
    case Some(x) => x
    case None => Account(0, 0, EMPTY_HASH, 0)
  }

  /** The account of `a` is `c`, and all other accounts are as before. */
  ghost predicate OnlyAccount(db: Db, s: State, t: State, a: Address, c: Account)
  {
    AccountOf(db, t, a) == Some(c) && forall b | b != a :: AccountOf(db, t, b) == AccountOf(db, s, b)
  }

  lemma PutAccount(db: Db, s: State, t: State, a: Address, e: Edit)
    requires t.objects == Put(db, s, a, e).objects
    ensures OnlyAccount(db, s, t, a, Edited(FieldsOf(AccountOf(db, s, a)), e))
  {
    hide Put, Edited;
    PutShape(db, s, a, e);
    forall b | b != a ensures AccountOf(db, t, b) == AccountOf(db, s, b) {
      assert ObjectIn(db, s.objects, b) == ObjectIn(db, Put(db, s, a, e).objects, b);
    }
  }

  lemma ChangedBalance(db: Db, s: State, a: Address, e: Edit)
    ensures OnlyAccount(db, s, ChangeBalance(db, s, a, e), a, Edited(FieldsOf(AccountOf(db, s, a)), e))
  {
    hide Put, Touch, OnlyAccount, Edited;
    TouchRest(Put(db, s, a, e), a);
    PutAccount(db, s, ChangeBalance(db, s, a, e), a, e);
  }

  lemma NonceIsSet(db: Db, keccak: Bytes -> Word, s: State, a: Address, n: nat)
    ensures var was := FieldsOf(AccountOf(db, s, a));
      OnlyAccount(db, s, Apply(db, keccak, s, SetNonce(a, n)), a, Account(n, was.balance, was.codeHash, was.incarnation))
  {
    hide Put, OnlyAccount;
    PutAccount(db, s, Put(db, s, a, ToNonce(n)), a, ToNonce(n));
  }

  lemma BalanceIsSet(db: Db, keccak: Bytes -> Word, s: State, a: Address, v: Word)
    ensures var was := FieldsOf(AccountOf(db, s, a));
      OnlyAccount(db, s, Apply(db, keccak, s, SetBalance(a, v)), a, Account(was.nonce, v, was.codeHash, was.incarnation))
  {
    hide ChangeBalance, OnlyAccount;
    ChangedBalance(db, s, a, ToBalance(v));
  }

  /** Balances wrap around at 2^256, in both directions. */
  lemma BalanceIsMoved(db: Db, keccak: Bytes -> Word, s: State, a: Address, v: Word)
    ensures var was := FieldsOf(AccountOf(db, s, a));
      var sum := was.balance as int + v as int;
      OnlyAccount(db, s, Apply(db, keccak, s, AddToBalance(a, v)), a,
                  Account(was.nonce, if sum < TWO_256 then sum else sum - TWO_256, was.codeHash, was.incarnation))
    ensures var was := FieldsOf(AccountOf(db, s, a));
      var difference := was.balance as int - v as int;
      OnlyAccount(db, s, Apply(db, keccak, s, SubtractFromBalance(a, v)), a,
                  Account(was.nonce, if difference >= 0 then difference else difference + TWO_256, was.codeHash, was.incarnation))
  {
    hide ChangeBalance, OnlyAccount;
    ChangedBalance(db, s, a, Credit(v));
    ChangedBalance(db, s, a, Debit(v));
  }

  /** The account refers to the code by its hash, and reads it, unless other code is stored under that hash. */
  lemma CodeIsSet(db: Db, keccak: Bytes -> Word, s: State, a: Address, code: Bytes)
    ensures var was := FieldsOf(AccountOf(db, s, a));
      OnlyAccount(db, s, Apply(db, keccak, s, DeployCode(a, code)), a, Account(was.nonce, was.balance, keccak(code), was.incarnation))
    ensures keccak(code) != EMPTY_HASH && (keccak(code) in s.code ==> s.code[keccak(code)] == code) ==>
      CodeOf(db, Apply(db, keccak, s, DeployCode(a, code)), a) == code
  {
    hide Put, OnlyAccount;
    var e, t := ToCodeHash(keccak(code)), Apply(db, keccak, s, DeployCode(a, code));
    PutAccount(db, s, t, a, e);
    PutCode(db, s, a, e);
    assert OnlyAccount(db, s, t, a, Edited(FieldsOf(AccountOf(db, s, a)), e));
    HasAccount(db, s, t, a, Edited(FieldsOf(AccountOf(db, s, a)), e));
  }

  lemma HasAccount(db: Db, s: State, t: State, a: Address, c: Account)
    requires OnlyAccount(db, s, t, a, c)
    ensures AccountOf(db, t, a) == Some(c)
  {
  }

  lemma PutCode(db: Db, s: State, a: Address, e: Edit)
    ensures Put(db, s, a, e).code == s.code
  {
    hide Edited, Put;
    PutShape(db, s, a, e);
  }

  /** A new contract keeps the balance that was there and nothing else. */
  lemma ContractIsMade(db: Db, keccak: Bytes -> Word, s: State, a: Address)
    ensures OnlyAccount(db, s, Apply(db, keccak, s, MakeContract(a)), a,
                        Account(0, FieldsOf(AccountOf(db, s, a)).balance, EMPTY_HASH, NewIncarnation(db, s, a)))
  {
    hide CreateContract, NewIncarnation;
    CreatedShape(db, s, a);
    var t := CreateContract(db, s, a);
    forall b | b != a ensures AccountOf(db, t, b) == AccountOf(db, s, b) {
      assert ObjectIn(db, s.objects, b) == ObjectIn(db, t.objects, b);
    }
  }

  // --- the same on flat maps ---

  /** The account of `a` becomes `c`; other accounts, storage and incarnation flags stay. */
  ghost predicate OnlyFlat(f: Flat, g: Flat, a: Address, c: Account)
  {
    && g.accounts == f.accounts[a := c] && g.current == f.current && g.original == f.original
    && g.anchored == f.anchored && g.novel == f.novel
  }

  lemma FlatEdited(f: Flat, a: Address, e: Edit)
    ensures OnlyFlat(f, FlatEdit(f, a, e), a, Edited(FieldsOf(Get(f.accounts, a)), e))
    ensures OnlyFlat(f, FlatTouch(FlatEdit(f, a, e), a), a, Edited(FieldsOf(Get(f.accounts, a)), e))
  {
    hide Edited;
  }

  lemma FlatNonceIsSet(db: Db, keccak: Bytes -> Word, f: Flat, a: Address, n: nat)
    ensures var was := FieldsOf(Get(f.accounts, a));
      OnlyFlat(f, FlatApply(db, keccak, f, SetNonce(a, n)), a, Account(n, was.balance, was.codeHash, was.incarnation))
  {
    hide OnlyFlat, FlatEdit;
    FlatEdited(f, a, ToNonce(n));
  }

  lemma FlatCodeIsSet(db: Db, keccak: Bytes -> Word, f: Flat, a: Address, code: Bytes)
    ensures var was := FieldsOf(Get(f.accounts, a));
      OnlyFlat(f, FlatApply(db, keccak, f, DeployCode(a, code)), a, Account(was.nonce, was.balance, keccak(code), was.incarnation))
  {
    hide OnlyFlat, FlatEdit;
    FlatEdited(f, a, ToCodeHash(keccak(code)));
  }

  lemma FlatBalanceIsSet(db: Db, keccak: Bytes -> Word, f: Flat, a: Address, v: Word)
    ensures var was := FieldsOf(Get(f.accounts, a));
      OnlyFlat(f, FlatApply(db, keccak, f, SetBalance(a, v)), a, Account(was.nonce, v, was.codeHash, was.incarnation))
  {
    hide OnlyFlat, FlatEdit, FlatTouch;
    FlatEdited(f, a, ToBalance(v));
  }

  lemma FlatBalanceIsMoved(db: Db, keccak: Bytes -> Word, f: Flat, a: Address, v: Word)
    ensures var was := FieldsOf(Get(f.accounts, a));
      var sum := was.balance as int + v as int;
      OnlyFlat(f, FlatApply(db, keccak, f, AddToBalance(a, v)), a,
               Account(was.nonce, if sum < TWO_256 then sum else sum - TWO_256, was.codeHash, was.incarnation))
    ensures var was := FieldsOf(Get(f.accounts, a));
      var difference := was.balance as int - v as int;
      OnlyFlat(f, FlatApply(db, keccak, f, SubtractFromBalance(a, v)), a,
               Account(was.nonce, if difference >= 0 then difference else difference + TWO_256, was.codeHash, was.incarnation))
  {
    hide OnlyFlat, FlatEdit, FlatTouch;
    FlatEdited(f, a, Credit(v));
    FlatEdited(f, a, Debit(v));
  }
}
