/** Accounts, storage slots and the database that a block starts from. */
module World {
  import opened Basics

  const TWO_64: nat := 0x1_0000_0000_0000_0000
  const TWO_256: nat := 0x1_0000_0000_0000_0000_0000_0000_0000_0000_0000_0000_0000_0000_0000_0000_0000_0000

  type Address = nat
  type Word = w: nat | w < TWO_256

  function Get<K, V>(m: map<K, V>, k: K): (v: Option<V>)
  {
    if k in m then Some(m[k]) else None
  }

  const EMPTY_HASH: Word := 0xc5d2_4601_86f7_233c_927e_7db2_dcc7_03c0_e500_b653_ca82_273b_7bfa_d804_5d85_a470

  datatype Account = Account(nonce: nat, balance: Word, codeHash: Word, incarnation: nat)

  const EMPTY_ACCOUNT: Account := Account(0, 0, EMPTY_HASH, 0)

  datatype Slot = Slot(address: Address, incarnation: nat, location: Word)

  /** The tables of a state buffer that execution reads. */
  datatype Db = Db(
    accounts: map<Address, Account>,
    code: map<Word, Bytes>,
    prevIncarnations: map<Address, nat>,
    storage: map<Slot, Word>)
  {
    function ReadAccount(a: Address): (r: Option<Account>) { Get(accounts, a) }

    function ReadCode(h: Word): (r: Bytes) { if h in code then code[h] else [] }

    function ReadStorage(a: Address, incarnation: nat, k: Word): (r: Word)
    {
      if Slot(a, incarnation, k) in storage then storage[Slot(a, incarnation, k)] else 0
    }

    function PreviousIncarnation(a: Address): (r: nat)
    {
      if a in prevIncarnations then prevIncarnations[a] else 0
    }
  }
}
