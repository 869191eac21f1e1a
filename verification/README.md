# Silkworm in Dafny

A model of the core of Silkworm, an Ethereum client, and proofs about it. The project models

- the streaming Merkle Patricia root (`Trie`, `HashBuilder`, `VectorRoot`), proved equal to the
  recursive definition of Appendix D of the Yellow Paper, whose root commits to the entries (`TrieBinding`);
- the journaled state of a block (`Journal`, `Accounts`, `FlatState`, `MemoryBuffer`, `IntraBlockState`): operations change the
  fields they should, reverts restore every observation, the lazily filled caches stand for plain maps, and writing and unwinding a block are inverse;
- chain reorganisation (`ChainState`, `Blockchain`): after any insertions the state is that of the heaviest chain, up to
  incarnation numbers; `Drift` shows why not exactly, and `Numbering` when a block keeps these numbers in order;
- that what a block does does not depend on these numbers: for given steps (`Renumbering`), call trees (`Mirror`, `BlockMirror`),
  and an interpreter that chooses its calls from what it reads (`Interpreter`), so that the chain results hold for the
  processor (`ProcessorChain`);
- gas, refunds and ether (`Refunds`, `Ether`, `Evm`, `EvmSupply`, `Processor`, `Payments`, `Execution`) over arbitrary call trees;
  what frames give back (`Results`), and a plain transfer from end to end (`PlainTransactions`);
- the way from a call tree to the database: its run of host steps (`Traces`), transactions and blocks on flat maps
  (`Refinement`), legality from frames that write their own storage only (`Frames`, `Ownership`), and what an accepted
  block writes (`BlockExecution`);
- ommer rules (`Ommers`);
- RLP (`Rlp`, `RlpDecode`, `RlpSchema`, and what is refused and why: `RlpItems`), block headers (`Codecs`) and transactions (`Transactions`), as bijections;
- the external merge sort (`Etl`), SHA-256 (`Sha256`, `ShaConstants`) and sender recovery by concurrent workers (`RecoveryFarm`).

`dafny verify dfyconfig.toml` checks the whole project.

## How the model is built

Objects that the source updates in place are classes (`HashBuilder`, `IntraBlockState`, `MemoryBuffer`, `Blockchain`,
`EVM`, `ExecutionProcessor`, `Buffer`, `Collector`, `BufferState`) whose methods keep the source's loops and branches.
Each method is specified by a function of the old state, and the properties are proved about those functions.
Keccak-256, precompiled contracts, contract addresses, header checks of difficulty and seal, and the state root are
parameters: the results hold for all of them. What the interpreter does is an arbitrary finite tree of host calls, or the tree of
a strategy that chooses each call from the answers so far.

Hypotheses, stated in the contracts that need them:

- `FlatState.DbOk`: the database stores no zero values, and no storage under incarnation 0.
- `Flat.anchored`, for writing and unwinding only: no contract was created under an incarnation for which the database holds
  storage that the block cannot see. `Numbering.ExecutedCounted` gives a condition on the database under which every block is so.
- `FlatState.Legal`: only live contracts write storage. `Ownership.BlockLegal` derives it if frames write the storage of their own
  accounts only and accounts with code are contracts, and `ProcessorChains.PlayedBlockLegal` for every interpreter.
- The chain has no hypothesis on execution: its store, canonical chain and tip are right for every executor. What it says about
  the state is said of runs whose executions were all quiet. For the processor, quiet (`ProcessorChains.IsQuiet`) is: code is genuine and at
  hand, execution is legal and anchored, and no creation takes up the incarnation with which its account began the block.
  `ProcessorChains.ProcessorGentle` proves that this is enough. `Numbering` tells when numbers stay in order, and `Drift` how they do not.
- `Mirrors.Honest`, `Journal.Resolved`: no two codes in play share a hash, and the code of every account is stored.
- The sum of all balances is below 2^256.
- `Blockchains.NoClash`: no two blocks have the same number and hash. `InsertBlock` is called with a block that is not canonical.
- `Ommers.Keyed`: headers are stored under their own numbers, which stay below 2^64 - 1, and ommers are older than the
  block that names them.
- `Processor.Checked`: intrinsic gas is within the gas limit, and the interpreter returns no more gas than it is given.
- The completion handler's return and the release of the batch are one step, and no block exceeds the batch size.

Where the code falls short of what one would expect:

- Creating a contract can reuse an incarnation within a block (`FlatState.StaleStorageReappears`, exactly when:
  `FlatState.CreatedStorageEmpty`) and across blocks (`Drift.StorageResurfaces`, `Drift.RemovalForgets`). `Numbering.NumbersExact`
  says exactly which blocks keep the numbers in order.
- Unwinding does not restore the remembered incarnations, so a block that is executed again may number contracts
  differently (`Drift.ReexecutionDrifts`).
- The decoder of EIP-2930 transactions does not compare the inner list length, so each such transaction has several
  accepted forms (`Transactions.TypedExact`, `Transactions.TypedFormsDiffer`).
- A legacy transaction with chain id 2^255 - 4, or from 2^255 on, does not survive encoding (`Transactions.VRoundTrip`).
- The collector loses entries with empty key and empty value if they alone follow the last flush (`Etl.LoseLastEntry`,
  exactly when: `Etl.KeptAll`).

## Model

| member | source | states |
|---|---|---|
| Basics.PrefixLength | core/silkworm/common/util.cpp:207-215 | the scan returns the length of the longest common prefix |
| Trie.Stem | core/silkworm/trie/hash_builder.cpp:171-256 | reference trie: the stem is the longest common prefix of the keys, so nodes fork exactly there |
| HashBuilding.UnpackNibbles | core/silkworm/trie/hash_builder.cpp:58-65 | two nibbles per byte, high nibble first |
| HashBuilding.UnpackBefore | core/silkworm/trie/hash_builder.cpp:58-65 | unpacking keeps the lexicographic, prefix-free order of keys |
| HashBuilding.UnpackInjective | core/silkworm/trie/hash_builder.cpp:58-65 | different packed keys have different paths |
| HashBuilding.EncodePath | core/silkworm/trie/hash_builder.cpp:67-93 | the loop writes the flag (2 for a terminating path, 1 more for an odd one) and then the path, two digits per byte, for even and odd lengths |
| HashBuilding.HexPrefixUnpacked | core/silkworm/trie/hash_builder.cpp:67-93 | digit by digit, the hex-prefix encoding is the flag of Appendix C followed by the path |
| HashBuilding.HexPrefixInjective | core/silkworm/trie/hash_builder.cpp:67-93 | path and kind of node can be told from the encoding |
| HashBuilding.LeafNodeRlp | core/silkworm/trie/hash_builder.cpp:95-105 | the bytes, written with lengths computed ahead, are the leaf node of Appendix D, its path marked as terminating |
| HashBuilding.ExtensionNodeRlp | core/silkworm/trie/hash_builder.cpp:107-117 | the bytes, written with lengths computed ahead, are the extension node of Appendix D |
| HashBuilding.HashBuilder.constructor | core/silkworm/trie/hash_builder.hpp:66-72 | the builder starts out standing for the empty map |
| HashBuilding.HashBuilder.Add | core/silkworm/trie/hash_builder.cpp:131-139 | a key after all earlier ones is added to the represented map, and masks and stack stay those of the entries folded so far |
| HashBuilding.HashBuilder.Finalize | core/silkworm/trie/hash_builder.cpp:141-149 | the last entry is folded in; one reference is left, that of the whole trie |
| HashBuilding.HashBuilder.RootHash | core/silkworm/trie/hash_builder.cpp:151-166 | for every increasing prefix-free sequence of keys the result is the recursively defined root of Appendix D over the map of all entries |
| HashBuilding.HashBuilder.GenStructStep | core/silkworm/trie/hash_builder.cpp:171-256 | the loop terminates and leaves exactly the references of the children that share the successor's prefix, with matching masks |
| HashBuilding.HashBuilder.BranchRef | core/silkworm/trie/hash_builder.cpp:259-299 | consumes exactly as many references as the mask has bits and leaves the reference of that branch node |
| HashBuilding.FillIsChildren | core/silkworm/trie/hash_builder.cpp:259-299 | sixteen slots filled from mask and stack are the child references of the recursive definition |
| HashBuilding.StackedNext | core/silkworm/trie/hash_builder.cpp:171-256 | folding one more entry changes the stack from that of one map to that of the extended map |
| HashBuilding.WholeTrie | core/silkworm/trie/hash_builder.cpp:141-149 | after the last step the stack is the single reference to the root node |
| TrieBinding.RefForms | core/silkworm/trie/hash_builder.cpp:119-129 | a node of less than 32 bytes stands for itself, a longer one for the string of its hash |
| TrieBinding.NodeIsList | core/silkworm/trie/hash_builder.cpp:95-117 | every node is an RLP list: leaf path and value, extension path and reference, or sixteen slots in order and a value |
| TrieBinding.RootBinds | core/silkworm/trie/hash_builder.cpp:151-166 | the root commits to the entries: two maps with one root are equal, or two different nodes of theirs have one hash |
| VectorRoot.AdjustIsPermutation | core/silkworm/trie/vector_root.hpp:27-35 | for every list length the adjusted indices are a permutation of the indices |
| VectorRoot.AdjustedKeysIncrease | core/silkworm/trie/vector_root.hpp:27-35 | their RLP encodings come out strictly increasing and prefix-free |
| VectorRoot.KeyInjective | core/silkworm/trie/vector_root.hpp:37-57 | different indices have different trie keys |
| VectorRoot.RootHash | core/silkworm/trie/vector_root.hpp:37-57 | the loop meets the builder's demands and returns the trie root of the map from encoded index to encoded value |
| TrieBinding.VectorBinds | core/silkworm/trie/vector_root.hpp:37-57 | two lists with one root are equal, or two different nodes have one hash |
| Rlp.ByteLengthExact | core/silkworm/rlp/encode.cpp:104-120 | counting leading zero bits gives the length of the shortest big-endian form |
| Rlp.LengthsExact | core/silkworm/rlp/encode.cpp:24-62 | the lengths computed for headers and strings are the sizes of what is written |
| Rlp.EncodeUintOrder | core/silkworm/rlp/encode.cpp:64-74 | encodings of 64-bit integers are ordered as the integers, save that zero sorts as 0x80, and none is a prefix of another |
| RlpDecode.ReadUintExact | core/silkworm/rlp/decode.cpp:27-77 | exactly the shortest big-endian forms within the width are read, to the number they denote |
| RlpDecode.DecodeHeaderExact | core/silkworm/rlp/decode.cpp:79-141 | a header is decoded if and only if the view is its shortest encoding followed by at least its payload |
| RlpDecode.DecodeStringExact | core/silkworm/rlp/decode.cpp:149-161 | if and only if: decoding yields the string and the rest exactly when the view is the encoding of the string followed by the rest |
| RlpDecode.DecodeUintExact | core/silkworm/rlp/decode.cpp:176-209 | the same for integers of either width |
| RlpDecode.DecodeFlagExact | core/silkworm/rlp/decode.cpp:163-174 | the same for booleans |
| RlpDecode.DecodeFixedExact | core/silkworm/rlp/decode.hpp:72-100 | the same for byte arrays of a fixed size |
| RlpDecode.DecodeOptionalExact | core/silkworm/types/transaction.cpp:218-226 | the same for an address that may be absent; an exhausted view is an error |
| RlpSchema.FieldLengthExact | core/silkworm/rlp/encode.hpp:82-102 | for every nested structure the length computed ahead is the encoded size |
| RlpSchema.FieldRoundTrip | core/silkworm/rlp/decode.hpp:102-124 | for every nested structure decoding an encoding returns the value and leaves the rest |
| RlpSchema.FieldCanonical | core/silkworm/rlp/decode.hpp:102-124 | whatever is decoded re-encodes to exactly the bytes consumed |
| RlpSchema.FieldExact | core/silkworm/rlp/decode.hpp:72-124 | both directions together: RLP is a bijection between fitting values and accepted bytes |
| RlpItems.ItemUnique | core/silkworm/rlp/decode.cpp:79-141 | items delimit themselves: from the start of a view, kind, payload and rest are determined |
| RlpItems.Truncated | core/silkworm/rlp/decode.cpp:79-141 | every proper prefix of an item is refused as too short |
| RlpItems.HeaderRefused | core/silkworm/rlp/decode.cpp:79-141 | a header before a byte that is its own encoding is refused |
| RlpItems.LengthRefused | core/silkworm/rlp/decode.cpp:79-141 | a length with a leading zero, and one below 56 that is written out, is refused, each if and only if |
| RlpItems.ListRefused | core/silkworm/rlp/decode.cpp:149-209 | a list is refused where a string, an integer, an array or a boolean is expected |
| RlpItems.StringRefused | core/silkworm/rlp/decode.hpp:102-124 | a string is refused where a list is expected |
| RlpItems.IntegerRefused | core/silkworm/rlp/decode.cpp:163-209 | a string is refused as an integer if and only if it is too wide or begins with zero, as a boolean if it is neither 0 nor 1 |
| RlpItems.ArrayRefused | core/silkworm/rlp/decode.hpp:72-100 | a string of another length is refused as an array, and only that |
| RlpItems.StructureRefused | core/silkworm/types/block.cpp:98-159 | a structure is refused if and only if the stated length is not that of its fields |
| Codecs.EncodeVector | core/silkworm/rlp/encode.hpp:104-114 | the two loops append the encoding of the list, its length computed ahead |
| Codecs.DecodeVector | core/silkworm/rlp/decode.hpp:102-124 | the loop returns what the recursive decoder does, including the first error |
| Codecs.BlockHeaderExact | core/silkworm/types/block.cpp:53-159 | a block header is decoded if and only if the view is its encoding followed by the rest; the length is the encoded size |
| Codecs.HeaderBytes | core/silkworm/types/block.cpp:78-98 | the encoding is the list of the fifteen fields in the order of the Yellow Paper, arrays as strings and integers in their shortest form |
| Transactions.EntryExact | core/silkworm/types/transaction.cpp:53-89 | the same for access-list entries |
| Transactions.EntryIs | core/silkworm/types/transaction.cpp:53-66 | an entry is the list of the address and the list of its keys, in order |
| Transactions.VRoundTrip | core/silkworm/crypto/ecdsa.cpp:25-49 | parity and chain id survive the conversion to v if and only if the chain id is absent, or below 2^255 and not 2^255 - 4 |
| Transactions.VInverse | core/silkworm/crypto/ecdsa.cpp:25-49 | every 256-bit v, also one that wraps around, is recovered from its parity and chain id |
| Transactions.VForms | core/silkworm/crypto/ecdsa.cpp:25-49 | v is 27 or 28 without a chain id, and 35 plus twice the chain id with one, plus the parity |
| Transactions.TransactionLengthExact | core/silkworm/types/transaction.cpp:91-133 | the computed length is the encoded size for both types |
| Transactions.LegacyBytes | core/silkworm/types/transaction.cpp:135-158 | a legacy transaction is the list of its nine fields in order |
| Transactions.TypedBytes | core/silkworm/types/transaction.cpp:160-205 | an EIP-2930 transaction is the byte string of a one and the list of its eleven fields in order |
| Transactions.LegacyExact | core/silkworm/types/transaction.cpp:135-158 | legacy transactions are decoded if and only if the view is their encoding, for exactly the signable chain ids |
| Transactions.TypedExact | core/silkworm/types/transaction.cpp:251-348 | the accepted forms of an EIP-2930 transaction are exactly its encodings with any inner length up to the true one |
| Transactions.TypedRoundTrip | core/silkworm/types/transaction.cpp:160-205 | every EIP-2930 transaction with a chain id survives encoding and decoding |
| Transactions.TypeRefused | core/silkworm/types/transaction.cpp:308-348 | a byte string that does not begin with the type 1 is refused as unsupported, an empty one as too short |
| Transactions.TypedFormsDiffer | core/silkworm/types/transaction.cpp:251-306 | every such transaction also has an accepted form that is not its encoding |
| Journal.ApplyUndoable | core/silkworm/state/intra_block_state.cpp:28-291 | the journal entries of every operation undo it, from every state that observes the same |
| Journal.RevertRestores | core/silkworm/state/intra_block_state.cpp:330-337 | reverting to a snapshot brings back every observation made when it was taken |
| Journal.NextConsistent | core/silkworm/state/intra_block_state.cpp:322-337 | operations, snapshots and reverts keep every held snapshot revertible |
| Journal.RunThenRevert | core/silkworm/state/intra_block_state.cpp:322-337 | for every run, with nested snapshots, reverts, creations and cache-filling reads, reverting to any held snapshot restores every observation |
| Journal.RunThenRevertCode | core/silkworm/state/intra_block_state.cpp:187-220 | the same for code, whose cache is not journaled |
| Journal.FetchStorageRestores | core/silkworm/state/intra_block_state.cpp:248-281 | reads fill the caches without changing any observation or the journal |
| FlatState.ApplySound | core/silkworm/state/intra_block_state.cpp:28-291 | every operation acts on the caches as its counterpart acts on flat maps of accounts, current and original storage, creations with a used incarnation included |
| FlatState.NextLinked | core/silkworm/state/intra_block_state.cpp:322-337 | so do snapshots, which the flat maps take as plain copies, and reverts |
| FlatState.RunSound | core/silkworm/state/intra_block_state.cpp:28-337 | after every run within a transaction the caches stand for the flat maps |
| FlatState.SameIncarnation | core/silkworm/state/intra_block_state.cpp:73-107 | the incarnation that the caches choose for a new contract is the one told by the flat maps and the database |
| FlatState.CreateContractSound | core/silkworm/state/intra_block_state.cpp:73-107 | creation acts as on flat maps, where storage returns exactly if the incarnation is the one the block began with |
| FlatState.SameGone | core/silkworm/state/intra_block_state.cpp:126-140 | the accounts that disappear are those that the flat maps tell |
| FlatState.EndTransactionSound | core/silkworm/state/intra_block_state.cpp:126-148 | at the end of a transaction accounts disappear and current storage becomes original storage |
| FlatState.FinalizeSound | core/silkworm/state/intra_block_state.cpp:339-347 | committing makes the current storage of a transaction the original storage of the next |
| FlatState.BlockSound | core/silkworm/state/intra_block_state.cpp:28-347 | over any number of transactions the caches stand for the flat maps, block-initial values being those of the database |
| FlatState.BlockRefines | core/silkworm/state/intra_block_state.cpp:28-347 | from the start of a block every read returns what the flat maps hold |
| FlatState.CreatedStorageEmpty | core/silkworm/state/intra_block_state.cpp:73-107 | a created contract starts with empty storage if and only if its incarnation is not the one the block started with or has no storage in the database |
| FlatState.StaleStorageReappears | core/silkworm/state/intra_block_state.cpp:73-107 | destruct, credit, create again within a block: the old incarnation is reused and the old storage reappears |
| MemoryBuffers.OverlayUndone | core/silkworm/state/memory_buffer.cpp:189-209 | writing the recorded previous values back undoes an update of a table |
| MemoryBuffers.MemoryBuffer.BeginBlock | core/silkworm/state/memory_buffer.cpp:154-158 | starts an empty change set for the block and leaves the tables alone |
| MemoryBuffers.MemoryBuffer.UpdateAccount | core/silkworm/state/memory_buffer.cpp:160-172 | the account is replaced, its previous value recorded, its incarnation remembered on removal |
| MemoryBuffers.MemoryBuffer.UpdateStorage | core/silkworm/state/memory_buffer.cpp:178-187 | the slot is replaced or erased and its previous value recorded |
| MemoryBuffers.MemoryBuffer.UnwindStateChanges | core/silkworm/state/memory_buffer.cpp:189-209 | the loops write back every recorded account and slot of the block |
| IntraBlock.UnwindRestores | core/silkworm/state/memory_buffer.cpp:189-209 | unwinding a written block restores the account and storage tables it started from |
| IntraBlock.WriteThenRead | core/silkworm/state/intra_block_state.cpp:293-320 | after writing, the database reads what the in-memory view showed |
| IntraBlock.WrittenHolds | core/silkworm/state/intra_block_state.cpp:293-320 | both together, with the hypotheses kept for the next block |
| IntraBlock.BlockWrittenAndUnwound | core/silkworm/state/intra_block_state.cpp:293-320 | for every block of transactions and rewards, writing makes the database hold the flat maps and unwinding restores the previous tables |
| IntraBlock.IntraBlockState.GetObject | core/silkworm/state/intra_block_state.cpp:28-43 | returns the cached or stored object and fills the cache, nothing else |
| IntraBlock.IntraBlockState.GetOrCreateObject | core/silkworm/state/intra_block_state.cpp:45-58 | a missing or removed account is created and the change journaled |
| IntraBlock.IntraBlockState.Exists | core/silkworm/state/intra_block_state.cpp:60-63 | tells whether the account is live |
| IntraBlock.IntraBlockState.IsDead | core/silkworm/state/intra_block_state.cpp:65-71 | tells whether the account is empty in the sense of EIP-161 |
| IntraBlock.IntraBlockState.CreateContract | core/silkworm/state/intra_block_state.cpp:73-107 | keeps the balance, chooses the next incarnation, wipes storage, and journals both |
| IntraBlock.IntraBlockState.Touch | core/silkworm/state/intra_block_state.cpp:109-117 | touching is journaled except for address 3 |
| IntraBlock.IntraBlockState.RecordSuicide | core/silkworm/state/intra_block_state.cpp:119-124 | a first self-destruction is recorded and journaled |
| IntraBlock.IntraBlockState.DestructSuicides | core/silkworm/state/intra_block_state.cpp:126-130 | all recorded accounts disappear with their storage, in any order of the loop |
| IntraBlock.IntraBlockState.DestructTouchedDead | core/silkworm/state/intra_block_state.cpp:132-140 | exactly the dead among the touched accounts disappear; the others are only loaded |
| IntraBlock.IntraBlockState.SetBalance | core/silkworm/state/intra_block_state.cpp:155-160 | the account exists afterwards with the balance given and its other fields as before; other accounts are unchanged; touched and journaled |
| IntraBlock.IntraBlockState.AddToBalance | core/silkworm/state/intra_block_state.cpp:162-167 | the balance grows modulo 2^256, other fields and accounts stay; touched and journaled |
| IntraBlock.IntraBlockState.SubtractFromBalance | core/silkworm/state/intra_block_state.cpp:169-174 | the balance shrinks modulo 2^256, other fields and accounts stay; touched and journaled |
| IntraBlock.IntraBlockState.SetNonce | core/silkworm/state/intra_block_state.cpp:181-185 | the account exists afterwards with the nonce given, so GetNonce returns it, and its other fields as before; other accounts are unchanged; journaled |
| IntraBlock.IntraBlockState.GetCode | core/silkworm/state/intra_block_state.cpp:187-205 | returns the code and caches it |
| IntraBlock.IntraBlockState.SetCode | core/silkworm/state/intra_block_state.cpp:212-220 | GetCodeHash returns the hash of the code afterwards, other fields and accounts stay; code that is already cached is kept; journaled |
| IntraBlock.IntraBlockState.GetNonce | core/silkworm/state/intra_block_state.cpp:176-179 | the nonce of the account, 0 if there is none |
| IntraBlock.IntraBlockState.GetCodeHash | core/silkworm/state/intra_block_state.cpp:207-210 | the code hash of the account, that of the empty code if there is none |
| Accounts.NonceIsSet | core/silkworm/state/intra_block_state.cpp:181-185 | field by field: the nonce is the one given, balance, code hash and incarnation are as before or those of the empty account, and all other accounts are unchanged |
| Accounts.BalanceIsSet | core/silkworm/state/intra_block_state.cpp:155-160 | the same for setting a balance |
| Accounts.BalanceIsMoved | core/silkworm/state/intra_block_state.cpp:162-174 | the same for additions and subtractions, modulo 2^256, exact where they do not wrap |
| Accounts.CodeIsSet | core/silkworm/state/intra_block_state.cpp:212-220 | the same for the code hash, and the code is the one given unless other code is cached under its hash |
| Accounts.ContractIsMade | core/silkworm/state/intra_block_state.cpp:73-107 | a created contract keeps the balance and has nonce 0 and no code; other accounts are unchanged |
| Accounts.FlatNonceIsSet | core/silkworm/state/intra_block_state.cpp:181-185 | on flat maps, field by field, the nonce is the one given and nothing else changes |
| Accounts.FlatCodeIsSet | core/silkworm/state/intra_block_state.cpp:212-220 | the same for the code hash |
| Accounts.FlatBalanceIsSet | core/silkworm/state/intra_block_state.cpp:155-160 | the same for setting a balance |
| Accounts.FlatBalanceIsMoved | core/silkworm/state/intra_block_state.cpp:162-174 | the same for additions and subtractions |
| IntraBlock.IntraBlockState.AccessAccount | core/silkworm/state/intra_block_state.cpp:222-228 | the first access is cold and journaled |
| IntraBlock.IntraBlockState.AccessStorage | core/silkworm/state/intra_block_state.cpp:230-236 | the first access to a slot is cold and journaled |
| IntraBlock.IntraBlockState.GetStorage | core/silkworm/state/intra_block_state.cpp:238-281 | returns current or original storage and fills the cache |
| IntraBlock.IntraBlockState.SetStorage | core/silkworm/state/intra_block_state.cpp:283-291 | a change of the current value is journaled with the prior value |
| IntraBlock.IntraBlockState.UndoDelta | core/silkworm/state/delta.cpp:25-63 | the nine ways to undo a journal entry |
| IntraBlock.IntraBlockState.RevertToSnapshot | core/silkworm/state/intra_block_state.cpp:330-337 | the loop undoes the journal from its end down to the snapshot and cuts logs and refund back |
| IntraBlock.IntraBlockState.FinalizeTransaction | core/silkworm/state/intra_block_state.cpp:339-347 | the nested loops commit every slot of every account |
| IntraBlock.IntraBlockState.WriteToDb | core/silkworm/state/intra_block_state.cpp:293-320 | accounts and slots are written and their block-initial values become the change set of the block, other change sets untouched |
| ChainStates.PreviousUndoes | core/silkworm/state/memory_buffer.cpp:154-209 | the recorded previous values undo an application of changes, exactly |
| ChainStates.ReflectsUnwound | core/silkworm/state/memory_buffer.cpp:189-209 | as long as executions are quiet, unwinding the last block gives exactly the tables before it, and the shorter run still stands |
| ChainStates.ReflectsExecuted | core/silkworm/chain/blockchain.cpp:91-107 | a quiet execution extends the run by its block, with the change set it records |
| ChainStates.RunsAgain | core/silkworm/chain/blockchain.cpp:109-124 | a block that was executed once, quietly, succeeds again quietly from tables that are the same up to incarnation numbers, and ends the same up to them |
| ChainStates.RunIsOrdered | core/silkworm/chain/blockchain.cpp:32-89 | whatever was executed, unwound and executed again, the tables are those of execution in order from genesis, up to incarnation numbers |
| Drift.ReexecutionDrifts | core/silkworm/state/memory_buffer.cpp:160-209 | a contract created in block 1 and removed in block 2: after unwinding both, block 1 gives it incarnation 2 instead of 1; the tables differ, but only in that number |
| Drift.RemovalForgets | core/silkworm/state/memory_buffer.cpp:160-172 | sweeping a dead account that is no contract, where a contract was removed before, overwrites the remembered incarnation with 0, and the next contract gets 1 again |
| Drift.StorageResurfaces | core/silkworm/state/intra_block_state.cpp:293-320 | a contract destructed and credited in one block is not remembered: created again in a later block it starts empty under its old incarnation, and one block later its old storage is back |
| Numbering.ExecutedCounted | core/silkworm/state/intra_block_state.cpp:73-107 | over every block a contract's number is above the remembered one or not below the one it had; if no storage is above the numbers in use and these are close to the remembered ones, no creation hides storage |
| Numbering.NumbersExact | core/silkworm/state/memory_buffer.cpp:160-172 | a written block keeps incarnation numbers in order if and only if it removes no plain account where a number is remembered, leaves no storage of a contract turned plain account, lets no number sink and has all code at hand |
| Numbering.AcceptedBlockNumbers | core/silkworm/execution/execution.cpp:25-79 | the same for every accepted block, told from the database and the flat maps |
| Renumbering.RunTwins | core/silkworm/state/intra_block_state.cpp:28-337 | the same steps, with snapshots and reverts, on databases that are the same up to incarnation numbers keep the flat maps the same up to them, storage that returns included |
| Renumbering.BlockTwins | core/silkworm/state/intra_block_state.cpp:28-347 | so do whole blocks of transactions, with the accounts that disappear |
| Renumbering.BlockRespects | core/silkworm/state/intra_block_state.cpp:293-320 | a block of transactions and rewards written on two such databases leaves two such databases, if every creation takes up its old number on both or on neither |
| Mirrors.MessageMirror | core/silkworm/execution/evm.cpp:455-471 | on two databases that are the same up to incarnation numbers a call tree takes the same steps, returns the same and leaves accounts that are the same up to them |
| Mirrors.CallMirror | core/silkworm/execution/evm.cpp:145-216 | the same for a message call, its failed frames included |
| Mirrors.CreateMirror | core/silkworm/execution/evm.cpp:63-143 | the same for a contract creation |
| BlockMirrors.HostRunTwins | core/silkworm/execution/evm.cpp:344-417 | the same run of host steps keeps the flat maps the same up to incarnation numbers and counts the same refund |
| BlockMirrors.TransactionMirror | core/silkworm/execution/processor.cpp:58-103 | a transaction, its call tree given, has the same success, logs and gas used on both databases, and leaves them the same up to incarnation numbers |
| BlockMirrors.TxnsMirror | core/silkworm/execution/processor.cpp:132-139 | every list of such transactions gives the same receipts, logs included, and the same verdict |
| BlockMirrors.BlockMirror | core/silkworm/execution/processor.cpp:124-144 | so does a block, with fork and rewards |
| BlockMirrors.WrittenMirror | core/silkworm/execution/execution.cpp:25-79 | written on two databases that are the same up to incarnation numbers, an accepted block leaves two such databases, if every creation takes up its old number on both or on neither |
| Frames.MessageTrace | core/silkworm/execution/evm.cpp:63-216 | the steps of a message are those before its program, those of the program, and those after it |
| Ownership.MessageLegal | core/silkworm/execution/evm.cpp:145-216 | if every frame writes the storage of the account it runs for, told as by the address stack, and accounts with code are contracts, the run of every call tree is legal: only contracts write storage |
| Ownership.TransactionLegal | core/silkworm/execution/processor.cpp:58-103 | so is every such transaction, after which accounts with code are still contracts |
| Ownership.BlockLegal | core/silkworm/execution/processor.cpp:124-144 | so is every such block |
| Interpreters.MessageUnique | core/silkworm/execution/evm.cpp:455-471 | an interpreter, which chooses each host call from the answers so far, runs one program only |
| Interpreters.MessageCarries | core/silkworm/execution/evm.cpp:455-471 | what it runs on one database it runs on every other that is the same up to incarnation numbers, if no creation takes up its old number |
| Interpreters.MessageSame | core/silkworm/execution/evm.cpp:455-471 | what it runs on two such databases is the same program |
| ProcessorChains.PlayedBlockLegal | core/silkworm/execution/processor.cpp:124-144 | the blocks that an interpreter runs are legal |
| ProcessorChains.TxnsSame | core/silkworm/execution/processor.cpp:132-139 | the transactions that an interpreter runs are the same on two such databases |
| ProcessorChains.WritingIsExecution | core/silkworm/execution/execution.cpp:25-79 | the executor given to the chain is what executing and writing a block does |
| ProcessorChains.QuietExact | core/silkworm/state/memory_buffer.cpp:189-209 | a quiet execution of the processor records exactly what undoes it |
| ProcessorChains.QuietRespects | core/silkworm/execution/execution.cpp:25-79 | two quiet executions of a block on tables that are the same up to incarnation numbers have the same verdict and leave such tables |
| ProcessorChains.ProcessorGentle | core/silkworm/chain/blockchain.cpp:91-107 | for every interpreter the executor of the processor meets what the chain asks of quiet executions |
| ProcessorChains.ChainOverProcessor | core/silkworm/chain/blockchain.cpp:32-89 | a chain over the processor whose executions were quiet has the state of executing its canonical chain in order, up to incarnation numbers |
| BlockExecution.WrittenApplied | core/silkworm/state/intra_block_state.cpp:293-320 | writing a block applies its changes to the tables and records their previous values; unwinding applies what was recorded and leaves what is remembered |
| BlockExecution.ExecuteAndWrite | core/silkworm/execution/execution.cpp:25-79 | the first failing check decides: invalid transaction, block gas, receipts root from Byzantium on, logs bloom; an accepted block is written, any other leaves the database as it was |
| BlockExecution.Judge | core/silkworm/execution/execution.cpp:43-77 | which of the five verdicts a block gets, each if and only if |
| BlockExecution.AcceptedBlockApplies | core/silkworm/execution/execution.cpp:25-79 | an accepted block of the processor is a step of the chain: changes, their previous values as change set, exact unwinding, and a database that holds the flat maps |
| Blockchains.CanonicalAncestor | core/silkworm/chain/blockchain.cpp:153-159 | the walk ends at the highest ancestor of the block that is canonical |
| Blockchains.InsertTotalled | core/silkworm/state/memory_buffer.cpp:119-141 | storing a block keeps every stored total difficulty the sum along the ancestors |
| Blockchains.InsertHeaviest | core/silkworm/chain/blockchain.cpp:70-89 | the heavier of the old tip and the new block is at least as heavy as every stored block |
| Blockchains.CanonizedBranch | core/silkworm/chain/blockchain.cpp:76-84 | ancestor and branch together form a parent-linked chain of stored blocks |
| Blockchains.Blockchain.constructor | core/silkworm/chain/blockchain.cpp:25-30 | for every executor, genesis is stored and canonical, and nothing has been executed |
| Blockchains.Blockchain.UnwindLastChanges | core/silkworm/chain/blockchain.cpp:126-131 | the loop takes the tables back to exactly those there were after the ancestor, as long as executions were quiet; remembered incarnations and code stay |
| Blockchains.Blockchain.ExecuteBlock | core/silkworm/chain/blockchain.cpp:91-107 | accepted if and only if the block executes and, if roots are checked, its state root is that of the resulting tables; which error otherwise, and the tables and memory left in each case; after a quiet execution it extends the run by the block or leaves the tables as they were |
| Blockchains.AllExecuted | core/silkworm/chain/blockchain.cpp:52-61 | a branch is executed if and only if every block of it executes where those before it have led, with its own state root if roots are checked |
| Blockchains.Blockchain.ReExecuteCanonicalChain | core/silkworm/chain/blockchain.cpp:109-124 | if these executions are quiet too, every stored canonical block executes again, and the state is the one before, up to incarnation numbers |
| Blockchains.Blockchain.IntermediateChain | core/silkworm/chain/blockchain.cpp:133-151 | the blocks between the ancestor and the parent, parent-linked and in order |
| Blockchains.Blockchain.ExecuteBranch | core/silkworm/chain/blockchain.cpp:44-68 | unwind to the canonical ancestor and execute the branch: the verdict and the tables are those of executing its blocks in order from there; after an error the canonical state is back up to incarnation numbers, if all executions were quiet |
| Blockchains.Blockchain.Adopt | core/silkworm/chain/blockchain.cpp:70-88 | for every executor, store the block and make its branch canonical exactly if it is heavier |
| Blockchains.Blockchain.InsertBlock | core/silkworm/chain/blockchain.cpp:32-89 | accepted if and only if the block is not known as bad, is valid, its parent is stored, and every block of the branch executes with its own state root where roots are checked; which error otherwise and when a block becomes bad; store, totals, canonical chain and heaviest tip stay consistent, a rejected or lighter block leaves the canonical chain as it was, and, if all executions were quiet, the state up to incarnation numbers |
| Blockchains.Blockchain.InsertAll | core/silkworm/chain/blockchain.cpp:32-89 | after any sequence of insertions, for every executor, the canonical chain is the heaviest; if all executions were quiet, and execution in order is, the state is that of executing the canonical chain from genesis, up to incarnation numbers |
| Refunds.NetCovers | core/silkworm/execution/evm.cpp:384-416 | a write is paid for the slot it clears and gives that back when the slot is restored, without going negative |
| Refunds.StatusMeaning | core/silkworm/execution/evm.cpp:344-417 | what each status of a write tells about original, current and new value, if and only if |
| Refunds.RefundExact | core/silkworm/execution/evm.cpp:362-416 | the refund of one write in one formula over original, current and new value |
| Refunds.RefundAmounts | core/silkworm/execution/evm.cpp:368-392 | the amounts of EIP-1283, EIP-2200, EIP-2929 and EIP-3529, revision by revision |
| Refunds.StoreBacked | core/silkworm/execution/evm.cpp:344-417 | one SSTORE keeps the counter at or above the worth of the cleared slots |
| Refunds.HostNextBacked | core/silkworm/execution/evm.cpp:344-417 | so does every other host step, including creation, snapshot and revert |
| Refunds.RefundCoversCleared | core/silkworm/execution/evm.cpp:344-417 | over every run of host steps, creations under a used incarnation included, the refund counter, taken without wrapping, is at least the clear refund times the slots cleared, and no subtraction goes below zero |
| Refunds.RefundNeverWraps | core/silkworm/state/intra_block_state.cpp:362-366 | hence the 64-bit counter itself does not wrap for fewer than 2^64 / 34900 steps |
| Traces.CallLeads | core/silkworm/execution/evm.cpp:145-216 | for every callee, a message call is a run of host steps, snapshots and reverts nested in order |
| Traces.CreateLeads | core/silkworm/execution/evm.cpp:63-143 | so is a contract creation |
| Traces.MessageLeads | core/silkworm/execution/evm.cpp:455-471 | so is every message: the whole call tree is one run |
| Refinement.TransactionRefund | core/silkworm/execution/processor.cpp:58-92 | when the message of a transaction ends, the counter pays for every slot cleared, with no subtraction below zero on the way |
| Refinement.SenderRefunded | core/silkworm/execution/processor.cpp:80-122 | so what the sender is refunded is at least the worth of the slots cleared, up to the bound on refunds |
| Refinement.TransactionRefines | core/silkworm/execution/processor.cpp:58-103 | a transaction acts on the caches as its steps act on the flat maps, up to the disappearance of accounts |
| Refinement.TxnsRefine | core/silkworm/execution/processor.cpp:132-139 | so does every list of transactions, complete or cut short |
| Refinement.ExecutedBlockRefines | core/silkworm/execution/processor.cpp:124-144 | an accepted block leaves the caches standing for the flat maps after fork, transactions and rewards |
| Execution.EVM.SetStorage | core/silkworm/execution/evm.cpp:344-417 | performs the operations of one SSTORE and returns the status of EIP-1283 and EIP-2200 |
| Execution.EVM.SelfDestruct | core/silkworm/execution/evm.cpp:449-453 | the balance goes to the beneficiary, the account is recorded |
| Execution.EVM.Call | core/silkworm/execution/evm.cpp:145-216 | for every program of the callee, the state and result of a message call, all branches included; with Results.CallWithProgram and Results.CallWithoutProgram what that result is |
| Execution.EVM.Create | core/silkworm/execution/evm.cpp:63-143 | for every program, the state and result of a contract creation, all branches included; with Results.CreateWithProgram and Results.CreateWithoutProgram what that result is |
| Execution.EVM.Dispatch | core/silkworm/execution/evm.cpp:455-471 | creations return output only with a revert |
| Results.PrecompiledAddresses | core/silkworm/execution/evm.cpp:298-318 | which addresses are precompiled contracts in which revision |
| Results.CallRuns | core/silkworm/execution/evm.cpp:145-206 | the program of the callee runs if and only if the sender can pay, the account is not absent or precompiled, and has code |
| Results.CallWithProgram | core/silkworm/execution/evm.cpp:205-215 | the result is the program's, output included; gas is kept on success and on a revert and is 0 after every other failure |
| Results.CallWithoutProgram | core/silkworm/execution/evm.cpp:145-194 | otherwise nothing is used, or what a precompiled contract charges, and everything if that fails |
| Results.CallStarts | core/silkworm/execution/evm.cpp:162-205 | the program finds the value moved, nothing else changed, and runs as the account that its kind of call says |
| Results.CreateWithProgram | core/silkworm/execution/evm.cpp:116-140 | a creation pays 200 gas per byte of code; a revert keeps the program's gas, every other failure has none left: too long code, unpaid code from Homestead on |
| Results.CreateWithoutProgram | core/silkworm/execution/evm.cpp:63-90 | a creation that cannot be paid keeps its gas, one at a taken address loses it |
| Results.CreatedCode | core/silkworm/execution/evm.cpp:125-128 | after a successful creation the account has the hash of the program's output as code hash, unless it could not pay before Homestead |
| Results.CreatorCounts | core/silkworm/execution/evm.cpp:72-83 | the sender's nonce grows by one whatever becomes of the creation, and the address comes from the nonce before and is warm |
| Results.CreationStarts | core/silkworm/execution/evm.cpp:92-116 | the program finds the contract with nonce 1, or 0 before Spurious Dragon, without code, with the value, and the sender without it |
| Results.NestedCreation | core/silkworm/execution/evm.cpp:455-471 | inside a program a creation hands over its output only with a revert, and status, gas and state as on its own |
| Results.SelfDestructPays | core/silkworm/execution/evm.cpp:449-453 | the beneficiary gets the balance, the account is recorded and left without one, other accounts are unchanged |
| EvmSupply.TransferConserves | core/silkworm/execution/evm.cpp:101-102 | a transfer within the sender's balance neither underflows nor overflows |
| EvmSupply.SelfDestructConserves | core/silkworm/execution/evm.cpp:449-453 | self-destruction burns exactly the balance given to oneself |
| EvmSupply.CloseConserves | core/silkworm/execution/evm.cpp:133-140 | a failed frame gives everything back |
| EvmSupply.CallConserves | core/silkworm/execution/evm.cpp:145-216 | for every call tree a call changes the sum of all balances by exactly what was burned |
| EvmSupply.CreateConserves | core/silkworm/execution/evm.cpp:63-143 | the same for a creation |
| EvmSupply.DispatchConserves | core/silkworm/execution/evm.cpp:455-471 | the same for any message; only self-destruction burns |
| Processor.MessageGas | core/silkworm/execution/processor.cpp:77-82 | a message ends with no more gas than it was sent with |
| Processor.GasBack | core/silkworm/execution/processor.cpp:109-122 | gas left plus refund is between the gas left and the gas limit |
| Processor.RefundCapped | core/silkworm/execution/processor.cpp:109-122 | the refund is the counter, with 24000 for each self-destruct before London, or half of the gas used (a fifth from London on) if that is less |
| Processor.GasUsedExact | core/silkworm/execution/processor.cpp:80-82 | the gas used is what the message used less the refund, and exactly what it used if nothing is to be refunded |
| Processor.ValidateExact | core/silkworm/execution/processor.cpp:30-56 | each verdict on a transaction if and only if, in terms of nonce, balance and available gas |
| Processor.PrepareSupply | core/silkworm/execution/processor.cpp:58-75 | the sender pays for the whole gas limit exactly, without underflow |
| Processor.FinishBurns | core/silkworm/execution/processor.cpp:87-92 | only the balances of self-destructed accounts disappear; dead accounts hold nothing |
| Processor.FinishIsEnd | core/silkworm/execution/processor.cpp:87-92 | what is left after a transaction is what the flat maps stand for |
| Processor.TransactionConserves | core/silkworm/execution/processor.cpp:58-103 | a transaction changes the sum of all balances by exactly what self-destruction burns, which is nothing if nothing self-destructs |
| Processor.TxnsConserve | core/silkworm/execution/processor.cpp:132-139 | the same over every list of transactions, complete or cut short |
| Processor.TxnsGas | core/silkworm/execution/processor.cpp:105-107 | cumulative gas is non-decreasing, at most the block gas limit, and the available gas never wraps |
| Processor.RewardsExact | core/silkworm/execution/processor.cpp:146-166 | the rewards add exactly the amounts of the Yellow Paper |
| Processor.RewardSchedule | core/silkworm/chain/protocol_param.hpp:58-60 | 5, 3 and 2 ether, by revision |
| Processor.DrainConserves | core/silkworm/chain/dao.cpp:21-26 | the DAO fork moves balances without changing their sum and leaves none with the children |
| Processor.BlockConserves | core/silkworm/execution/processor.cpp:124-144 | a block adds exactly the rewards of miner and ommers, less what self-destruction burns |
| Execution.ExecutionProcessor.ValidateTransaction | core/silkworm/execution/processor.cpp:30-56 | the first failing check decides, funds compared without overflow |
| Execution.ExecutionProcessor.RefundGas | core/silkworm/execution/processor.cpp:109-122 | gives back the gas left and the counter up to its bound, and pays the sender for it |
| Execution.ExecutionProcessor.ExecuteTransaction | core/silkworm/execution/processor.cpp:58-103 | state, receipt with type and logs, and cumulative gas of one transaction; by Processor.GasUsedExact and PlainTransactions.PlainTransaction what these are |
| Execution.ExecutionProcessor.PayRewards | core/silkworm/execution/processor.cpp:146-166 | the loop pays ommers and miner |
| Execution.ExecutionProcessor.TransferBalances | core/silkworm/chain/dao.cpp:21-26 | the loop drains the children one by one |
| Execution.ExecutionProcessor.ExecuteBlock | core/silkworm/execution/processor.cpp:124-144 | transactions in order up to the first invalid one, then rewards; state, receipts and verdict |
| Payments.FailedCall | core/silkworm/execution/evm.cpp:208-213 | a call that fails changes no observation, whatever the callee did |
| Payments.FailedCreate | core/silkworm/execution/evm.cpp:133-140 | a creation that fails leaves only the sender's nonce and the warm address |
| Payments.PlainCallPays | core/silkworm/execution/evm.cpp:164-194 | a call with value to an account without code moves exactly the value from sender to destination and uses no gas |
| Payments.PreparePays | core/silkworm/execution/processor.cpp:58-75 | only the sender pays in advance, and no self-destruct is pending |
| PlainTransactions.MessageIs | core/silkworm/execution/evm.cpp:40-58 | the message of a transaction carries its sender, value, data and remaining gas, and is a creation if and only if there is no recipient |
| PlainTransactions.WarmBefore | core/silkworm/execution/processor.cpp:60-75 | when the message starts, sender, recipient and what the access list names are warm, and nothing else |
| PlainTransactions.PlainTransaction | core/silkworm/execution/processor.cpp:58-103 | a transfer to an account without code uses exactly its intrinsic gas, whatever was refunded before; it moves the value, pays the beneficiary, counts the nonce and logs nothing |
| Payments.AwardedPays | core/silkworm/execution/processor.cpp:82-85 | gas given back is paid to the sender, gas used to the beneficiary, to nobody else |
| Payments.FailedTransactionPays | core/silkworm/execution/processor.cpp:58-103 | a transaction whose call fails costs its sender exactly the gas used, which the beneficiary gains; no other balance changes |
| Payments.RewardsPaid | core/silkworm/execution/processor.cpp:157-165 | each ommer's beneficiary and the miner get exactly their own reward |
| Ommers.KinExact | core/silkworm/chain/validity.cpp:135-161 | a header is kin if and only if it shares its parent with one of the last n stored blocks and is none of the blocks walked |
| Ommers.KinNumber | core/silkworm/chain/validity.cpp:135-161 | kin have the number of that block, and no older block can name them |
| Ommers.ValidateOmmers | core/silkworm/chain/validity.cpp:186-209 | the ommers are accepted if and only if there are at most two, different, and each has a valid header, is kin within six generations and is not yet named; otherwise the verdict is that of the first fault |
| Ommers.HeaderAccepted | core/silkworm/chain/validity.cpp:60-132 | a header is accepted if and only if gas, extra data, timestamp and gas limit are within the bounds, its parent is stored, and the remaining checks pass |
| Ommers.AcceptedOmmer | core/silkworm/execution/processor.cpp:157-160 | an accepted ommer has number n-6 to n-1, its reward factor is 2 to 7, and no ancestor names it |
| Etl.EntryOrder | db/silkworm/etl/util.cpp:21-27 | the comparison is a total order on entries |
| Etl.LexExact | db/silkworm/etl/util.cpp:21-27 | bytes come before others if and only if they are a proper prefix, or smaller at the first difference |
| Etl.SortedAscends | db/silkworm/etl/util.cpp:21-27 | sorted entries ascend by key, and for the same key by value |
| Etl.SortedUnique | db/silkworm/etl/buffer.cpp:36-36 | a collection has a single sorted arrangement, so the in-memory path and the merge agree |
| Etl.Buffer.Put | db/silkworm/etl/buffer.cpp:23-34 | appends to the entries that count, reusing slots |
| Etl.Buffer.Sort | db/silkworm/etl/buffer.cpp:36-36 | leaves the sorted arrangement of the entries |
| Etl.Flush | db/silkworm/etl/file_provider.cpp:32-74 | the file holds the entries one after the other with their lengths in front |
| Etl.WrittenLayout | db/silkworm/etl/file_provider.cpp:51-60 | an entry is written as length of key, length of value, both as 32-bit little-endian numbers, key and value |
| Etl.WrittenSize | db/silkworm/etl/file_provider.cpp:32-60 | the file has the size of its keys and values and eight bytes for each entry |
| Etl.ReadBack | db/silkworm/etl/file_provider.cpp:76-97 | a file is read back entry by entry as it was written, then ends |
| Etl.Prime | db/silkworm/etl/collector.cpp:108-115 | one item of each provider is queued and nothing is lost |
| Etl.Merge | db/silkworm/etl/collector.cpp:117-152 | for every number of files and every choice among equal tops, the merge hands over all entries of all files in order |
| Etl.Collector.FlushBuffer | db/silkworm/etl/collector.cpp:36-50 | the buffer becomes a sorted file unless its entries have no bytes at all |
| Etl.Collector.Collect | db/silkworm/etl/collector.cpp:54-60 | for every flush size the entry is added to the history of what was collected |
| Etl.Collector.Load | db/silkworm/etl/collector.cpp:62-154 | hands over the sorted arrangement of what is kept of the collected entries |
| Etl.KeptAll | db/silkworm/etl/collector.cpp:36-60 | everything is kept if and only if the entries pending after the last flush are none, or all of them, or hold a byte |
| Etl.KeptWithKeys | db/silkworm/etl/collector.cpp:36-60 | so everything is kept if the last entry has a key |
| Etl.PendingBelow | db/silkworm/etl/collector.cpp:54-60 | the buffer never keeps as many bytes as the flush size, and flushes nothing below it |
| Etl.CollectAndLoad | db/silkworm/etl/collector.cpp:36-154 | for every flush size, collecting any entries and loading them hands over the sorted arrangement of what is kept, which is everything if no key is empty |
| Etl.LoseLastEntry | db/silkworm/etl/collector.cpp:36-50 | flush size 1, an entry with a key and one without bytes: the second is not handed over |
| Sha256.PadShortest | core/silkworm/crypto/sha-256.c:62-117 | the padding of section 5.1.1 of FIPS 180-4 is the shortest that ends a chunk |
| Sha256.StoreLength | core/silkworm/crypto/sha-256.c:104-110 | the length in bits is stored as 64-bit big-endian number without computing it |
| Sha256.BufferState.PadChunk | core/silkworm/crypto/sha-256.c:77-117 | the end of the message, the one bit, zeros and length continue the padded message, over one chunk or two |
| Sha256.BufferState.CalcChunk | core/silkworm/crypto/sha-256.c:63-117 | for every input the delivered chunks concatenate to the padded message, then delivery stops |
| Sha256.RingExtends | core/silkworm/crypto/sha-256.c:186-189 | the 16-word ring holds what the 64-word recurrence of section 6.2.2 needs |
| Sha256.RoundInPlace | core/silkworm/crypto/sha-256.c:191-205 | the shifted working variables are those of one round |
| Sha256.CompressChunk | core/silkworm/crypto/sha-256.c:157-211 | four passes over the ring compress a chunk as the 64-word schedule does |
| Sha256.CalcSha256 | core/silkworm/crypto/sha-256.c:127-222 | for every input the result is SHA-256 as FIPS 180-4 defines it |
| ShaConstants.ConstantsExact | core/silkworm/crypto/sha-256.c:25-34 | the round constants are the first 32 bits of the fractional parts of the cube roots of the first 64 primes, the initial hash (line 142) those of the square roots of the first eight |
| ShaConstants.TrialDivision | core/silkworm/crypto/sha-256.c:25-34 | the primes in question are exactly the numbers that trial division leaves |
| ShaConstants.Rotations | core/silkworm/crypto/sha-256.c:187-194 | the four sums are those of rotations to the right and shifts |
| ShaConstants.ChoiceAndMajority | core/silkworm/crypto/sha-256.c:192-195 | bit by bit, one function chooses between two words, the other is the majority of three |
| ShaConstants.WordIs | core/silkworm/crypto/sha-256.c:180-184 | the bytes of a word come most significant first |
| ShaConstants.WordBytesAre | core/silkworm/crypto/sha-256.c:215-221 | and so do those of a word of the digest |
| ShaConstants.FirstRound | core/silkworm/crypto/sha-256.c:191-205 | one round has the values published for the one-block example of FIPS 180-4 |
| RecoveryFarm.Work | cmd/check_senders.cpp:132-182 | results are ready only if every recovery succeeded, and are then one per block in order; an error means that one failed, an abort that the worker was stopped |
| RecoveryFarm.GroupBlocks | cmd/check_senders.cpp:132-182 | grouping the packages of whole blocks gives one result for each block with transactions, 20 bytes per transaction |
| RecoveryFarm.BatchOutcome | cmd/check_senders.cpp:97-182 | a batch of whole blocks ends with the senders of all transactions in order, with an error only if some signature yields no address, aborted only if told to stop |
| RecoveryFarm.DispatchKeeps | cmd/check_senders.cpp:630-688 | dispatching to an idle worker disturbs no completed batch |
| RecoveryFarm.AnnounceKeeps | cmd/check_senders.cpp:777-790 | completed batches are queued with consecutive ids in dispatch order |
| RecoveryFarm.PullKeeps | cmd/check_senders.cpp:515-577 | the results pulled continue what has been pulled before |
| RecoveryFarm.StepKeeps | cmd/check_senders.cpp:97-182 | every step of farm or worker keeps the invariants |
| RecoveryFarm.InOrder | cmd/check_senders.cpp:346-358 | under every interleaving the pulled results are those of a prefix of the blocks in order, and queued workers still hold their results |

## Left out

- `node_collector`, `tree_masks_` and `hash_masks_` of the builder: with no collector they do not influence the root.
- The value of the empty root is a constant, not computed from Keccak-256.
- Total difficulty is unbounded.
- Masks are sets of digits rather than 16-bit words, and addresses are numbers.
- Lengths in RLP are unbounded; the codecs state where they must fit 64 bits.
- RLP for signing and for sealing, receipts, logs, block bodies and whole blocks: sequences of the parts that are covered.
- Nested maps of the storage tables are maps from address, incarnation and location.
- BlockExecution.ExecuteAndWrite: receipts root and logs bloom are parameters; the bloom of a receipt is a function of its logs.
- `validate_block_header` is exact only for the gas limit, extra data, parent and timestamp checks (`Ommers.HeaderAccepted`);
  difficulty, DAO extra data and seal are one parameter, and so is header validation for `InsertBlock`.
- The analysis cache, and how the interpreter reads code: what it does is arbitrary here.
- Block hashes seen by contracts and the transaction context, which are the same for every database; the inner structure of logs.
- RecoveryFarm.InOrder: safety only; waiting, worker start-up failures and the pairing of results with header hashes are not modelled.
- Etl.Collector.Load: progress logging, disk errors, and a second load after a merge are not modelled.
- `db_trie`, bitmap indices, LMDB tables, `db::Buffer`, command-line tools, JSON configuration, WASM and foreign interfaces.
- Difficulty formulas, intrinsic gas, account encoding, the LRU cache, signature checks, Keccak-f, RIPEMD-160, BLAKE2b:
  they would only add easy members or transcriptions.
