# Document ledger and digest: a verified model

A blockchain node that keeps documents (blocksign, user, land, voting, history) runs the create,
update and sign operations of a proposal against a state pool, and a digester turns finished
blocks into five queryable collections. This project models both, and proves what the
rest of the node relies on: balances and fees over every interleaving of a proposal's operations,
the inventories as an index of the documents, crash recovery of the digest, and what its
"latest" and paged queries answer.

`dafny verify dfyconfig.toml` checks everything.

## The ledger

`Ledger` holds the pool and one operation's effect on it as functions on values. `Proposal` is
the state machine of one proposal: a `PreStep` runs an operation's PreProcess and claims its
sender, a `ProcessStep` makes the one write of an accepted operation. Steps of different
operations interleave in any way; a serial run processes each operation right after accepting it.
`Processors` and `OperationProcessors` are the objects that update their fields in place, proved
against those functions. A ghost trace inside `OperationProcessor` makes each of its reachable
states the end of a run of the machine, so every theorem about runs is one about the object.

- `Interleaving`: no overdraft, conservation per currency, the fee pool is exactly what senders
  were charged, outcomes independent of order, accepted operations never fail.
- `Partition`: inventories and documents. No interleaving makes a document disappear or changes
  its id or owner. Serial runs over any number of proposals keep every registered id in exactly
  one inventory, and interleavings do so **if and only if** no two processed creates register the
  same id.
- `Serializability`: every beginning of an interleaving equals a serial run **if and only if** the
  items of each operation still pass their checks, with the same documents, when it is written.
- `SerialOrders`: every order of a set of operations, run one at a time, accepts all of them **if
  and only if** the senders differ, each is accepted at the start, no two creates share an id, and
  every signature can still be made on the documents the others update. All orders, and every
  interleaving of the set, then end with the same balances, inventories and fees.
- `Counterexamples`: two creates of one id that no serial run explains, and two operations that
  one order accepts and the other does not.
- `Inventory`, `Documents`, `Fees`, `Signatures`, `StateKeys`: the parts.

## The digest

`DigestStore` is the document server: five row sequences, the persisted last block, and small
actions (insert a row, remove a row, drop a collection, set the last block). Every method of
`Databases`, `BlockSessions` and `Digesters` that writes also returns, as a ghost, the actions it
made, so a crash is those actions cut short. `Recovery` proves the repair at start-up, `Queries`
and `History` the "latest" queries over whole chains of blocks, `Paging` and `Offsets` the page
walks over operations.

## Where the code does not do what one might expect

Each of these is a condition proved in both directions, or a concrete input.

- Two creates of one id by different senders, both preprocessed before either is processed, are
  both written: one document, two inventories (`Partition.PartitionIff`,
  `Counterexamples.DuplicateCreateBreaksPartition`). The claim map guards senders, not ids. No
  serial run at all ends in that pool.
- Whether an operation is accepted may depend on the order: an update needs the inventory of its
  document's owner, and another sender's create may be what opens it
  (`Counterexamples.OrderMatters`). `SerialOrders.EveryOrderAcceptsIff` is the exact condition.
- The hashed bytes of a blocksign document are the same for every order of its signers exactly
  when any two entries of one address read the same in either order
  (`Documents.BSDocBytesOrderFreeIff`). Two entries of one address with different codes can show
  their order (`Documents.BSDocBytesShowOrder`).
- The threshold sum wraps at 64 bits. The verdict is the right one exactly when the sum fits or
  its wrapped value still reaches the threshold (`Signatures.VerdictRightIff`).
- The digester retries a failed block without the repair. The rows of the four collections that
  are only added to come out right exactly when the failed attempt had inserted none of them
  (`Recovery.RetryWithoutRepair`); `Recovery.RetryDuplicates` is a block whose operation comes out
  twice.
- At genesis, cleaning a document's older versions drops every collection, so the operation,
  account and balance rows written just before survive exactly when the block writes no document
  or there is no such row (`Recovery.GenesisCommit`).
- Digesting a block that is not newer than the last one lowers the persisted height exactly when
  the block writes a document (`Recovery.OldBlockMovesPersistedHeight`).
- A page walk goes on past the height and index of a page's last row. The walks of a query are
  complete, whatever limits the pages are asked with, exactly when no two matching rows share both
  (`Paging.WalksCompleteIff`); `Paging.RowIsLost` is a collection in which a row is lost. For the
  query of all operations this comes down to no height with operations being digested twice
  (`History.DigestedWalksComplete`).
- The digester does not get past a block that cannot be prepared: it tries it again without end
  (`Digesters.Digester.Digest`).

## Conventions and assumptions

- A Go string is the sequence of its bytes, one character a byte. `currency.Big` is an unbounded
  integer. Signature weights, heights in offsets and indexes have their 64-bit ranges.
- The pool is a record of four maps instead of one map keyed by state key; `StateKeys` shows that
  keys are injective and the kinds disjoint. `pool.Get` answers the value last set;
  `AmountState.Sub` lowers an amount and `AddFee` records a fee beside it; `Feeer.Fee(0)` is fixed
  per currency during a proposal, or always fails.
- `sort.Slice` is a sorted rearrangement; `Sequences.SortedUnique` shows that it does not matter
  which, wherever the order tells the elements apart. Blocks of one digest call are taken to have
  different heights, or to keep their order.
- Steps are atomic: a PreProcess or Process of one operation is not interrupted.
- The document a signature loads is a private copy.
- `Indexed` (inventories list only registered ids, none twice) is what a proposal starts from.
  The empty ledger has it, and every interleaving keeps it (`Partition.IndexedAfter`).
- A valid fact has a sender, one to ten items with different ids that are valid, and for a create
  ids that can be parsed: without that the source cannot build the document's info.
- `NilHeight` is below `PreGenesisHeight`, genesis is `PreGenesisHeight + 1`, stored heights are
  above `NilHeight`, and the states of a block carry the block's height where a lemma says so.
- The currency library's key recognisers and `uintToBytes`/`bigToBytes` are parameters.
- A bulk delete or a bulk insert may be cut short after any row. The crash theorem covers more
  than the orders the code produces: any sequence of allowed actions, from several attempts.

## Model

| member | source | states |
|---|---|---|
| Proposal.RunKeeps | document/operation_processor.go:102-189 | invariant of every interleaving: claims, accepted, pending and processed operations agree; balances, inventories and fees are what the processed operations make of the start |
| Proposal.CreateNeverFails | document/create_documents_process.go:210-234 | a create that passed PreProcess on an indexed pool has every append succeed in Process, and yields the sorted union of the old and new infos |
| Proposal.OutcomeStep | document/create_documents_process.go:210-252 | processing one accepted plan turns the outcome of the earlier operations into the outcome with this one added, whatever ran in between |
| Proposal.FeesKept | document/operation_processor.go:102-120 | one operation adds exactly its charge to each currency of the fee pool, and currencies without a fee get no entry |
| Interleaving.NoOverdraft | document/create_documents_process.go:318-347 | the balance check of PreProcess is still valid at write time: no interleaving makes a balance negative, raises one or opens one |
| Interleaving.FeePoolIsCharged | document/operation_processor.go:102-120 | in every run from `New` on, every balance fell by exactly its owner's charges and the fee pool is their sum |
| Interleaving.ProcessConserves | document/create_documents_process.go:245-251 | one write keeps balances plus fees, per currency |
| Interleaving.Conservation | document/operation_processor.go:61-120 | for every currency, all balances plus the fee pool are the same at every point of every interleaving |
| Interleaving.OrderIrrelevant | document/operation_processor.go:122-189 | two interleavings that process the same operations end with the same balances, inventories and fee pool |
| Interleaving.ClaimedAreAccepted | document/operation_processor.go:191-247 | the claimed senders are exactly the senders of accepted operations, and none is accepted twice |
| Interleaving.RejectedChangesNothing | document/operation_processor.go:122-143 | an operation is rejected exactly when its PreProcess leaves the machine as it was, and the step can then be taken out of any run without changing its end |
| Interleaving.AcceptedNeverFails | document/operation_processor.go:145-189 | an accepted operation is processed without error after any other steps |
| Acceptance.CreateAccepted | document/create_documents_process.go:43-82 | a create's item passes exactly if its id is unused, its type is that of its kind and, field by field, every signer, or the account and every candidate with a manifest of at most 100 bytes, or the account, exists; user and land documents name nobody |
| Acceptance.ItemAccepted | document/update_documents_process.go:44-110 | an item passes exactly under declarative conditions on the pool, for all three kinds |
| Acceptance.AcceptedExactly | document/create_documents_process.go:146-208 | PreProcess succeeds if and only if account, fees, summed balances, items and weighed signatures are all in order |
| Acceptance.AcceptedFieldByField | document/create_documents_process.go:146-208 | the same, spelled out in items counted per currency, the currency pool's fees, the stored balances, known signers and the word-sized sum of weights |
| Acceptance.OperationFields | document/create_documents.go:77-116 | the ids and currencies of an operation are those of its items, in order |
| Acceptance.FactFields | document/create_documents.go:77-116 | a valid fact has a sender, one to ten items, valid documents, different ids and, for a create, ids that can be parsed |
| Acceptance.ItemWrites | document/sign_documents_process.go:89-121 | a create or update writes its own document, a signature the stored one with only the sender's first flag set |
| Acceptance.SignatureShows | document/sign_documents_process.go:89-121 | a signature changes the hashed bytes of the document exactly when the sender's first entry was not signed before |
| Acceptance.DocumentsWritten | document/create_documents_process.go:210-243 | after an accepted operation its ids hold what its items write and all other documents are unchanged |
| Acceptance.BalancesWritten | document/create_documents_process.go:245-251 | the sender pays the number of its items in a currency times that currency's fee, nobody else pays |
| Acceptance.PaidPerItem | document/create_documents_process.go:282-316 | the sender pays, for each item, its currency's fee if that is positive and there is a currency pool |
| Acceptance.InventoriesWritten | document/create_documents_process.go:219-243 | a create's sender gets the strictly ascending list of the old entries and the new documents' infos; no other inventory changes |
| Partition.PartitionIff | document/create_documents_process.go:43-60 | after any interleaving the inventories partition the documents if and only if no two processed creates share an id |
| Partition.OwnsAfter | document/create_documents_process.go:219-243 | an inventory lists an id after a run exactly if it did before or its owner's processed create has it |
| Partition.RunStore | document/create_documents_process.go:219-243 | the registered ids of a run are the old and the created ones, and each document sits under its own id |
| Partition.InventoriesAscend | document/create_documents_process.go:219-243 | every inventory a run leaves is strictly ascending: of two ids the earlier is a proper prefix of the later or smaller at the first byte that differs |
| Partition.IndexedAfter | document/document_inventory.go:90-120 | every interleaving keeps inventories free of repeated and unregistered ids |
| Partition.SerialOne | document/operation_processor.go:157-162 | a serial step is rejected without effect or accepted and fully processed |
| Partition.SerialCreatesDisjoint | document/create_documents_process.go:52-60 | in a serial run no two processed creates share an id |
| Partition.SerialPartition | document/operation_processor.go:157-162 | a serial run keeps the inventories a partition of the documents |
| Partition.DocumentsPersist | document/update_documents_process.go:77-107 | over every interleaving, conflicting operations included, no document disappears or changes id or owner |
| Partition.SerialPersists | document/sign_documents_process.go:79-121 | the same over a serial run |
| Partition.ChainPartition | document/operation_processor.go:61-90 | both, over any number of proposals in which accounts and balances may change in between |
| Partition.EmptyPartition | document/state.go:19-54 | the ledger without documents is a partition |
| Serializability.PlanStable | document/create_documents_process.go:146-208 | a write of another sender's operation that does not disturb it leaves an accepted plan exactly what PreProcess would compute now |
| Serializability.PlanAgain | document/create_documents_process.go:146-208 | PreProcess would make an accepted plan again now exactly when its items pass with the same documents: account, signatures, balances and inventory of a sender with one claim cannot have changed |
| Serializability.SerializableIff | document/operation_processor.go:122-189 | every beginning of a run leaves the pool, fees and operations of the serial run in the order of its Process steps if and only if each operation's items hold when it is written |
| Serializability.Serializable | document/operation_processor.go:122-189 | they hold, and every beginning is like a serial run, when no write disturbs an operation pending at that moment |
| SerialOrders.EveryOrderAcceptsIff | document/operation_processor.go:157-162 | every serial order accepts all operations if and only if senders differ, each is accepted at the start, creates share no id, and signatures can be made on the updated documents |
| SerialOrders.EveryOrderAgrees | document/operation_processor.go:157-162 | such operations, one at a time in any order, are all accepted and leave the same balances, inventories and fees |
| SerialOrders.InterleavingAgrees | document/operation_processor.go:122-189 | an interleaving of such operations leaves what any order of running them one at a time leaves |
| SerialOrders.AgreesWithRun | document/operation_processor.go:122-189 | a serial order and an interleaving that process the same operations agree on balances, inventories and fees |
| SerialOrders.UndisturbedCompatible | document/operation_processor.go:157-162 | operations that do not disturb each other are compatible, so the checks on ids and kinds alone suffice |
| SerialOrders.StillAccepted | document/create_documents_process.go:146-208 | a compatible operation is still accepted after another's write |
| SerialOrders.PairCompatible | document/sign_documents_process.go:43-124 | two operations accepted one after the other are compatible |
| Counterexamples.DuplicateCreateBreaksPartition | document/operation_processor.go:191-247 | a concrete interleaving of two creates of one id that breaks the partition; no serial run of any operations ends in its pool |
| Counterexamples.OrderMatters | document/update_documents_process.go:44-110 | a create and an update by different senders that are both accepted in one order, while the other order refuses the update |
| Counterexamples.SharedIdBreaks | document/operation_processor.go:191-247 | any run that processes two creates of one id leaves no partition |
| OperationProcessors.OperationProcessor.New | document/operation_processor.go:61-90 | a proposal starts with empty fees and claims, at the empty run |
| OperationProcessors.OperationProcessor.SetState | document/operation_processor.go:102-120 | sets all states and adds up the positive fees of the amounts |
| OperationProcessors.OperationProcessor.CheckDuplication | document/operation_processor.go:191-247 | refuses a claimed sender without change, otherwise claims exactly that sender |
| OperationProcessors.OperationProcessor.PreProcess | document/operation_processor.go:122-143 | takes one step of the machine; accepts exactly what the machine accepts, returns a processor that holds the plan, changes nothing on error |
| OperationProcessors.OperationProcessor.Process | document/operation_processor.go:168-189 | takes one step of the machine: the plan's whole write and fees, or an error and no change |
| OperationProcessors.OperationProcessor.ProcessOperation | document/operation_processor.go:157-162 | an operation given whole is accepted and processed at once, never accepted and then failed |
| Processors.PreProcessCreateItem | document/create_documents_process.go:43-82 | passes exactly a valid document with an unused id whose signers, candidates and account all exist; agrees with the specification's errors |
| Processors.PreProcessUpdateItem | document/update_documents_process.go:44-110 | passes exactly a valid document with a registered id and the registered owner, who has an account and an inventory; gives that document |
| Processors.PreProcessSignItem | document/sign_documents_process.go:43-124 | the signer loop marks the first entry of the sender, with every error case |
| Processors.ItemStates | document/update_documents_process.go:218-224 | one state per item, its document under its id, in the items' order |
| Processors.AppendInfos | document/create_documents_process.go:219-234 | the same for a create, appending the infos to the inventory object one by one, or failing where the list specification fails |
| Processors.ChargedAmounts | document/create_documents_process.go:245-249 | one lowered amount with its fee for each required currency, each once, in any order |
| Processors.CreateDocumentsProcessor.PreProcess | document/create_documents_process.go:146-208 | succeeds exactly when the specification does and then holds its plan, otherwise gives its error |
| Processors.CreateDocumentsProcessor.Process | document/create_documents_process.go:210-252 | produces exactly the plan's states: documents, sorted inventory, charged amounts; or the append's error |
| Processors.UpdateDocumentsProcessor.PreProcess | document/update_documents_process.go:161-206 | succeeds exactly when the specification does and then holds its plan |
| Processors.UpdateDocumentsProcessor.Process | document/update_documents_process.go:208-233 | produces exactly the plan's documents and charged amounts |
| Processors.SignDocumentsProcessor.PreProcess | document/sign_documents_process.go:172-211 | succeeds exactly when the specification does and then holds its plan |
| Processors.SignDocumentsProcessor.Process | document/sign_documents_process.go:213-235 | produces exactly the plan's documents and charged amounts |
| Processors.PreItemsFails | document/create_documents_process.go:172-190 | the first failing item's error is the operation's error |
| Ledger.HasDistinctIds | document/create_documents.go:97-109 | the duplicate-id loop answers whether all ids differ |
| Ledger.DocumentsWithMeaning | document/create_documents_process.go:219-243 | writing documents under different ids puts each under its id and keeps the others |
| Ledger.SetPlanStates | document/operation_processor.go:102-120 | setting a plan's states, amounts in any order, is the one write of the specification |
| Fees.RequiredFeeMeaning | document/create_documents_process.go:282-316 | the fee names the items' currencies and no others, count times fee in both components, and is refused exactly for an unusable currency |
| Fees.CalculateItemsFee | document/update_documents_process.go:260-294 | the fee loop, shared by the three operations, computes that fee and reports the first bad item |
| Fees.CheckDocumentOwnerEnoughBalance | document/create_documents_process.go:318-347 | accepts exactly when every required currency has a balance of at least its sum, and returns those balances |
| Signatures.CheckThreshold | document/keys.go:10-25 | accepts exactly known signers whose weights, added in a 64-bit word, reach the threshold |
| Signatures.VerdictOfPermutation | document/keys.go:10-25 | the verdict does not depend on the order of the signatures |
| Signatures.MoreSignaturesKeepAcceptance | document/keys.go:10-25 | a further signature by a known key never loses acceptance while the sum fits the word |
| Signatures.VerdictRightIff | document/keys.go:10-25 | the verdict is the one the true sum calls for exactly when the sum fits or its wrapped value still reaches the threshold |
| Signatures.WrappedWeightRefused | document/keys.go:10-25 | two half-word weights wrap to zero and are refused |
| StateKeys.StateKeysInjective | document/state.go:14-54 | each key builder is injective |
| StateKeys.KindsDisjoint | document/state.go:23-54 | no key is recognised as both kinds |
| StateKeys.StateKeyKinds | document/state.go:14-54 | each built key is recognised as its kind only, and keys of the two kinds differ |
| StateKeys.RecognisedAreBuilt | document/state.go:14-54 | the recognisers answer yes to exactly the keys that can be built |
| Documents.ParseDocId | document/document_id.go:368-385 | an id is known exactly when it is longer than its type suffix and ends in a known one |
| Documents.DocIdKinds | document/document_id.go:38-46 | the five suffixes and the types they stand for |
| Documents.ValidDocument | document/document_data.go:191-214 | a document is valid exactly if its type is that of its kind and no candidate's manifest is over 100 bytes |
| Documents.AccountsNamed | document/document_data.go:676-683 | the accounts of a document are its signers, or its account and candidates, or its account, or none |
| Documents.MarksExactlyFirst | document/sign_documents_process.go:102-114 | signing sets the flag of the sender's first entry and changes nothing else |
| Documents.MarkFailsWithoutEntry | document/sign_documents_process.go:98-114 | signing fails exactly when no entry has the sender's address |
| Documents.SignedOnlyGrows | document/document.go:345-347 | over a run of signatures entries keep address and code, and no flag is cleared |
| Documents.SignaturesCommute | document/sign_documents_process.go:89-121 | two signatures give the same document in either order, failures included |
| Documents.HashedVotingBytes | document/document_data.go:621-639 | sorts the candidates in place by their own bytes and returns the fields and candidates concatenated in the source's order |
| Documents.VotingBytesAre | document/document.go:388-391 | the bytes of a voting document, field by field, each candidate with address, nickname, manifest and count |
| Documents.HashedBSDocBytes | document/document_data.go:158-177 | sorts the signers in place by address bytes and returns the fields and signers concatenated in the source's order, each signer with its flag |
| Documents.BSDocBytesAre | document/document.go:287-297 | the bytes of a blocksign document, field by field, each signer with address, code and flag byte |
| Documents.FlagShows | document/document.go:287-297 | setting the flag of an unsigned entry changes the signers' bytes, however a sort arranges them before and after |
| Documents.SigningChangesBytes | document/document_data.go:158-177 | a signature on an entry not signed yet changes the document's bytes |
| Documents.VotingBytesCanonical | document/document_data.go:621-639 | the bytes depend on the candidates only as a multiset |
| Documents.BSDocBytesCanonical | document/document_data.go:158-177 | the bytes depend on the signers only as a set when addresses differ |
| Documents.ArrangementsAgree | document/document_data.go:158-177 | whichever sorted arrangement of the signers a sort produces, the bytes are the same when entries of one address commute |
| Documents.BSDocBytesOrderFreeIff | document/document_data.go:158-177 | the bytes are the same for every order of the signers if and only if entries of one address read the same in either order |
| Documents.BSDocBytesShowOrder | document/document_data.go:158-177 | a valid document with an address twice whose bytes show the order |
| Sequences.SortedUnique | document/document_inventory.go:81-88 | any two sorted arrangements of the same elements are equal when the order tells them apart |
| Sequences.LexLeMeaning | document/document_inventory.go:81-88 | the comparison of byte strings: a prefix comes first, otherwise the first byte that differs decides |
| Inventory.DocumentInventory.Bytes | document/document_inventory.go:36-43 | concatenates id and type of the entries in order |
| Inventory.DocumentInventory.Sort | document/document_inventory.go:81-88 | the same entries, ordered by id bytes, ascending or descending as asked |
| Inventory.DocumentInventory.Exists | document/document_inventory.go:90-100 | answers whether the id is a key of the map |
| Inventory.DocumentInventory.Get | document/document_inventory.go:102-109 | answers the entry the map holds, or an error exactly when there is none |
| Inventory.DocumentInventory.Append | document/document_inventory.go:111-120 | is insertion into the map; fails without change for an invalid info or a listed id |
| Inventory.DocumentInventory.Romove | document/document_inventory.go:122-135 | is deletion from the map; fails without change exactly when the id is not listed |
| Inventory.SortedAscends | document/document_inventory.go:81-88 | sorting keeps the map and makes a list of distinct ids strictly ascending |
| Inventory.AscendingUnique | document/document_inventory.go:81-88 | a strictly ascending inventory is determined by its map |
| Inventory.AppendAllSucceeds | document/document_inventory.go:111-120 | a series of appends succeeds exactly when the infos are valid and no id is listed twice |
| Inventory.CreateOrderIrrelevant | document/create_documents_process.go:219-243 | inventory and bytes after a create depend only on the old entries and the set of new infos |
| DigestStore.Mongo.BulkInsert | digest/block_session.go:310-319 | inserts the rows at the end of one collection, row by row |
| DigestStore.Mongo.DeleteMany | digest/database.go:219-241 | removes exactly the matching rows of one collection, row by row, keeping the order of the rest |
| Databases.Database.Initialize | digest/database.go:104-129 | repairs the store to the rows up to the persisted last block, by actions that are allowed at the next height |
| Databases.Database.SetLastBlock | digest/database.go:152-165 | advances the last block in memory and on disk for a higher height, otherwise changes nothing |
| Databases.Database.WriteLastBlock | digest/database.go:167-177 | stores a height on disk and in memory and touches no row |
| Databases.Database.Clean | digest/database.go:190-206 | empties every collection and sets both last blocks to the nil height |
| Databases.Database.CleanByHeight | digest/database.go:219-241 | removes the rows at or above a height from all five collections, or everything up to genesis |
| Databases.Database.CleanDocument | digest/database.go:1062-1083 | removes one document's versions up to a height and sets the last block below it |
| Databases.CleanedCollectionsMeaning | digest/database.go:219-241 | cleaning collection by collection removes exactly the rows at or above the height |
| BlockSessions.RoutedByKind | digest/block_session.go:183-236 | document and inventory states go to the collection of their key's kind |
| BlockSessions.RowsForMeaning | digest/block_session.go:183-275 | the rows of a collection are, in the states' order, exactly those of the states that belong there, and hold the states' own address, currency, amount, previous height, document or infos |
| BlockSessions.ModelsMeaning | digest/block_session.go:141-275 | the models of a block: each operation with its index, fact, addresses and in-state flag, each state in its collection with what it holds, each document's id beside its row |
| BlockSessions.PreparableExactly | digest/block_session.go:141-275 | a block can be prepared exactly when the tree knows its operations and its states hold values of their kinds |
| BlockSessions.ModelsAtHeight | digest/block_session.go:141-236 | all rows of a block carry its height and the document list lines up with the document rows |
| BlockSessions.BlockSession.Prepare | digest/block_session.go:57-70 | fills the session with the block's rows, spelled out field by field, or fails exactly for an operation the tree does not know or a misplaced state value |
| BlockSessions.BlockSession.PrepareOperations | digest/block_session.go:141-181 | model i has index i and the operation's own fact, addresses and in-state flag from the tree |
| BlockSessions.BlockSession.PrepareAccounts | digest/block_session.go:183-236 | each state becomes a row of exactly the collection of its key with the state's own contents, in order, and every row comes from such a state; the document list is beside the document rows |
| BlockSessions.BlockSession.WriteModels | digest/block_session.go:277-308 | submits consecutive nonempty chunks of at most 500, all but the last full, that concatenate to the list |
| BlockSessions.BlockSession.CommitDocuments | digest/block_session.go:95-106 | removes the older versions of the block's documents and adds the new ones |
| BlockSessions.BlockSession.Commit | digest/block_session.go:72-115 | writes the five collections, and above genesis only by actions the repair undoes or a new digest repeats |
| Digesters.Digester.DigestOne | digest/digest.go:126-151 | commits the block, then advances the last block; a failure to prepare changes nothing |
| Digesters.Digester.Digest | digest/digest.go:113-124 | sorts the blocks in place into ascending heights and digests them in that order, up to the first that cannot be prepared |
| Recovery.StepRecoverable | digest/block_session.go:72-115 | an allowed action changes no row the repair keeps |
| Recovery.RepairRestores | digest/database.go:104-129 | the repair leaves exactly the rows up to the last block in the four collections that are only added to |
| Recovery.CommittedDocuments | digest/block_session.go:95-106 | a commit above genesis replaces exactly the versions of its own documents that are not newer |
| Recovery.CrashRecovery | digest/database.go:104-129 | after crashes anywhere in attempts at block `lastBlock + 1`, repairs included, the repair restores the rows and a new digest gives the store of an uncrashed run |
| Recovery.CommitCutShort | digest/block_session.go:72-115 | the same for one commit cut short after any of its actions |
| Recovery.RepairActionsAllowed | digest/database.go:219-241 | a repair's own actions are covered by the crash theorem |
| Recovery.RestartAndDigest | digest/digest.go:126-151 | the database and digester objects, started on a crashed store, end in the uncrashed store |
| Recovery.DigestedAdvances | digest/digest.go:126-135 | a digest above genesis records its height and leaves no row above it |
| Recovery.ChainRecovery | digest/database.go:104-129 | a chain of blocks, each with any number of crashes anywhere in its digest, ends in the store of a run without crashes |
| Recovery.RetryWithoutRepair | digest/digest.go:84-97 | a commit that failed after any of its actions and is repeated without the repair gives the right rows in the four added-to collections exactly when no row had been inserted into them |
| Recovery.RetryDuplicates | digest/digest.go:84-97 | a block of one operation that failed after its first action: the retry inserts the operation twice |
| Recovery.GenesisCommit | digest/database.go:1062-1083 | at genesis the rows written before the documents survive exactly when there is no document, or no such row |
| Recovery.OldBlockMovesPersistedHeight | digest/database.go:1062-1083 | digesting an old block keeps the height a restart comes back to exactly when it has no document |
| Queries.FindLatest | digest/database.go:951-980 | some matching row of the greatest height, or none exactly when none matches |
| Queries.Document | digest/database.go:951-980 | the body of such a row for one document id |
| Queries.DocumentIsLatest | digest/database.go:951-980 | after commits above genesis in any order and with repeats, the row found was written by the highest committed block with the document, and is missing exactly when no block has it |
| Queries.VersionUnique | digest/block_session.go:256-267 | a block's version of a document is unique |
| Queries.OneRowPerDocument | digest/block_session.go:95-106 | with ascending commits the collection holds exactly one row for each document of a committed block and none for others |
| Queries.Balance | digest/database.go:552-611 | terminates with one amount per currency that has a row, each from that currency's highest row, and the greatest height over all rows |
| Offsets.PrintedFits | digest/database.go:783-799 | a printed number is parsed back exactly when it fits its 64-bit word |
| Offsets.ParsedOffset | digest/database.go:783-795 | an offset is refused unless it has a comma with a height before the first one and an index after it |
| Offsets.ParsedDigits | digest/database.go:783-795 | exactly the nonempty strings of decimal digits are numbers |
| Offsets.ParseFormatInt | digest/database.go:783-799 | a printed height is parsed back |
| Offsets.OffsetRoundTrip | digest/database.go:783-799 | a built offset parses to the height and index it was built from |
| Offsets.OffsetInjective | digest/database.go:797-799 | offsets are equal exactly when height and index are |
| Paging.NextOffsetSelects | digest/database.go:801-829 | the filter of a row's next offset selects exactly the matching rows past it |
| Paging.PageFollows | digest/handler_operation.go:351-372 | the filter of the next offset selects exactly what lies past the row in the ordered list of matches |
| Paging.AskedMeaning | digest/database.go:801-829 | a query asks for all operations, those with the address among theirs, or those of the height |
| Paging.MatchesMeaning | digest/handler_operation.go:295-349 | a filter goes on strictly past its offset, upwards or downwards, by height and then index |
| Paging.FilterMeaning | digest/handler_operation.go:295-349 | an offset is refused exactly when it is given and cannot be parsed, and otherwise is where the filter goes on |
| Paging.EverythingMeaning | digest/database.go:380-429 | a query's matches are the rows it asks for, as often as they are there, ascending or descending by height and index |
| Paging.SelectedMeaning | digest/database.go:284-339 | the same for a filter |
| Paging.Operations | digest/database.go:380-429 | the first matches in order: all of them without a limit, otherwise exactly the smaller of their number and the limit clamped to 50 |
| Paging.Walk | digest/handler_operation.go:295-395 | following next offsets, each page with a limit of its own, ends and returns the pages of the ordered list of matches; every page but the last is full |
| Paging.PagesFull | digest/database.go:396-402 | a page that is followed by another holds exactly its limit, clamped to 50 |
| Paging.PagesBounded | digest/database.go:380-429 | every page of a walk holds a row and at most its limit, clamped to 50 |
| Paging.WalksCompleteIff | digest/handler_operation.go:295-395 | for every choice of limits the pages are all matches in order, each once, if and only if no two matches share height and index |
| Paging.UniqueKeysWalk | digest/database.go:284-339 | with unique keys in the collection the walks of every query are complete |
| Paging.AllOperationsWalkIff | digest/handler_operation.go:295-323 | for the query of all operations the keys of the collection decide |
| Paging.EqualKeysAreSkipped | digest/database.go:801-829 | after a page that ends with a row, no page of the walk holds a row of the same key |
| Paging.RowIsLost | digest/database.go:801-829 | a collection of two operations of one key: walked row by row, the second is lost |
| Paging.BlockIsNumbered | digest/block_session.go:155-178 | a block's operation rows are numbered from zero at its height |
| Paging.OperationKeysUnique | digest/block_session.go:141-181 | from any collection with unique keys, commits above genesis leave unique keys exactly when no height with operations is committed twice or was there before |
| History.DigestedRows | digest/digest.go:113-135 | advancing the last block touches no row: digesting a list leaves the rows of its commits |
| History.DigestedWalksComplete | digest/digest.go:113-135 | after digesting a list of blocks on top of any store with unique keys, every walk over all operations is complete exactly when no height with operations was digested twice or was there before |
| History.DigestedDocumentIsLatest | digest/database.go:951-980 | after digesting any list of blocks of one chain, the document query finds the version of the highest block with the document, and it is the document of one of that block's states |
| History.BalanceAfterDigest | digest/database.go:552-611 | after digesting a block on top of lower ones, the balance query answers the amount of the block's balance state |
| History.BlockBalances | digest/block_session.go:248-254 | a block's balance rows of an address and currency hold its states' amount, and there is one if there is such a state |

## Left out

- Currency operations, new-address duplication and what `Close` does with the fee pool (document/operation_processor.go:258-289): their code belongs to the currency library; conservation stops just before `Close`.
- Object pools and `Close` of processors: every processor is freshly allocated.
- The original's item-processor objects are modelled as the values they hold; their locks, logging and closers are not modelled.
- Interleaved signatures of one document by different senders write two private copies, so the later write decides; the original shares the signer slice between cached states, where both flags may survive. That sharing, and the in-place sorting of shared slices while hashing, is not part of this model.
- Serializability.Serializable: gives a condition that can be read off the operations and is sufficient; the exact one, `Serializability.SerializableIff`, looks at the items' checks. Both are about all beginnings of a run, and about the serial order of its Process steps.
- SerialOrders.EveryOrderAgrees: says nothing of the documents, since two updates of one document leave the later one's.
- Recovery.RetryWithoutRepair: speaks of the four collections that are only added to; the document collection is rewritten by every attempt.
- The two messages of the balance check (no balance, too little) are one error, and so are the library's own validity checks of addresses, currencies, tokens and fact hashes, which are not modelled.
- The fee loops of the three operations are the same statements over different item types and are modelled once.
- Fields of user, land and history documents that no ledger operation reads are one opaque string.
- Tracking of the document type after an update: the check is commented out in the source, so an inventory's type may differ from the stored document's.
- `CleanByHeight` as a rollback of the document collection: older versions were deleted when newer ones were committed.
- The start-up follow-up loop in cmds/process_digester.go, and how often the digester's retry runs: a block that cannot be prepared ends the run in the model.
- `AccountsByPublickey` and `topHeightByPublickey`, whose batches do not tile the address list, and paging of documents, whose offsets carry only a height.
- `Equal` of inventories and documents: the loops do not compare lengths.
- HTTP handlers, HAL, the response cache, JSON and BSON coding, the database server itself, hashing and signature cryptography, and the command line.
