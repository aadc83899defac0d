# A verified model of the consensus core of Namecoin

This project models, in Dafny 4.11, how the node keeps its transaction index and its name index
in step with the best chain, and proves what that machinery is for. The parts are:

- **Names and scripts** (`ScriptCode`, `NameScript`, `NameRules`, `NamePrefix`, `Spending`,
  `NameSigning`): instruction coding, recognising name operations, the rules that depend on the
  height, the prefixes that carry name operations, and who can spend name outputs.
- **Connecting and undoing** (`ChainTypes`, `Connect`, `Undo`, `ChainRun`, `TxLog`, `Switch`):
  the effect of a transaction and of a block on both indexes as functions, the exact conditions
  under which disconnecting undoes connecting, and the closed form of the state after any run.
- **What is accepted** (`InputRules`, `NameDecisions`, `Registrations`, `NetworkFees`): the rules
  for inputs, name operations and fees said of the branch and of the scripts, with their numbers
  written out, and proved to be exactly what connecting decides.
- **The name index twice** (`Rescan`, `NameValues`, `NameReadings`, `Owner`, `Succession`): the
  incremental index against the rescan of the chain, what the index and its values depend on, the
  single live owner of every name, and who may follow whom in its history.
- **Money** (`Supply`): conservation and the bound on the supply.
- **Databases, tree and steps in place** (`TxDb`, `ChainDb`, `BlockTree`, `NodeState`, `LoadIndex`):
  classes whose methods update databases, links and best block as the program does, each proved
  against the functions above.
- **Mining** (`TestPool`, `MinerFees`, `MinerTakes`, `Miner`, `MinedBlock`, `MinedNames`,
  `MinedBlockNames`): which transactions the miner takes, assembling a block from the pool over the
  test-pool overlay, and why the block connects.
- **Failing inputs** (`Counterexamples`): accepted inputs for which a property needs its condition.
- **Merkle trees and merged mining** (`Merkle`, `AuxPow`).
- **The script machine** (`ScriptMachine`, `Conditionals`, `Multisig`, `SignedCode`,
  `EvalScript`, `Instructions`, `MultisigSpending`).
- **Codecs and arithmetic** (`Serialize`, `Wire`, `BlockFiles`, `DataStreams`, `Base58`, `Compact`,
  `NextWork`, `Locator`, `Sync`).

`dafny verify dfyconfig.toml` checks everything.

## Hypotheses

- Hashes and signature checks are uninterpreted. A transaction carries its id and its serialized
  size as fields; the pair hash of merkle trees is a parameter. Where a result needs it to
  be free of collisions, it asks so only of the finitely many pairs hashed for the trees and
  branches in question (`InjectiveOn`), as the row says; `HeaderWorkExists` shows that these
  hypotheses can be met. The checksum of base-58 text is any function with four bytes of result.
- Disk reads return what was written: a map from positions to transactions is part of the
  environment, and a tree entry carries its block. `ChainOnFile` and `WorldFromFiles` derive the
  former from blocks written to files as bytes.
- `AddTxIndex` overwrites without looking, so the statements about undo and runs ask for
  transaction ids that are new on the branch and for blocks stored at places of their own
  (`FreshBlock`); `UndoBlock` shows that the first is necessary.
- A missing name entry counts as an empty history, because undo leaves an empty vector.
- `blockChecks` of the environment stands for the tests of `CheckBlock` outside the model (proof
  of work, time stamps, sizes, signature operations, merkle root, the hook's part of
  `CheckTransaction`).
- Integers are unbounded, except where the program's width matters (the slot of merged mining,
  serialized integers, push sizes, the difference of block times).
- `NameDecisions`, `Registrations` and the name lemmas of `MinerTakes` speak of transactions with at
  most one name output and at most one spent one, and otherwise scripts that do not start with a
  small number, as the wallet makes them; for all others `StrictScanExact` and `OldScanExact` say
  what is found.
- A miner works on a node whose databases are those of its best chain (`OnBestChain`), and no
  block is stored at the pseudo position of pool transactions.

## Where the code differs from what it is meant to do

The model follows the code. These are the places where a property has a condition because of it:

- `DecodeNameScript` stores the operation before it knows whether the script is a name script, so
  a later output can overwrite the operation of a name transaction (`OperationIsLastWritten`,
  `MisreadAccepted`, condition `ReadAsRecorded`). The vector reads that would then run out of
  bounds count as a refusal.
- Coinbases skip the name hook on connecting, but neither on disconnecting nor in the rescan
  (`CoinbaseRegisters`, condition `CoinbasesSilent`).
- Before the libcoin fork undo can fail for names that were never indexed (`ToleratedNotUndone`,
  condition `Undoable`).
- The value stored with a name entry is decoded by the rules of the best height, not of the
  height of its block, so a value can be lost in the first block past the fork even when blocks
  are connected in order (`StoredValueLost`, condition `SameValueByBothRules`, read off the scripts by
  `OnlyStraddlersMatter`).
- `Reorganize` aborts and `SetBestChain` aborts again; the second call finds no open transaction
  and does nothing, which `TxnAbort` and `MoveBest` make precise.
- A pool transaction whose fee took the total out of range would be left out of the block but stay
  in `nFees`; `FeesNeverOverflow` shows that this never happens.
- `CreateNewBlock` tests a name_update at the current height, one block too early
  (`LateUpdateRefused`, condition `InTime`).
- Connecting a block takes its transactions off the pending names at once, also when the block is
  refused in the end and they stay in the pool. With pending names missing, the miner can take two
  transactions on one name (`RivalsMined`, condition `NamesOnce`).
- On the test network the difference of two block times is unsigned, so a block dated before its
  parent is allowed the minimum difficulty (`EarlierBlockIsEasy`).
- The bits of the genesis block are tested against no rule, and are those of the limit on neither
  network (`GenesisInRange`); the results on difficulty take the genesis block as given.
- A genesis block of zero work would be stored without becoming the best block; adding a block to
  a tree without a best block therefore asks for the genesis block.

## Model

| member | source | states |
|---|---|---|
| ScriptCode.GetOpReadsPush | src/script.h:463-488 | Reading at a pushed vector, whatever precedes and follows it, gives back the vector and stops right behind it, for every width of the size field. |
| ScriptCode.AnnouncedPush | src/script.h:526-577 | A push announced by its size or by 76, 77 or 78 and one, two or four size bytes, minimal or not, is read exactly when all its bytes are there. |
| ScriptCode.PushIsShortest | src/script.h:463-488 | The shift operator announces a vector in the fewest bytes. |
| ScriptCode.GetOpReadsOpcode | src/script.h:435-441 | A one-byte instruction written with << is read back as itself. |
| ScriptCode.GetOpShift | src/script.h:526-577 | GetOp looks only at bytes from the iterator on: a prefix shifts its result and changes nothing else. |
| NameScript.DecodeNameScript | src/namecoin.cpp:1834-1869 | The two loops compute the parse of the script: operation (written even when decoding then fails), appended arguments, iterator, and success exactly for a completed parse with the right number of arguments. |
| NameScript.NameScriptExact | src/namecoin.cpp:1834-1889 | What a name script is, instruction by instruction: the number 1 and one push, 2 and three, or 3 and two, and then DROP, 2DROP or NOP, whatever follows. |
| NameScript.ParseExact | src/namecoin.cpp:1834-1869 | A number from 1 to 16 and pushes: that operation and these arguments, complete exactly when one of the three instructions follows. |
| NameScript.ScanNameScripts | src/namecoin.cpp:1891-1943 | The scan over outputs (or spent outputs), with its shared or fresh argument vector and its early exit, is the fold of the one-script step over all scripts. |
| NameScript.StrictScanExact | src/namecoin.cpp:1893-1918 | Under the strict rule: nothing found means no script decodes; found once means exactly the reported one decodes, with the reported arguments; multiple means two scripts decode. |
| NamePrefix.BuiltScriptDecodes | src/namecoin.cpp:1834-1869 | For all three operations and all arguments, decoding the built script returns the operation and the arguments, and leaves the iterator at the rest if and only if the rest starts plainly (a one-byte first instruction, no drop or no-op unless it is everything). |
| NamePrefix.AddressStartsPlainly | src/script.h:638-642 | Address scripts start plainly. |
| NamePrefix.RunPrefix | src/namecoin.cpp:1166-1168 | Evaluating number, arguments and drops of a name prefix leaves the machine as it was, but for as many counted instructions as there are drops. |
| NamePrefix.RunShift | src/script.cpp:94-101 | Starting with k instructions already counted changes a run only by the count, and only when the limit of 201 is reached: accepted if and only if the original run is and has k to spare. |
| NamePrefix.PrefixTransparent | src/script.cpp:72-128 | A script with a name prefix is accepted if and only if the rest is, within that many fewer counted instructions, and leaves the same stacks; signatures in the rest sign the whole script. |
| NamePrefix.OperationIsLastWritten | src/namecoin.cpp:1893-1918 | Concrete inputs for which the operation reported by the output scan is not that of the name output: a later output that merely starts with a small number overwrites it. |
| Counterexamples.MisreadAccepted | src/namecoin.cpp:2282-2308 | With a name of twenty bytes such a transaction is accepted under the strict checks as if it were a name_new: its output looks live and nothing is recorded. |
| ChainDb.CheckTransactionAtRelativeDepth | src/namecoin.cpp:2121-2127 | The walk back over the branch returns the depth of the block holding the position, or -1 within the given maximum. |
| ChainDb.GetValueOut | src/main.h:613-624 | The loop succeeds exactly when every output and the total are in the money range, and then returns the total. |
| ChainDb.GetNameNetFee | src/namecoin.cpp:1947-1961 | The loop adds up exactly the outputs whose script is a lone OP_RETURN. |
| ChainDb.FindNameOutput | src/namecoin.cpp:2240-2256 | True exactly when some output script decodes as a name script. |
| ChainDb.CheckFirstUpdate | src/namecoin.cpp:2309-2351 | The name_firstupdate tests in source order decide as the specification does: refused, tolerated without an entry, or recorded. |
| ChainDb.CheckUpdate | src/namecoin.cpp:2376-2443 | The same for name_update, with the test of the last recorded position. |
| ChainDb.CheckNames | src/namecoin.cpp:2196-2460 | The whole decision of the hook: refuse, accept, or accept and record an entry for which name. |
| NameDecisions.FirstUpdateExact | src/namecoin.cpp:2309-2351 | With one name output and one spent name output, a name_firstupdate is accepted in a block exactly when it carries a cent (from block 212500 on), pays the network fee, has a name of at most 255, a random value of at most 20 and a value of at most 1023 bytes, claims a name that is not taken, and spends a name_new at least twelve blocks deep, which from block 150000 on commits to hash160(rand + name); it is recorded exactly when the commitment is that hash. |
| NameDecisions.UpdateExact | src/namecoin.cpp:2376-2443 | Likewise a name_update is accepted exactly when it carries a cent (from block 212500 on), keeps to the sizes and spends a registration still within its expiration depth, from block 150000 on the last one of the same name; it is recorded exactly when it spends that one. |
| NameDecisions.NewExact | src/namecoin.cpp:2298-2308 | A name_new is accepted exactly when it commits with 20 bytes and spends no name output, and is never recorded. |
| NameDecisions.OrdinaryExact | src/namecoin.cpp:2230-2262 | Any other transaction is accepted exactly when it spends no name output, and has none either from block 212500 (on the test network 108000) on. |
| Registrations.HonestClaim | src/namecoin.cpp:2309-2351 | Past the fork, whoever opens a 20-byte commitment to hash160(rand + name) at least twelve blocks deep, on a name that is new or expired, with the fee paid, gets the next entry of its history, with this position, height and value. |
| Registrations.HonestUpdate | src/namecoin.cpp:2376-2443 | Whoever spends the last registration of a name within its 36000 blocks gets the next entry. |
| NetworkFees.NetworkFeeExact | src/namecoin.cpp:195-208 | The fee: 50 coins (a tenth of a coin on the test network) halved every 8192 blocks, linear in between and never below half of the start of the period, four times as fast from block 24000 on, gone after 60 periods. |
| NetworkFees.NetFeeAdds | src/namecoin.cpp:1947-1961 | What a transaction burns adds up over its outputs, and is the value of those whose script is the single byte 0x6a. |
| ChainDb.HookConnectInputs | src/namecoin.cpp:2179-2460 | The name database gains exactly the entry decided on, everything else stays. |
| ChainDb.SpendInputInPlace | src/main.cpp:1097-1222 | One input, read from and written back to the database in place, does what the value-level step does, on success and on every refusal. |
| ChainDb.SpendInputsInPlace | src/main.cpp:1093-1222 | The input loop: spent bits, running value and what the hook needs, also when several inputs spend from one parent. |
| ChainDb.ConnectInputs | src/main.cpp:1087-1260 | Connecting a transaction in place equals the function on both indexes, fees included. |
| InputRules.InputExact | src/main.cpp:1097-1222 | Over the log of the branch, an input is accepted exactly when it names an output of the logged transaction, unspent on the branch and by earlier inputs, worth 0 to 21 million coins like the total so far, with a signature that holds unless the best height is below 193000, and, if that is a coinbase, at least 100 blocks deep. |
| InputRules.ConnectTxExact | src/main.cpp:1087-1260 | A transaction other than a coinbase connects exactly when all its inputs have such sources, they pay for its outputs, and the name hook lets it through; the fee is the difference. |
| InputRules.BuiltFunded | src/main.cpp:1097-1222 | On every accepted branch each transaction is funded by those before it: every input spends an output of an earlier transaction that none between them has spent. |
| InputRules.RewardsMature | src/main.cpp:1198-1202 | On every accepted branch, a transaction at height h that spends an output of a coinbase at height k has h - k >= 100. |
| ChainDb.HookDisconnectInputs | src/namecoin.cpp:2475-2513 | The hook pops the back entry exactly when it is this transaction's, and writes nothing else. |
| ChainDb.DisconnectInputs | src/main.cpp:975-1010 | Disconnecting a transaction in place equals the function on both indexes. |
| ChainDb.ConnectTransactions | src/main.cpp:1335-1358 | The loop of ConnectBlock, with its running file offset and fees, equals the function on both indexes, and touches nothing else in the databases. |
| ChainDb.DisconnectTransactions | src/main.cpp:1311-1320 | The same for DisconnectBlock, last transaction first. |
| Undo.SpendInputsEffect | src/main.cpp:1097-1222 | Connecting marks exactly the spent outputs, which existed, were unspent and are pairwise distinct. |
| Undo.UnspendExact | src/main.cpp:985-1003 | Disconnecting can release the inputs exactly when all are spent and no two are the same; then exactly these become unspent. |
| Undo.UndoTx | src/main.cpp:975-1010 | Disconnecting the transaction connected last restores both indexes, up to empty name entries. |
| Undo.UndoBlock | src/main.cpp:1311-1373 | DisconnectBlock undoes ConnectBlock if and only if the transaction ids of the block were new and each transaction decodes at its height with its name, if any, present. |
| Undo.UndoBlockPastFork | src/namecoin.cpp:2475-2513 | Past the libcoin fork the second condition always holds: undoing succeeds and restores the databases. |
| Undo.PastForkRecords | src/namecoin.cpp:2402-2460 | Past the fork the hook records a transaction exactly when its undo will look for it. |
| Counterexamples.ToleratedNotUndone | src/namecoin.cpp:2331-2341 | Before the fork a name_firstupdate that does not open its name_new is accepted, not recorded, and cannot be undone: an input for which the second condition of UndoBlock fails. |
| Switch.PlayContinues | src/main.cpp:1405-1440 | A run of connections and disconnections can be continued from where an earlier run stopped. |
| ChainRun.RunIsStraight | src/main.cpp:1377-1447 | After any successful run of connections and disconnections over fresh blocks, both indexes equal those from connecting only the blocks from genesis to tip on empty databases, each as the run last connected it. (That environments and best heights make no difference is TxLog.BranchDeterminesIndex and NameValues.StraightDeterminesNames.) |
| ChainRun.DetachStraight | src/main.cpp:1311-1333 | One disconnection step of that invariant: it removes precisely the last connection of the straight construction. |
| TxLog.OffsetsIncrease | src/main.cpp:1342-1351 | The offsets that ConnectBlock records within a block strictly increase. |
| TxLog.BuiltIndex | src/main.cpp:1247-1252 | The transaction index is a closed form of the branch: which ids, at which recorded position, with which bits set. |
| TxLog.RunIndex | src/main.cpp:1377-1447 | The closed form holds after every run, reorganizations included. |
| TxLog.BranchDeterminesIndex | src/main.cpp:1377-1447 | Two runs over fresh blocks that reach the same branch by different detours have the same transaction index. |
| NameValues.StraightDeterminesNames | src/namecoin.cpp:2426-2460 | Two straight constructions of one branch, in different environments over the same files and at different best heights, have equal transaction indexes and record the same names at the same positions and heights; the same values exactly when the rules of their best heights read the same values. |
| NameValues.BranchDeterminesNames | src/main.cpp:1377-1447 | The same for any two runs that reach one branch, coinbases unrestricted; values are always the same when both runs only had best heights past the fork. |
| ChainDb.CheckNameBugWorkaround | src/namecoin.cpp:1649-1715 | The loop over inputs with its shared argument vector accepts, and reports a previous position, as the specification does. |
| Rescan.PrevOutputsExact | src/namecoin.cpp:1655-1672 | The outputs looked at are those of the inputs that can be read, in the order of the inputs. |
| NameReadings.WorkaroundExact | src/namecoin.cpp:1649-1715 | It accepts, with a given previous position, exactly when the output spent there is the only one that decodes with the arguments left behind, and carries the commitment opened or the name updated. |
| ChainDb.RescanTransaction | src/namecoin.cpp:1743-1792 | One transaction of the rescan: which name, if any, gets which new history. |
| ChainDb.RescanBlock | src/namecoin.cpp:1730-1797 | One block of the rescan, with its own running offset. |
| ChainDb.ReconstructNameIndex | src/namecoin.cpp:1726-1800 | The rescan of a chain, one database transaction per block, leaves the reconstruction from the log of that chain. |
| Rescan.BuiltNames | src/namecoin.cpp:1726-1800 | On every accepted branch, pre-fork tolerated transactions included, the rescan with the coinbases left out finds the positions and heights that the hook wrote step by step: the name index is a function of the branch. |
| Rescan.RescanMatches | src/namecoin.cpp:1726-1800 | So does the whole rescan, if no coinbase past the fork registers a name. |
| Rescan.RescanExact | src/namecoin.cpp:1726-1800 | Rescan and hook agree on positions and heights if and only if no coinbase past the fork registers a name (coinbases skip the hook but not the rescan). |
| Counterexamples.CoinbaseRegisters | src/main.cpp:1092-1094 | A block past the fork, accepted by ConnectBlock, whose coinbase registers a name: the hook records nothing and the rescan would. |
| Rescan.RunNames | src/namecoin.cpp:2426-2460 | The same after every run: the incremental name index is the rescan of the branch reached, if and only if that condition holds. |
| NameValues.BuiltWritten | src/namecoin.cpp:2448-2458 | Every entry of the name index is that of a transaction of the branch, with the value read by the rule of the best height at its connection. |
| NameValues.RescanValuesExact | src/namecoin.cpp:1726-1800 | The rescan rebuilds the index with all its values if and only if, besides, every recorded transaction has the same value by the rule of the best height at its connection as by the rule of its own height. |
| NameValues.RunValues | src/namecoin.cpp:1726-1800 | The same after every run. |
| NameReadings.OldScanExact | src/namecoin.cpp:1920-1943 | Under the old rule: nothing found means no script decodes with the arguments left behind before it; found once means exactly the reported one does; multiple means two do. |
| NameReadings.SameOutput | src/namecoin.cpp:1891-1943 | Both rules find one output, and the same one, exactly when some script is the only one that decodes by either rule. |
| NameReadings.OtherwiseElsewhere | src/namecoin.cpp:1891-1943 | Otherwise a registration by the new rule is missed by the old one or found at another output, because an earlier output leaves partial arguments or another one decodes with them. |
| NameReadings.OnlyStraddlersMatter | src/namecoin.cpp:2448-2458 | The condition on values concerns only recorded transactions connected while the best block was across the fork, and among them only those that the two rules do not read at one output. |
| NameReadings.InOrderStraddles | src/namecoin.cpp:2448-2458 | When blocks are connected on top of the best chain, only the first block past the fork straddles it. |
| Counterexamples.StoredValueLost | src/namecoin.cpp:2448-2458 | In that block the hook stores no value for a transaction whose first output leaves a partial argument, where the rescan reads one. |
| Owner.ExpiryTestsComplementary | src/namecoin.cpp:2343-2401 | The expiry test of name_update (a walk over blocks) and that of name_firstupdate (a stored height) are exact complements. |
| Owner.DepthExact | src/namecoin.cpp:2121-2127 | The walk over the last maxDepth blocks of an accepted branch finds a logged transaction exactly when it is less than maxDepth blocks deep. |
| Owner.ExpiredForever | src/namecoin.cpp:180-186 | Once a name has expired it stays expired: height minus expiration depth never decreases. |
| Owner.LiveOwnersExact | src/namecoin.cpp:2298-2460 | After every transaction of an accepted branch, every live output of a name (unspent, unexpired, of a name transaction past the libcoin fork, or of any transaction under the strict checks) belongs to the back of its history, if and only if each such transaction is read as what it records. |
| Owner.OneLiveOwner | src/namecoin.cpp:2298-2460 | Then two live outputs of one name are the same output, and it is the one at the back of the history. |
| Supply.SupplyBound | src/main.cpp:823-831 | The subsidies of all heights up to any height add up to less than MAX_MONEY. |
| Supply.ShiftExact | src/main.cpp:828 | The shift of the subsidy divides by a power of two, rounding down. |
| Supply.ConnectBlockExact | src/main.cpp:1335-1360 | A block connects exactly when the tests outside the model pass, its first transaction and no other is a coinbase, ids differ, transactions have inputs and outputs with amounts from 0 to 21 million coins and no null inputs behind the coinbase, all connect in order, and its coinbase claims, on top of their fees, at most 50 coins halved once per 210000 blocks. |
| Supply.TxConserves | src/main.cpp:1208-1252 | A connected transaction changes the unspent total by minus its fee; a coinbase by its value. |
| Supply.Conservation | src/main.cpp:1335-1358 | On every accepted branch the unspent outputs are worth at most the subsidies of its blocks, hence less than MAX_MONEY. |
| TxDb.DbEnv.Begin | src/db.h:239-256 | A nested transaction starts from what the innermost one sees. |
| TxDb.DbEnv.Commit | src/db.h:258-271 | Committing replaces the parent view by the innermost one. |
| TxDb.CDB.TxnBegin | src/db.h:239-256 | A handle starts a transaction of its own or joins the given one, and remembers which. |
| TxDb.CDB.TxnCommit | src/db.h:258-271 | Only an owned transaction is committed in the environment; without one the call fails and changes nothing. |
| TxDb.CDB.TxnAbort | src/db.h:273-286 | The same for aborting. |
| TxDb.DatabaseSet.TxnBegin | src/db.h:456-465 | Both databases enter one shared transaction. |
| TxDb.DatabaseSet.TxnCommit | src/db.h:475-481 | Both databases publish their innermost transaction at once, exactly when one is open. |
| TxDb.DatabaseSet.TxnAbort | src/db.h:467-473 | Both databases forget it at once; a second abort with nothing open changes nothing. |
| BlockTree.FindFork | src/main.cpp:1382-1394 | The fork walk never runs off the tree and ends at the last common block of the two branches. |
| BlockTree.SharedAreLeading | src/main.cpp:1382-1394 | Two branches share exactly their leading blocks: a common block stands at the same height on both. |
| BlockTree.NowhereHarderNoMoreWork | src/main.h:1284-1291 | A branch that is no longer than another, and whose targets above the fork are nowhere lower, has no more work. |
| BlockTree.EasierSiblingLessWork | src/main.h:1284-1291 | Of two blocks on one parent, the one with half the target of the other has strictly more work. |
| NodeState.DisconnectBlockInPlace | src/main.cpp:1311-1333 | One disconnection takes the indexes and the block records to those of the parent's branch. |
| NodeState.ConnectBlockInPlace | src/main.cpp:1335-1373 | One connection takes them to those of the longer branch, or is refused as the function says. |
| NodeState.MoveDatabases | src/main.cpp:1404-1447 | The two loops of Reorganize with abort and commit: success exactly when every step of the switch is accepted, and then the committed data is the outcome of the switch; otherwise the committed data is untouched. |
| NodeState.SwitchSteps | src/main.cpp:1404-1447 | The steps of a switch: the blocks above the fork go, those of the other branch come in order, all while the best height is that of the old branch. |
| NodeState.Relink | src/main.cpp:1449-1457 | The two relinking loops leave pnext set exactly along the new branch. |
| NodeState.Node.Reorganize | src/main.cpp:1377-1468 | All of Reorganize: databases and links move together or not at all. |
| NodeState.Node.InvalidChainFound | src/main.cpp:949-963 | Only the record of the most invalid work changes. |
| NodeState.Node.SwitchBest | src/main.cpp:1484-1530 | For a node with a main chain, with the database transaction open: success exactly when the whole run to the other branch succeeds, and then everything is that of the new branch; otherwise only the record of invalid work changes. |
| NodeState.Node.SetBestChain | src/main.cpp:1471-1537 | Succeeds exactly when every disconnection and connection on the way does, and then best block, links, disk records and indexes are those of the new branch; on failure both databases (but for the invalid-work record), all links and the best block are as before. |
| NodeState.Node.AddToBlockIndex | src/main.cpp:1539-1582 | A duplicate changes nothing; a new block joins the tree in memory and on disk. With more work than the best block it becomes the best block exactly when the run of disconnections and connections from the best chain to its branch succeeds, and the indexes are then the outcome of that run; otherwise best chain and indexes stay. A branch that is no longer than the best one and whose targets above the fork are nowhere lower never replaces it. |
| NodeState.Node.AcceptBlock | src/main.cpp:1775-1814 | A known block, a block with an unknown parent and one that fails the tests against its parent are refused and change nothing; any other joins the tree below its parent, and takes over the best chain under exactly the same conditions. |
| NodeState.Node.MainChainIsBestPath | src/main.h:1293-1296 | IsInMainChain holds exactly for the blocks on the path from genesis to the best block. |
| NodeState.Node.DatabasesFollowBestChain | src/main.cpp:1471-1537 | In every state that the node reaches by connecting fresh blocks (new transaction ids, places of their own), the databases are those of connecting the best chain alone. |
| NodeState.RecordsGrow | src/main.cpp:1360-1368 | Writing one hashNext is enough to keep all disk records equal to the links in memory when a block is added. |
| NodeState.RecordsShrink | src/main.cpp:1322-1331 | The same when the last block is taken off. |
| LoadIndex.InsertBlockIndex | src/db.cpp:535-556 | Finds or creates the one object for a hash; hash zero is no object. |
| LoadIndex.LoadRecords | src/db.cpp:558-613 | In whatever order the records come, every object ends with the fields and pointers of its record, and no object is left over. |
| LoadIndex.ComputeWork | src/db.cpp:616-628 | Going up by height gives every block the work of its whole branch, which Compact.WorkExact spells out. |
| LoadIndex.LoadBlockIndex | src/db.cpp:558-641 | Loading the records of a node rebuilds its tree: the same parents, links, heights and work, and the same best block. |
| LoadIndex.Restart | src/db.cpp:558-641 | A valid node that is stopped and loaded finds the pointers and work it had in memory. |
| Merkle.BuildMerkleTree | src/main.h:1071-1088 | The flat array is the levels of the recursive tree one after the other, and the result is its root (zero for no leaves). |
| Merkle.RootOfHalves | src/main.h:1071-1088 | The root over 2^(k+1) leaves is the hash of the roots of the two halves, the left one first. |
| Merkle.ThreeLeaves | src/main.h:1071-1088 | An odd row is padded with its last entry: three leaves give H(H(x, y), H(z, z)). |
| Merkle.GetMerkleBranch | src/main.h:1090-1104 | Index arithmetic on the flat array yields the siblings along the recursive tree. |
| Merkle.CheckMerkleBranch | src/main.h:1106-1119 | The loop hashes upwards along the index bits; index -1 gives zero. |
| Merkle.BranchVerifies | src/main.h:1090-1119 | For every number of leaves and every index the extracted branch leads from the leaf to the root. |
| Merkle.BranchLength | src/main.h:1090-1104 | The branch has as many hashes as the binary logarithm of the number of leaves, rounded up. |
| Merkle.BranchBinds | src/main.h:1106-1119 | Conversely, a branch of that length that leads to the root starts at the leaf and is the extracted one, if no two pairs hashed in the tree and along the branch collide. |
| Merkle.RootCommits | src/main.h:1071-1088 | Two non-empty lists without duplicates, possibly of different lengths, have the same root if and only if they are equal, if no two pairs hashed in the two trees collide and none hashes to a leaf. |
| Merkle.BlocksWithOneRoot | src/main.cpp:1756-1772 | Two blocks that pass the test for duplicate ids have one merkle root exactly when they have the same transaction ids in the same order, under the same hypothesis on the pairs hashed. |
| Merkle.DuplicatesCollide | src/main.cpp:1756-1765 | Without that test this fails for every hash: repeating the last of three leaves keeps the root. |
| AuxPow.Check | src/auxpow.cpp:32-102 | Accepts exactly the work the specification accepts, with the 32-bit arithmetic of the slot. |
| AuxPow.AcceptedExact | src/auxpow.cpp:21-102 | With the root over the chains, most significant byte first, at its first occurrence in the coinbase script: work is accepted exactly when the coinbase is the first transaction under the parent root, the parent is of another chain (on the main network), the block is at most 30 levels below the root, the root stands right behind the only header or within the first 20 bytes without one, and behind it stand the number of slots and the nonce that gives this chain its slot. |
| AuxPow.UnannouncedRefused | src/auxpow.cpp:43-62 | Work whose coinbase script does not contain the root is refused. |
| AuxPow.SlotExact | src/auxpow.cpp:84-99 | The slot among 2^d without the wrapping of the intermediate results: two rounds of the generator, modulo 2^d. |
| AuxPow.SlotsCollide | src/auxpow.cpp:84-99 | Two chains fall into one slot exactly when their numbers agree in their last d bits, whatever the nonce. |
| AuxPow.SamePositionSameBlock | src/auxpow.cpp:43-99 | Accepted work in one parent coinbase, for one chain ID and with roots at one position, is for one block, if no two pairs hashed along the two chain branches collide. |
| AuxPow.HeaderServesOneBlock | src/auxpow.cpp:63-71 | With the merged-mining header in the coinbase, at most one block of a chain is served, under the same hypothesis. |
| AuxPow.WorkUsedOnce | src/auxpow.cpp:32-102 | The blocks of one chain that one parent coinbase serves, each by its work, number at most one with the header, and at most 21 without, if no two pairs hashed along the branches of these works collide. |
| AuxPow.HeaderWorkExists | src/auxpow.cpp:32-102 | A bounded hash and accepted work with the header, in a tree of two chains, that meet these hypotheses. |
| AuxPow.HeaderlessServesTwo | src/auxpow.cpp:64-72 | Without the header one coinbase does serve two blocks of a chain, whatever the hash: the tests of the header are needed. |
| AuxPow.HonestWorkAccepted | src/auxpow.cpp:32-102 | Branches extracted from the two trees, the chain in its slot and a unique announcement are always accepted. |
| AuxPow.CoinbaseAnnounces | src/auxpow.cpp:104-111 | The coinbase script built for a miner holds the announcement at a known position. |
| Compact.VchRoundTrip | src/bignum.h:227-252 | Every integer survives getvch and setvch. |
| ScriptMachine.TruthIsNonzero | src/script.cpp:24-45 | A vector counts as true exactly when the number it stands for is not zero; negative zero is false. |
| Multisig.MatchSignatures | src/script.cpp:809-832 | The loop decides as the greedy recursion does, with the counted number of signature checks. |
| Multisig.GreedyExact | src/script.cpp:809-832 | The loop succeeds if and only if some order-preserving injection from signatures to keys verifies every pair. |
| Conditionals.ParseKeepsCode | src/script.cpp:161-194 | The tree read from a script consists of exactly its instructions in order. |
| Conditionals.FlatIsNested | src/script.cpp:89-123 | The loop with its flat vector of conditions gives, for every script and machine, the result of the recursive interpreter (each ELSE toggles); unbalanced scripts fail. |
| Conditionals.SkippedLeavesStacks | src/script.cpp:89-128 | Code that is not executed leaves both stacks, the signed code and the signature checks alone. |
| EvalScript.RunBytesIsRun | src/script.cpp:87-101 | Reading instructions as the loop goes equals reading the whole script first. |
| EvalScript.EvaluateIsNested | src/script.cpp:72-864 | Evaluation is the recursive interpretation of a script that is short enough, can be read and is balanced. |
| EvalScript.CheckMultisigInPlace | src/script.cpp:771-845 | The instruction equals its specification, and its signature checks stay within the instructions it counts, also when it fails. |
| MultisigSpending.MultisigInstructions | src/script.cpp:771-845 | On a stack base + [dummy] + sigs + [m] + keys + [n] within the limits, CHECKMULTISIG leaves base + [b], where b holds exactly when an order-preserving injection of sigs into keys verifies every pair over the code without the pushes of those signatures; CHECKMULTISIGVERIFY leaves base exactly then. |
| MultisigSpending.MultisigRefuses | src/script.cpp:775-801 | Too few elements, or a number of keys or signatures out of range, fail. |
| EvalScript.ExecuteInPlace | src/script.cpp:126-851 | An executed instruction equals its specification and keeps the checks within the count. |
| Instructions.StackInstructions | src/script.cpp:238-417 | What each instruction that moves elements leaves on top of any stack; opcodes and stacks are written out. |
| Instructions.StackTooLow | src/script.cpp:196-417 | On a stack with fewer elements than an instruction takes, it fails. |
| Instructions.TestInstructions | src/script.cpp:196-334 | IFDUP, DEPTH, VERIFY, SIZE, EQUAL and EQUALVERIFY. |
| Instructions.PushInstructions | src/script.cpp:123-153 | Every opcode up to 78 pushes its data, 79 pushes minus one and 81 to 96 push 1 to 16. |
| Instructions.PickAndRoll | src/script.cpp:366-382 | PICK copies and ROLL moves the element n below the top; an n out of range fails. |
| Instructions.UnaryInstructions | src/script.cpp:560-587 | Instructions on one number of at most four bytes. |
| Instructions.BinaryInstructions | src/script.cpp:589-683 | Instructions on two such numbers, operands in order. |
| Instructions.Within | src/script.cpp:685-701 | WITHIN takes a number, the lowest, and the first too high. |
| Instructions.LongOperands | src/script.cpp:47-52 | An operand of more than four bytes is refused. |
| Instructions.HashInstructions | src/script.cpp:705-737 | Each hash instruction puts its own hash in the place of the top element. |
| Instructions.CheckSigInstructions | src/script.cpp:739-769 | CHECKSIG checks the lower of the two elements against the upper one, over the code behind the last CODESEPARATOR without the pushes of that signature; CHECKSIGVERIFY goes on exactly if it holds. |
| Instructions.ConditionInstructions | src/script.cpp:161-194 | IF, NOTIF, ELSE and ENDIF on the stack of conditions, and what is not executed. |
| Instructions.DisabledFail | src/script.cpp:99-121 | The disabled instructions, pushes of more than 520 bytes and a 202nd counted instruction fail wherever they stand. |
| EvalScript.StepInPlace | src/script.cpp:87-855 | One round of the loop: limits, disabled instructions, conditionals, execution, stack limit. |
| EvalScript.EvalScript | src/script.cpp:72-864 | The loop computes the evaluation, and whatever the script it makes at most 201 signature checks. |
| EvalScript.VerifyScript | src/script.cpp:1234-1244 | The two loops accept exactly when the recursive interpreter runs both scripts, the second on the stack the first leaves, and ends with a number other than zero on top; together they make at most 402 signature checks. |
| Spending.AddressSpent | src/script.cpp:1234-1244 | Whatever the signature script does: an output that pays to an address is spent exactly when it leaves, within the stack limit, a key of that hash and a signature of the key over the script on top of the stack. |
| MultisigSpending.MultisigSpent | src/script.cpp:1234-1244 | The counterpart for outputs with the script "m keys n CHECKMULTISIG": spent exactly when the signature script, whatever it does, leaves an extra element and on it m signatures by keys of the list, in the order of the list. |
| Spending.NameOutputSpent | src/namecoin.cpp:1166-1168 | A name output is spent by exactly the same test, with the signature over the whole script, name prefix included, and room for the prefix on the stack. |
| Spending.SpendSupplies | src/script.cpp:1234-1244 | The usual signature script, two pushes, supplies exactly the signature and key it names. |
| NameSigning.VerifySignature | src/script.cpp:1284-1304 | The checks of VerifySignature around VerifyScript. |
| NameSigning.NameInputExact | src/main.cpp:1191-1222 | With that method as the check of the chain logic, past the lock-in height an input spends a name output exactly when everything but the signature allows it and its signature script supplies a fitting signature and key. |
| NameSigning.UnexpiredNeedsKey | src/namecoin.cpp:2376-2443 | Past the fork, as long as a name has not expired, no transaction is recorded for it without a signature of the key to which its last output pays. |
| Succession.RecordedMayFollow | src/namecoin.cpp:2309-2443 | A transaction recorded past the fork for a name either updates its last entry, which has not expired, by spending a name output of that transaction on the same name, or is a name_firstupdate of a new or expired name that pays the fee and spends an output at least twelve blocks deep whose commitment is hash160(rand + name); past the lock-in height the signature for the spent output holds. |
| Succession.BuiltSuccession | src/namecoin.cpp:2179-2460 | On every accepted branch this holds of each entry past the fork in the history of any name, with respect to the entries before it and the branch at its height. |
| Succession.ChangedByItsKey | src/namecoin.cpp:2376-2443 | On every accepted branch, whoever follows an unexpired entry past the fork and the lock-in height has signed with the key to which the name output of that entry pays. |
| Succession.RunSuccession | src/main.cpp:1376-1460 | After every regular run, reorganizations included, the histories have that form. |
| SignedCode.FindAndDeleteInPlace | src/script.h:580-593 | The erasing loop computes the deletion function. |
| SignedCode.SignatureErased | src/script.cpp:750-754 | After erasing a signature no instruction of the signed code pushes it, and erasing it again changes nothing. |
| Compact.MpiRoundTrip | src/bignum.h:227-252 | Every integer is read back from its MPI bytes, sign included. |
| Compact.CompactLoss | src/bignum.h:254-277 | A non-negative target passed through the compact form does not grow and loses less than one part in 2^15. |
| Compact.CompactIdempotent | src/bignum.h:254-277 | Passing through it again changes neither the target nor the compact form. |
| Compact.RetargetBounds | src/main.cpp:880-903 | A retarget yields at most four times the old target and at least a quarter of it (up to that rounding), never above the limit, unless the limit itself caps it. |
| Compact.ScaledExact | src/main.cpp:880-894 | Before it is made compact, the new target is the old one times the time the period took over 1209600 seconds, rounded down, when that time is between 302400 and 4838400; a quarter or four times the old one outside; never more than the limit. |
| Compact.ScaledMonotone | src/main.cpp:880-894 | A longer period never gives a lower target. |
| Compact.RetargetExact | src/main.cpp:880-903 | The same for the target that the resulting bits stand for, up to a loss of one part in 2^15. |
| Compact.WorkExact | src/main.h:1284-1291 | The work w of a block with target t > 0 is the quotient: w * (t + 1) <= 2^256 < (w + 1) * (t + 1); without a target it is 0. |
| Compact.LowerTargetMoreWork | src/main.h:1284-1291 | A lower target is never less work. |
| Compact.HalfTargetTwiceWork | src/main.h:1284-1291 | Half the target is at least twice the work. |
| Compact.StrictlyMoreWork | src/main.h:1284-1291 | Targets far enough apart for one unit of work order the work strictly. |
| NextWork.GetNextWorkRequired | src/main.cpp:833-903 | The method with its walks back over the branch returns the bits of the rule, with the unsigned 32-bit difference of block times on the test network. |
| NextWork.EarlierBlockIsEasy | src/main.cpp:844-867 | On the test network a block between retargets is allowed the minimum difficulty exactly when it comes more than twenty minutes after its parent, or before it, since the difference wraps around. |
| NextWork.TargetsInRange | src/main.cpp:1785-1791 | Above a given genesis block with a target in range, no block of a chain whose blocks have the bits demanded of them has a target above the limit, on either network. |
| NextWork.MainNetworkSteps | src/main.cpp:844-903 | On the main network, above a given genesis block in range, bits change only at the end of a period, and every step stays within a factor of four. |
| NextWork.PeriodEnd | src/main.cpp:869-903 | At the end of a period of 2016 blocks, with the two block times written out: the next target is the last one times the time since the block 2015 (from fullRetargetStart on 2016) blocks before, over two weeks, within a factor of four, never above the limit, and rounded to a compact form. |
| NextWork.RuleContinues | src/main.cpp:1785-1791 | A chain that follows the rule can be continued at any time by a block with exactly the bits of the rule, and by no other. |
| NextWork.GenesisInRange | src/namecoin.cpp:2630-2637 | The genesis blocks of both networks are in range and start chains that follow the rule, though neither has the bits of the limit. |
| NextWork.NetworkLimits | src/main.cpp:36 | The limits are 2^224 - 1 and, on the test network, 2^228 - 1. |
| NextWork.NetworkPeriods | src/main.cpp:869-885 | Which two block times count at the end of a period on either network: 2015 blocks apart up to block 19200 of the main network and in the first period of the test network, 2016 otherwise. |
| Compact.CompactValue | src/bignum.h:254-264 | What a compact form stands for: its three mantissa bytes followed by zeros. |
| Serialize.CompactSizeInverse | src/serialize.h:171-242 | Sizes up to MAX_SIZE are read back, in as many bytes as GetSizeOfCompactSize says. |
| Serialize.CompactSizeLayout | src/serialize.h:171-242 | The bytes of a size: one below 253, otherwise the marker 253, 254 or 255 and the two, four or eight low bytes, least significant first. |
| Serialize.AnyWidthReads | src/serialize.h:211-242 | Behind each of the three markers any number of that width is read, also one that would fit into fewer bytes, up to 0x02000000; with fewer bytes left, none is. |
| Serialize.TooLarge | src/serialize.h:211-242 | A size above 0x02000000 is refused on reading. |
| Serialize.SignedLayout | src/serialize.h:110-141 | Signed integers are written in two's complement. |
| Serialize.VectorInverse | src/serialize.h:479-535 | If a reader undoes a writer for elements, it does so for vectors of them. |
| Serialize.BytesInverse | src/serialize.h:448-512 | Byte vectors are read back, in the announced number of bytes. |
| Serialize.BitsInverse | src/serialize.h:546-592 | Bit vectors are read back flag by flag, in the announced number of bytes. |
| Wire.TxInverse | src/main.h:497-504 | A transaction is read back from its bytes whatever follows, and GetSerializeSize is their number. |
| Wire.TxLayout | src/main.h:497-504 | The bytes of a transaction with one input and one output, field after field. |
| Wire.CoinbaseBytes | src/main.h:570-573 | A transaction read from a file is a coinbase exactly when it has one input, of 32 zero bytes and four bytes 255. |
| Wire.HeaderInverse | src/main.h:1019-1036 | A block header is read back with its merged-mining proof, and the proof of its parent header, to any nesting; the header-only size is the number of bytes before the transactions. |
| Wire.HeaderLayout | src/main.h:1019-1036 | The 80 bytes of a header field by field, and bit 8 of the version as the announcement of a proof. |
| Wire.ProofInverse | src/auxpow.h:27-37 | The fields of a merged-mining proof are read back. |
| Wire.ProofLayout | src/auxpow.h:27-37 | The order of the fields of a proof. |
| Wire.BlockInverse | src/main.h:1019-1036 | A whole block is read back. |
| Wire.PositionReadsBack | src/main.cpp:1342-1351 | Reading at the offset ConnectBlock recorded for the i-th transaction of a stored block gives exactly that transaction, with or without a proof. |
| BlockFiles.ChainOnFile | src/main.cpp:1342-1351 | When every block of a chain was written at its place, an environment that reads the files as bytes finds the transactions of the chain at their recorded positions: the hypothesis FilesExact of the chain logic. |
| BlockFiles.WorldFromFiles | src/main.cpp:1342-1351 | All hypotheses about files of the statements on name values (Holds, SitesAgree, OwnBlockOnFile) hold for environments that read, as bytes, the blocks written so far, the one being connected among them. |
| BlockFiles.RescanFromFiles | src/namecoin.cpp:1726-1800 | The exact agreement of rescan and hook, values included, for block files as bytes. |
| DataStreams.DataStream.Read | src/serialize.h:1047-1068 | Reading takes a prefix of what is unread; past the end it fails and takes nothing. |
| DataStreams.DataStream.Write | src/serialize.h:1090-1096 | Writing appends to what is unread. |
| DataStreams.DataStream.PutCompactSize | src/serialize.h:180-209 | Appends the compact size. |
| DataStreams.DataStream.GetCompactSize | src/serialize.h:212-242 | Reads a compact size, or fails when it is cut off or too large. |
| DataStreams.DataStream.GetBytes | src/serialize.h:494-512 | Reading in blocks of limited size gives the whole vector or fails. |
| DataStreams.DataStream.PutBits | src/serialize.h:563-580 | Setting bit after bit in zeroed bytes writes the bit vector. |
| DataStreams.DataStream.GetBits | src/serialize.h:583-600 | Reads a bit vector back, or fails. |
| DataStreams.DataStream.PutTx | src/main.h:497-504 | Writes a transaction field by field, with loops over inputs and outputs. |
| DataStreams.DataStream.GetTx | src/main.h:497-504 | Reads one, or fails, leaving the stream right behind it. |
| Base58.EncodeBase58 | src/base58.h:24-62 | Division loop, leading zeros and reversal give the spelling of the bytes. |
| Base58.AlphabetExact | src/base58.h:21 | The symbols are the 58 of the alphabet, in order. |
| Base58.EncodeMeans | src/base58.h:24-62 | The text is a symbol 1 per leading zero byte, then the digits of the big-endian number, most significant first and without leading zeros. |
| Base58.DecodeBase58 | src/base58.h:69-113 | Skipping blanks, multiplication loop, sign byte and leading zeros give the bytes of the text, or refusal. |
| Base58.DecodeUndoesEncode | src/base58.h:24-113 | Decoding the encoding of any byte vector gives it back, with all its leading zeros, also when it is all zeros or empty. |
| Base58.EncodeUndoesDecode | src/base58.h:69-113 | A text of nothing but symbols decodes, and is the encoding of what it decodes to. |
| Base58.BlanksIgnored | src/base58.h:69-99 | Blanks on both sides of a run of symbols, and whatever follows the end of the text, make no difference. |
| Base58.DecodedText | src/base58.h:69-99 | And no text of any other form decodes. |
| Base58.CheckedRoundTrip | src/base58.h:124-150 | The checked forms recover every payload. |
| Base58.CheckedTextIsCanonical | src/base58.h:133-150 | An accepted checked text of symbols is the encoding of its payload. |
| Locator.BlockLocator.Set | src/main.h:1514-1529 | The walk with doubling steps collects the hashes at the distances of the locator, then the genesis hash. |
| Locator.BackClosed | src/main.h:1514-1529 | The distances in closed form: 0 to 11, then nine more than the powers of two. |
| Locator.LocatorIsShort | src/main.h:1514-1529 | A locator grows with the logarithm of the branch. |
| Locator.BlockLocator.GetDistanceBack | src/main.h:1531-1550 | Retraces the distance of the first entry on the receiver's main chain. |
| Locator.BlockLocator.GetBlockIndex | src/main.h:1552-1566 | Returns the block of that entry, or the genesis block. |
| Locator.LocatorFindsFork | src/main.h:1514-1566 | When the main chain leaves a branch f blocks below its tip, the first entry of the locator on the main chain is a common block at most 2f back (or genesis), and exactly f back for f up to 11. |
| Sync.Meet | src/main.cpp:2687-2693 | Between two nodes of one genesis block: a locator set on any block of the sender makes the receiver return the block at that distance, a block of its main chain shared with the sender, and compute that distance, unless only the appended genesis block matched. |
| MinedBlock.ConnectTxSplits | src/main.cpp:1087-1260 | A transaction connects exactly when its currency part does and the name hook accepts it. |
| MinedBlock.InputsConnect | src/main.cpp:1107-1222 | The test-pool overlay refines the sequentially written index: inputs that connect to the one connect to the other, with the same value, one block later. |
| MinedBlock.AssembledConnects | src/main.cpp:3441-3523 | Whatever the order in which pool transactions were taken, the currency part of connecting them as a block succeeds with the same fees. |
| MinedBlock.MinedBlockConnects | src/main.cpp:3353-3526 | An assembled block with a coinbase of subsidy and fees has inputs from before or earlier in the block, spends nothing twice, and is accepted by ConnectBlock exactly when CheckBlock and the name hook accept it. |
| MinerFees.StartsSolvent | src/main.cpp:3374-3382 | On the best chain the unspent outputs that the test pool starts from are worth at most all subsidies so far, hence at most MAX_MONEY. |
| MinerFees.FeesNeverOverflow | src/main.cpp:1236-1244 | The fees of taken transactions come out of these outputs, so their total never leaves the money range: the last test of ConnectInputs never fails for a pool transaction. |
| Miner.CollectTransactions | src/main.cpp:3441-3523 | For any choice among the ready transactions: each is taken at most once and comes from the pool, the block stays below 500000 bytes and 20000 signature operations, the fees are in range, and the result is assembled; and every minable transaction whose dependencies are in the block is in it too, unless it was passed over when tried on a front of the block. |
| Miner.CreateNewBlock | src/main.cpp:3353-3526 | In front of these stands a coinbase that claims exactly the fees and 50 coins halved once per 210000 blocks, at the next height. |
| MinerTakes.TakenExact | src/main.cpp:3467-3500 | A pool transaction that spends from the chain is taken exactly when it is funded there with every signature checked and rewards 100 blocks deep, pays at least the minimum fee, and passes the name check. |
| MinerTakes.PoolInputExact | src/main.cpp:1107-1222 | An input that names a transaction taken before is accepted exactly when that has the output, no taken transaction nor an earlier input spends it, its signature holds, and the amounts stay between zero and 21 million coins. |
| MinerTakes.MinerFirstUpdateExact | src/namecoin.cpp:2309-2375 | The miner takes a name_firstupdate exactly when, at the current height, it would be recorded, its name_new has not expired, it carries a cent, and no transaction of the test pool is pending on the name. |
| MinerTakes.MinerUpdateExact | src/namecoin.cpp:2376-2423 | A name_update exactly when it carries a cent and spends the last registration of its name, not yet expired. |
| MinerTakes.MinerNewExact | src/namecoin.cpp:2298-2308 | A name_new exactly when it commits with 20 bytes, carries a cent and spends no name output. |
| MinerTakes.MinerOrdinaryExact | src/namecoin.cpp:2230-2262 | Any other transaction exactly when it has no name output and spends none. |
| MinedNames.NetworkFeeNeverIncreases | src/namecoin.cpp:195-208 | The fee of name_firstupdate never increases with the height. |
| MinedNames.MinedNameAccepted | src/namecoin.cpp:2298-2423 | Past the fork, what the hook accepts for mining it accepts one block later, with the history of the name unchanged, if and only if a name_update is not in its last unexpired block. |
| MinedNames.TakenNameAccepted | src/namecoin.cpp:2298-2423 | The same for the transaction as it stands in the assembled block, with the positions it has there. |
| MinedBlockNames.RivalRefused | src/namecoin.cpp:2343-2443 | Once a transaction of the block is recorded for a name, the hook refuses any other on it: the name is not expired, and an update cannot spend what the block itself added. |
| MinedBlockNames.MinedBlockAccepted | src/main.cpp:3353-3526 | Past the fork, for any pool: ConnectBlock accepts the assembled block if and only if CheckBlock does, every name it updates is still unexpired at its height, and no two of its transactions register one name. |
| MinedBlockNames.NoRivals | src/namecoin.cpp:2353-2401 | With complete pending names, and long enough past the fork, no two transactions of an assembled block register one name: a second name_firstupdate clashes with a pending name, an expired name cannot be updated, and two updates would spend one output. |
| MinedBlockNames.TrackedBlockAccepted | src/main.cpp:3353-3526 | Then the last of the three conditions holds of itself. |
| Counterexamples.RivalsMined | src/namecoin.cpp:2360-2372 | A pool that does not know a transaction as pending: the miner takes two name_firstupdates of one name, the block passes CheckBlock, and the hook refuses it at the second. |
| Counterexamples.LateUpdateRefused | src/namecoin.cpp:2398-2401 | A name_update that the miner takes in the last unexpired block of its name, and that is refused one block later. |

## Left out

- Berkeley DB and the block files: finite maps with a stack of transactions; the names of
  database keys, flushing and log files are not modelled.
- Memory pool acceptance, orphan transactions, wallet, key store, RPC and user interface,
  including the resurrection of transactions after a reorganization.
- Network messages, alerts, clocks, mining threads, checkpoints and stop conditions.
- Hash functions, elliptic curves and big-number internals.
- Cached previous transactions and signature results of inputs: verification is always done.
- SignatureHash, CheckSig, Solver and signing: the signature check is an oracle over signature,
  key and signed code, and the chain logic takes any check of inputs (`NameSigning` fills in
  VerifySignature).
- `FindBlockByHeight`, whose cached pointer a reorganization does not reset.
- The part of `LoadBlockIndex` that re-checks recent blocks and moves the tip back when one is bad.
- Free-transaction rate limits and floating-point priorities: the miner model takes any ready
  transaction next, and the fee required and the other reasons to pass one over are parameters.
- In `Restart` the objects of the loaded tree are of a class of their own (`LoadedIndex`), because
  a tree entry of a running node never changes its parent.
- DataStreams.DataStream.PutTx: headers, proofs and whole blocks are written and read by
  functions only; the stream methods cover sizes, vectors, bit vectors and transactions.
- Supply.SupplyBound: from height 13,440,000 on the program shifts by 64 bits or more, which C++
  leaves undefined; the model shifts mathematically.
- Merkle.GetMerkleBranch: a negative index, for which the program would read outside the array,
  is not modelled; nor is a cached tree that no longer fits the transactions.
- MultisigSpending.MultisigSpent: for outputs with at most 16 keys, whose number is one instruction;
  `MultisigInstructions` covers up to 20.
- MinedBlockNames.TrackedBlockAccepted: how the pool keeps its pending names is not modelled, only
  that they are complete; and the chain must be 36000 blocks past the libcoin fork, because an
  unexpired name of the old rules could have several name outputs.
- NodeState.Node.AddToBlockIndex: a block whose parent is not in the tree, which the program would
  insert as a second root, is not modelled; `AcceptBlock`, which refuses such blocks as
  src/main.cpp:1785-1787 does, is proved to call it within its precondition. The other tests of
  `AcceptBlock` against the parent (difficulty, time, finality, lock-in) are one parameter.
- NodeState.Node.DatabasesFollowBestChain: that attached blocks are fresh is asked of the trace; the
  node does not check it.
- Sync.Meet: sending the locator over the network; blocks with one hash in both trees are taken to
  have the same parent hash.
- NextWork.GetNextWorkRequired: block times and bits are values of a list instead of fields of the
  tree entries.
