# A verified model of qEVM's execution and state layers

qEVM executes Ethereum transactions. This project models four of its parts in Dafny and proves what they
are meant to guarantee:

1. **The interpreter** (`Params`, `Alu`, `Memory`, `Stack`, `PlainCode`, `Machine`, `Frames`, `Instructions`,
   `Interpreter`, `AccessTable`, `Exec`; its theorems are in `CallStack`, `GasBound`, `EndlessLoop`, `Balances`,
   `ReadOnly`, `Revert`, `ProgramCounter`, `FailedFrames`, `SstoreMetering`, `SstoreRuns`, `RefundAbort`, over the
   single steps of `Stepping` and `ShortRuns`; what one step on each byte of code answers, costs and leaves alone, said
   in words, bytes and getters and not by the functions that compute it, is in `WordMeaning`, `StackMeaning`,
   `PushMeaning`, `MemoryMeaning`, `WorldMeaning`, `CallMeaning`, `CreateMeaning`, `ReturnMeaning` and `EndMeaning`).
   Every opcode, every fork rule, nested calls and creations, gas, refunds, the access list, snapshots and rollbacks.
   It is written twice: as a step machine on values
   (`Interpreter.Step`, `Run`, `Execution`), which the theorems are about, and as the object the source
   has, `Exec.TxExecContext`, whose methods update its fields and whose main loop runs to the end of the
   transaction. Each method is proved to do to the object what the step machine does to the value.
   World state is the flat store of `tools/src/dummy.rs` with a list of logs.
2. **The versioned world state** (`MemState`, `StateTree`): revisions, deletions, snapshots, rollbacks and
   consolidation of `src/state.rs`, proved against flat stores run beside them; `WorldTrace` joins it to the
   interpreter.
3. **The block tree and the canonical index** (`Chain`, `CanonicalIndex`).
4. **The persistent world state** (`Merkle`): the account encoding and `commit`, over tries taken as maps
   reached by their roots.

Theorems about the interpreter hold in every state of every execution, that is for all transactions, worlds,
byte codes, forks and numbers of steps, unless the row says otherwise. Hashing, address derivation, block
hashes and precompiled contracts are arbitrary functions (`Machine.Env`), so nothing rests on what they return.

`dafny verify dfyconfig.toml` checks the whole project.

## Where the code and its documentation or specification differ

The model follows the code. These differences are stated as lemmas or built into the model:

- CALL and CALLCODE add the 2300 stipend when the value **is** zero (`src/core/exec.rs:1250-1252`, `1440-1442`).
  Such a call changes the gas in the frames by the stipend less its fees (`GasBound.ZeroValueCallGas`), so the gas
  bound counts zero-value calls, and the termination theorem excludes them: with them a transaction can run for
  ever (`EndlessLoop.LoopingTxNeverEnds`).
- `sign_extend` keeps the high bytes of its operand when the sign bit is clear (`src/core/alu.rs:144-157`).
  `Alu.SignExtendMeaning` gives the exact inputs on which it still is the sign extension.
- The refund counter is not rolled back with the storage it accounts for. `SstoreMetering.RefundPanicsExactly` and
  `SstoreRuns.StepBelowZeroExactly` say exactly when `sub_refund` goes below zero, which aborts. An execution without
  rollbacks and without creations over stored slots never gets there (`SstoreRuns.ExecutionMetering`); one with a
  rollback can (`RefundAbort.RefillingTxAborts`).
- When a frame fails inside an instruction, the main loop advances the frame that resumes by the size of the failing
  instruction, so after a failing nested call it repeats its own call (`FailedFrames.CallerResumesAt`), and after a
  failing PUSH it can resume inside the data of another (`FailedFrames.MisplacingTxLosesPlace`). Nothing else moves a
  program counter off an instruction (`ProgramCounter.CountersStayOnInstructions`).
- A call at the depth limit, or one whose caller cannot pay the value, fails the calling frame instead of pushing zero
  (`src/core/exec.rs:1155-1226`, `1416-1491`). The memory that grows for the data a call returns is never paid for
  (`src/core/exec.rs:1269-1293`). The intrinsic charge is subtracted from the gas without a check, so that in a
  release build a transaction with less than 21000 gas runs with nearly 2^64 (`src/core/exec.rs:2004-2005`), and
  the bound of `GasBound.TransactionGas` is then that number.
- Getters consult the deletions of the newest revision only, so a deletion is forgotten once another revision is
  put on top (`StateTree.ForkAgreesExactly`, `StateTree.DeletionForgotten`), a setter does not bring a deleted account
  back (`StateTree.SetterAgreesExactly`), and `create_account` does not clear storage held by older revisions
  (`StateTree.CreateAgreesExactly`). `MerkleDB::commit` ignores deletions (`MerkleStore.DeletionsIgnored`).
- The accounts that SELFDESTRUCT marked are not unmarked when the frame it ran in is rolled back, so they are deleted
  all the same when the transaction succeeds (`EndMeaning.DestroyedIsGone`).
- A nested creation whose frame fails pushes the address of the contract all the same, and takes all gas its creator
  has left unless it reverted (`ReturnMeaning.FinishesCreation`, `ReturnMeaning.FailedCreation`); the deposit of code is
  paid from the creator's gas. A creation transaction whose frame fails or reverts ends as succeeded, without rollback
  (`EndMeaning.Ends`, `EndMeaning.LastFailure`).
- EXP has no charge but that for the bytes of its exponent (`StackMeaning.ExpInstruction`), BYTE answers the lowest byte
  for an index above 31 (`StackMeaning.BinaryInstruction`), EXTCODEHASH answers the hash of no code for an account that
  does not exist (`WorldMeaning.AccountInstruction`), and SSTORE is free before Constantinople
  (`WorldMeaning.SStoreInstruction`).
- DELEGATECALL looks precompiled contracts up under the
  caller's own address, the bytes 0xb0 to 0xb2 decode to PUSH, DUP and SWAP of width or depth zero, and asking a
  reader at an unknown root whether an account exists aborts. The model has all three.

## Model

| member | source | states |
|---|---|---|
| CallStack.CallStackDiscipline | src/core/exec.rs:1668-1764 | In every state of every execution: the current frame is of the transaction's type iff it is the only one above the placeholder, the stack is at most 1024 deep, from Berlin on every live callee is in the access list, and none of the unwraps and assertions on frames fires. |
| CallStack.StepKeeps | src/core/exec.rs:1773-1935 | One iteration of the main loop keeps that discipline or ends the transaction, for every opcode and through error cascades. |
| CallStack.StartKeeps | src/core/exec.rs:1960-2058 | A transaction that starts running starts in that discipline. |
| GasBound.TransactionGas | src/core/exec.rs:1773-1935 | The gas in all frames never exceeds what the transaction was given after the intrinsic charge, taken modulo 2^64, plus one stipend for each zero-value call made so far. An execution without zero-value calls ends, and no addition of gas in any of its steps wraps: not when a frame hands back what it has, not when several frames end with a failing one, and not when a call that needs no frame gives back what it took along. |
| GasBound.StepGas | src/core/exec.rs:1748-1771 | One iteration never raises the sum of gas over the frames, zero-value calls apart, and strictly lowers (gas sum, call depth, code left) lexicographically, also through returns and unwinding, although some instructions are free. |
| GasBound.RunGas | src/core/exec.rs:1269-1293 | Over any number of steps the frames gain at most one stipend per zero-value call. |
| GasBound.RunEnds | src/core/exec.rs:1773-1935 | From any well-formed running state whose run makes no zero-value call, a finite number of steps ends the transaction. |
| GasBound.ZeroValueCallGas | src/core/exec.rs:1229-1266 | The exact law of a zero-value CALL or CALLCODE that completes: the gas in the frames changes by +2300 less the base fee, the memory fee and the cold-address surcharge, and less the gas handed to a precompiled contract that failed for good. |
| GasBound.IdleCallAddsGas | src/core/exec.rs:1250-1252 | So a zero-value CALL to a warm account without code leaves the frames with 2200 more gas than before and the caller running. |
| EndlessLoop.LoopingTxNeverEnds | src/core/exec.rs:1773-1935 | A concrete transaction that never ends: whatever gas from 50000 up to near 2^64 it is given, creating a contract whose 24 bytes of initialisation code call their own address without value runs for ever, since one round of its loop costs exactly the 2200 that its call gains. So the condition of the termination theorem cannot be dropped. |
| Balances.BalancesNeverGrow | src/core/exec.rs:36-52 | In every state of every execution from balances that sum below 2^256: neither the world nor any snapshot a frame holds has more than the sum at the start, and no unwrapped transfer fails. |
| Balances.StepConserves | src/core/exec.rs:1588-1644 | A step keeps the sum of balances exactly unless it ends the transaction, rolls back, or is a SELFDESTRUCT to itself. |
| Balances.TransferConserves | src/core/exec.rs:46-52 | While the total fits a word, a transfer, to oneself included, succeeds if and only if the sender can pay, and keeps the total. |
| Balances.SelfDestructSolvent | src/core/exec.rs:1588-1644 | SELFDESTRUCT keeps solvency, and the exact total when the heir is another account. |
| Balances.BequeathTotal | src/core/exec.rs:1588-1644 | What its move of the balance does to the total: nothing for another heir, and a burn of the whole balance when the heir is the account itself. |
| Balances.TxEndSolvent | src/core/exec.rs:1698-1745 | Ending a transaction, with its deletions or its rollback, does not raise the total. |
| ReadOnly.StaticCallChangesNothing | src/core/exec.rs:1504-1571 | From the step in which STATICCALL pushes its frame until that frame is popped, whatever nested calls, errors and rollbacks happen: every balance, nonce, code, storage value and the logs are unchanged. |
| ReadOnly.StepGuarded | src/core/exec.rs:1668-1688 | Frames above a read-only frame are read-only and hold harmless snapshots; a step keeps that and the values. |
| Revert.RevertedTxChangesOnlyNonce | src/core/exec.rs:1698-1745 | A message call that ends reverted leaves the world it started from with only the sender's nonce raised by one, whatever happened in between. |
| ProgramCounter.CountersStayOnInstructions | src/core/exec.rs:1766-1821 | In every execution: the running frame's pc is on an instruction start or past the end and every waiting frame's pc is on the call it made, all along, if and only if at no step a PUSH of n bytes stands in a called frame with less than three gas or a full stack while the caller's pc plus n + 1 is inside one of the caller's instructions. |
| ProgramCounter.StepPc | src/core/exec.rs:657-681 | The same for one iteration, across jumps (one below the destination, modulo 2^64), calls, returns and failures of any instruction; and a step that meets that guard always goes on in the caller. |
| ProgramCounter.StepRoomy | src/core/exec.rs:1269-1293 | One iteration keeps, for every waiting frame, room on its stack for the word it waits for; so a failing frame always gets back to its caller. |
| ProgramCounter.OnlyPushLosesPlace | src/core/exec.rs:1766-1935 | So executions in which each PUSH finds three gas and room for its word keep every counter in place, whatever other instructions fail. |
| ProgramCounter.FailedStepResumes | src/core/exec.rs:1925-1935 | After an instruction that fails, for any number of frames ended with it: the frame that resumes has its own code, and its pc advanced by the size of the failed instruction, or not at all when that was a call or creation. |
| FailedFrames.CallerResumesAt | src/core/exec.rs:1766-1935 | Hence in disciplined states with counters in place: the frame that resumes goes on after its call iff the failing instruction was neither a PUSH nor a call or creation; after a PUSH it skips that many bytes more, after a call or creation it repeats its own call. |
| FailedFrames.MisplacingTxLosesPlace | src/core/exec.rs:1766-1821 | Transactions in which that happens, on every fork from Homestead on: a message call to a contract of 17 bytes that delegates without gas to a library of one PUSH1, run from its start, gets to a state in which the contract runs on inside the data of its PUSH3. |
| SstoreMetering.NetMetering | src/core/exec.rs:684-814 | Over any run of completed writes from unchanged storage, between which anything may run that writes no storage and takes no refund back: the gas the writes charge less the refund they themselves gain is one base charge per write, plus the cold surcharges, plus a sum over the written slots that depends on committed and final values alone (EIP-2200, EIP-2929, EIP-3529). |
| SstoreRuns.ExecutionMetering | src/core/exec.rs:817-863 | For every execution from the committed storage, up to any step before which no iteration went on after creating over stored slots or after a failure or revert that changed storage or took refund back: the completed SSTOREs it made form such a run and cost that much; the refund counter covers one clearing refund per cleared slot; and no iteration aborted because the counter would go below zero. |
| SstoreMetering.MeteringConstants | src/core/exec.rs:684-814 | The base charge and that function in numbers: 800 and 0, 19200, 4200 - 15000, 4200 in Istanbul; 100 and 0, 19900, 2800 less 15000 or 4800, 2800 from Berlin on, with 2100 for a cold slot. |
| SstoreMetering.WriteMetered | src/core/exec.rs:744-814 | One completed write costs, net of its refund, the base charge, the cold surcharge and the difference of that function of the slot before and after. |
| SstoreMetering.ColdOnce | src/core/exec.rs:744-768 | A slot is charged as cold at most once in such a run. |
| SstoreMetering.RefundCoversCleared | src/core/exec.rs:707-737 | The refund counter is at least the clearing refund times the number of slots now zero and not zero at the start. |
| SstoreMetering.RefundNeverBelowZero | src/core/exec.rs:1655-1666 | So no further write of such a run makes the refund subtraction abort. |
| SstoreMetering.RefundPanicsExactly | src/core/exec.rs:707-737 | From Istanbul on, for every state: a write aborts because the refund would go below zero iff it refills a cleared slot, the counter is below one clearing refund, the gas is above the sentry, and from Berlin on the contract or the slot is in the access list. |
| SstoreRuns.StepBelowZeroExactly | src/core/exec.rs:817-863 | The same for a whole iteration, for every instruction: it aborts there iff it is an SSTORE, outside a read-only frame and with two words on the stack, that does so. |
| SstoreMetering.RollbackBreaksRefund | src/core/exec.rs:1655-1666 | Why rollbacks are excluded: clear a slot, refill it in a nested call of the contract, let that frame fail and be popped with its snapshot, refill the slot again; for every key, word and state with the gas for it, the last write aborts. |
| RefundAbort.RefillingTxAborts | src/core/exec.rs:1655-1666 | Transactions whose execution does: a message call to a contract of 25 bytes that clears a slot, delegates to a library that refills it and hits an invalid instruction, and refills the slot itself, run from its start, aborts on every fork from Istanbul on. |
| Exec.Execute | src/core/exec.rs:1960-2058 | For every transaction that ends: the object run from its constructor to its end reaches a state that the step machine reaches from the start of the transaction, and has then ended, with the world and the result of that state. |
| Exec.TxExecContext.constructor | src/core/exec.rs:1972-2005 | A new context is the initial one, with the initial access list. |
| Exec.TxExecContext.Start | src/core/exec.rs:2006-2057 | Starting a message call or a creation does what the step machine's start does. |
| Exec.TxExecContext.Run | src/core/exec.rs:1773-1942 | The main loop ends, whenever the run does, in the state of some number of steps. |
| Exec.TxExecContext.Iterate | src/core/exec.rs:1776-1935 | One round of the loop is one step. |
| Exec.TxExecContext.Execute | src/core/exec.rs:409-1644 | One instruction, each opcode in a method of its own that updates the object in place (CallBegin, CallCodeBegin, DelegateCallBegin, StaticCallBegin, CreateBegin, Create2Begin, Return, Revert, SelfDestruct, SStore, SLoad, Log, Jump, JumpI, Balance, ExtCodeSize, ExtCodeCopy, ExtCodeHash, BlockHash and those on the frame alone): state, error and abort are those of the step machine. |
| Exec.TxExecContext.Unwind | src/core/exec.rs:1925-1927 | The loop ends failed frames, each with its error and no data, until one ends well or the transaction has ended. |
| Exec.TxExecContext.FinishCall | src/core/exec.rs:1748-1764 | Pops the frame and returns to its caller, creator, or the end of the transaction. |
| Exec.TxExecContext.CallEnd | src/core/exec.rs:1269-1293 | The return from a call: rollback on failure, return data, unused gas, verdict. |
| Exec.TxExecContext.CreateEnd | src/core/exec.rs:1034-1055 | The return from a creation: rollback on failure, the code deposit, the unused gas back to the creator, and the address pushed unless the deposit failed. |
| Exec.TxExecContext.CreatePostProcessing | src/core/exec.rs:1005-1031 | The code deposit: code above the size limit, with the reserved first byte or not paid for is refused, by fork, and else stored; a failed creation other than a reverted one takes the creator's gas. |
| Exec.TxExecContext.TxEnd | src/core/exec.rs:1698-1745 | The end of a transaction: the code deposit of a creation, deletion of emptied and destroyed accounts, or rollback, and the result. |
| Exec.TxExecContext.DeleteEmpty | src/core/exec.rs:1715-1724 | Deletes exactly the dirty accounts that are empty, in any order. |
| Exec.TxExecContext.DeleteDestroyed | src/core/exec.rs:1726-1731 | Deletes exactly the destroyed accounts, in any order. |
| Exec.TxExecContext.Call_ | src/core/exec.rs:1155-1226 | A call with its balance check, account creation, transfer, and precompiled contracts. |
| Exec.TxExecContext.Create_ | src/core/exec.rs:894-959 | A creation with its checks, nonce, transfer and frame. |
| Exec.TxExecContext.UseGasCall | src/core/exec.rs:1057-1153 | The surcharges of a call in their order and the gas it hands over, at most all but one 64th from Tangerine Whistle on. |
| Exec.TxExecContext.SelfDestruct | src/core/exec.rs:1588-1644 | SELFDESTRUCT: its charges and refund by fork, the whole balance to the heir, both accounts touched and the contract marked destroyed, and the frame ended. |
| Exec.TxExecContext.SStoreIstanbulGas | src/core/exec.rs:684-741 | Its gas from Istanbul on. |
| Exec.TxExecContext.SStoreBerlinLondonGas | src/core/exec.rs:744-814 | Its gas from Berlin on. |
| AccessTable.AccessTable.AddSlot | src/core/exec.rs:333-360 | Adds a slot and its address to the indexed table, as to a set of pairs, and says which of the two was new. |
| AccessTable.AccessTable.AddAddr | src/core/exec.rs:322-331 | Adds an address and says whether it was new. |
| AccessTable.AccessTable.Contains | src/core/exec.rs:307-320 | Whether the address is listed and whether the pair is. |
| AccessTable.AccessTable.AddInitial | src/core/exec.rs:277-301 | The list a transaction starts with. |
| StackMeaning.BinaryInstruction | src/core/call.rs:45-64 | For each raw byte of ADD to SMOD, SIGNEXTEND, the comparisons and the operations on bits of two words: one step completes iff there are two words, the price and the fork; it then puts in their place the word given in integers with the first operand on top (0x03 the difference modulo 2^256, 0x05 the truncated quotient of the signed values, 0x1d the floor quotient by 2^s, AND, OR, XOR bit by bit, ...), charges the price, goes one byte on and changes nothing else. |
| StackMeaning.UnaryInstruction | src/core/call.rs:33-43 | The same for ISZERO and NOT, the latter bit by bit. |
| StackMeaning.TernaryInstruction | src/core/call.rs:66-75 | The same for ADDMOD and MULMOD: the remainder of the unbounded sum and product, 0 modulo 0. |
| StackMeaning.ExpInstruction | src/core/call.rs:110-122 | The same for EXP: the power modulo 2^256, charged per byte of the exponent. |
| WordMeaning.ArithmeticAnswers | src/core/alu.rs:4-157 | The word operations behind them against those integer definitions: arithmetic, |
| WordMeaning.ComparisonAnswers | src/core/alu.rs:206-299 | comparisons, |
| WordMeaning.BitAnswers | src/core/alu.rs:307-366 | and operations on bits, shifts by 256 and more included. |
| PushMeaning.OwnWordInstruction | src/core/call.rs:154-309 | ADDRESS, CALLER, CALLVALUE, CALLDATASIZE, CODESIZE, RETURNDATASIZE, PC, MSIZE, GAS and the words of the transaction and the block: which word each raw byte pushes, for two gas, and from which fork. |
| PushMeaning.PushInstruction | src/core/call.rs:311-326 | PUSH1 to PUSH32 push the big-endian word of the bytes behind them and go on behind those, iff they lie within the code. |
| PushMeaning.PopInstruction | src/core/call.rs:260-263 | POP takes one word, JUMPDEST none. |
| PushMeaning.DupInstruction | src/core/call.rs:328-331 | DUPn pushes the n-th word from the top. |
| PushMeaning.SwapInstruction | src/core/call.rs:334-337 | SWAPn exchanges the top word with the n-th below it. |
| PushMeaning.UndefinedInstruction | src/core/exec.rs:1809-1820 | Every byte that is no instruction fails and changes nothing. |
| PushMeaning.BareInstruction | src/core/opcode.rs:136-138 | What 0xb0, 0xb1 and 0xb2 do: abort, push a stale slot, nothing. |
| PushMeaning.JumpInstruction | src/core/exec.rs:657-667 | JUMP completes iff its destination holds a JUMPDEST that is no PUSH data, and goes on exactly there. |
| PushMeaning.JumpIInstruction | src/core/exec.rs:670-681 | JUMPI does so iff its second word is not zero, and else goes on behind itself without looking at the destination. |
| Params.ForksInOrder | src/core/params.rs:4-14 | A rule from a fork on holds in exactly the forks activated no earlier. |
| CallMemory.SliceExactly | src/core/memory.rs:57-71 | A slice is granted iff it ends at or below the largest memory; it shows at i the old byte at off + i, or 0 past the old end, for the fee of the growth, and the memory keeps every byte. |
| CallMemory.CopyExactly | src/core/memory.rs:78-87 | A write puts the data at its offset, leaves every other byte, and costs that fee. |
| MemoryMeaning.MLoadInstruction | src/core/call.rs:265-272 | MLOAD pushes the word whose 32 bytes are those of the memory at its offset; when it completes, and its fee. |
| MemoryMeaning.MStoreInstruction | src/core/call.rs:274-291 | MSTORE puts the 32 bytes of its word at its offset, MSTORE8 the lowest one, and every other byte stays. |
| MemoryMeaning.StoreThenLoad | src/core/call.rs:265-282 | An MLOAD at the offset of an MSTORE gives its word back, whatever ran in between, as long as those 32 bytes stayed. |
| MemoryMeaning.Sha3Instruction | src/core/call.rs:139-151 | SHA3 pushes the hash of exactly the bytes of its slice. |
| MemoryMeaning.CallDataLoadInstruction | src/core/call.rs:172-181 | CALLDATALOAD pushes 32 bytes of the input, zeros past its end. |
| MemoryMeaning.CopyInstruction | src/core/call.rs:195-220 | CALLDATACOPY and CODECOPY put bytes of the input and of the code in memory, zeros past their end. |
| MemoryMeaning.ReturnDataCopyInstruction | src/core/call.rs:231-257 | RETURNDATACOPY puts bytes of the last returned data there, iff they exist. |
| WorldMeaning.AccountInstruction | src/core/exec.rs:409-524 | BALANCE, EXTCODESIZE and EXTCODEHASH put in the place of an address what the running world answers for it, charge by fork and access list, and from Berlin on leave the account in the list. |
| WorldMeaning.SelfBalanceInstruction | src/core/exec.rs:600-617 | SELFBALANCE pushes the balance of the running contract in the running world. |
| WorldMeaning.BlockHashInstruction | src/core/exec.rs:527-545 | BLOCKHASH answers the 256 blocks before the current one, else zero. |
| WorldMeaning.ExtCodeCopyInstruction | src/core/exec.rs:468-497 | EXTCODECOPY puts bytes of an account's code in memory, zeros past their end. |
| WorldMeaning.SLoadInstruction | src/core/exec.rs:630-654 | SLOAD completes iff it can pay, and puts in the place of the key the running world's word of that slot of the running contract; no storage changes. |
| WorldMeaning.SStoreInstruction | src/core/exec.rs:817-863 | SSTORE writes its value in that slot and nothing else of any account; exactly when it completes, what it charges and what it refunds on every fork, by the slot's word at the start of the transaction, its word now and the new one. |
| WorldMeaning.WriteThenRead | src/core/exec.rs:630-863 | After a completed SSTORE, an SLOAD of that key in any frame of the contract gives the value, and any other slot its earlier word, as long as no slot changed in between. |
| WorldMeaning.LogInstruction | src/core/exec.rs:866-891 | LOGn appends one record with the contract, the topics in stack order and the bytes of its slice; when it completes, and its price. |
| CallMeaning.CallInstruction | src/core/exec.rs:1155-1688 | CALL, CALLCODE, DELEGATECALL and STATICCALL to code: when they complete, and the frame they start, by the words on the caller's stack: the code of the asked address, as input the bytes of the caller's memory at the asked offset, callee, caller and value by kind (DELEGATECALL keeps the running frame's caller and value, CALLCODE its callee), pc 0, no words, the gas handed over; the value moved; and what the caller waits with. |
| CallMeaning.FramelessCallInstruction | src/core/exec.rs:1155-1226 | Calls that need no frame: when they complete, and the answer of the precompiled contract or of no code given to the caller at once. |
| CreateMeaning.CreateInstruction | src/core/exec.rs:894-1001 | CREATE and CREATE2: when they complete, the address, the frame that runs the init code from memory, the raised nonce, the endowment, and the gas handed over. |
| CreateMeaning.MessageCallStarts | src/core/exec.rs:2007-2028 | A message call to code starts that code with the transaction's input, sender, value and its gas less 21000, the sender's nonce raised and the value moved, iff the sender can pay; with which access list. |
| CreateMeaning.CreationStarts | src/core/exec.rs:2029-2052 | A creation transaction starts its input as code at the derived address. |
| ReturnMeaning.StopInstruction | src/core/exec.rs:1269-1293 | What STOP and the end of the code leave the caller or creator with. |
| ReturnMeaning.ReturnInstruction | src/core/exec.rs:1494-1586 | What RETURN and REVERT leave them with: the bytes of the slice, copied to the asked place as far as it goes, the unused gas, 1 or 0, the world or the snapshot, and where the caller goes on. |
| ReturnMeaning.SelfDestructInstruction | src/core/exec.rs:1588-1644 | SELFDESTRUCT in a called frame: when it completes, its price and refund, the balance to the heir, and the mark. |
| ReturnMeaning.FinishesCreation | src/core/exec.rs:1034-1055 | The end of a creation's frame in every case: the word pushed, the creator's gas, the code stored or not, the rollback. |
| ReturnMeaning.DepositExactly | src/core/exec.rs:1005-1031 | When code is stored: by size, first byte, fork and the creator's gas. |
| ReturnMeaning.FailedInstruction | src/core/exec.rs:1925-1935 | An instruction that fails in a called frame: the caller gets 0, no data and no gas, an untouched memory, and the call's snapshot. |
| ReturnMeaning.FailedCreation | src/core/exec.rs:1925-1935 | The same in a frame made by a creation, which costs the creator its gas and still answers the address. |
| ReturnMeaning.RollbackRestores | src/core/exec.rs:1269-1277 | When a call that kept a snapshot ends failed or reverted, every slot reads as when the call was made, whatever was written in between. |
| EndMeaning.Ends | src/core/exec.rs:1698-1745 | The end of the transaction by getters: after success no marked account exists, nor, from Spurious Dragon on, a touched one with zero nonce, zero balance and the hash of no code; every other account reads as before the end, but for the code a creation stores; a failed message call is undone; and the result. |
| EndMeaning.LastReturn | src/core/exec.rs:1494-1586 | RETURN and REVERT in the transaction's own frame: when they complete, and that they end it so with the bytes of their slice. |
| EndMeaning.LastStop | src/core/exec.rs:1748-1764 | STOP and the end of the code. |
| EndMeaning.LastSelfDestruct | src/core/exec.rs:1588-1644 | SELFDESTRUCT, whose own mark counts. |
| EndMeaning.LastFailure | src/core/exec.rs:1925-1935 | An instruction that fails there. |
| EndMeaning.FramelessMessage | src/core/exec.rs:1155-1226 | A message call that starts no code ends at once, with the answer, the value moved and empty accounts gone. |
| EndMeaning.UnpaidMessage | src/core/exec.rs:2053-2057 | One whose sender cannot pay ends reverted, with only the nonce raised. |
| EndMeaning.DestroyedIsGone | src/core/exec.rs:1588-1745 | In every execution: an account whose SELFDESTRUCT completed at some step does not exist once the transaction has succeeded, whatever was rolled back in between. |
| Interpreter.QuietOp | src/core/call.rs:36-345 | Instructions that neither call, end, jump, log nor write storage change only stack, memory, gas, pc, access list and refund, never raise gas, charge at least one unit unless EXP, and abort only for the two named reasons. |
| Alu.SDivMeaning | src/core/alu.rs:41-54 | SDIV is division rounding toward zero on two's-complement integers modulo 2^256, -2^255 / -1 included, and 0 for divisor 0. |
| Alu.SModMeaning | src/core/alu.rs:65-71 | SMOD is the remainder of that division. |
| Alu.SignedComparison | src/core/alu.rs:225-254 | SLT and SGT compare two's-complement integers. |
| Alu.SarMeaning | src/core/alu.rs:347-366 | SAR is floor division by 2^s for every s, 256 and above included (EIP-145). |
| Alu.SignExtendMeaning | src/core/alu.rs:144-157 | SIGNEXTEND is the sign extension iff the sign bit is set, the bytes above are zero, or all bytes are kept. |
| Alu.ModArithmeticExact | src/core/alu.rs:119-136 | ADDMOD and MULMOD widen to 512 bits, where neither the sum nor the product of two words wraps, and narrowing the remainder never fails: they are the exact remainders of the unbounded sum and product, and 0 modulo 0. |
| CallMemory.FeesAddUp | src/core/memory.rs:36-55 | Over any run of growth requests, refused ones included, the fees add up to 3w + w*w/512 for the words w of the largest granted request, and the memory is just those words, all zero. |
| CallMemory.WordCost | src/core/memory.rs:36-55 | The cost is computed without overflow in 64-bit arithmetic up to the largest memory. |
| CallMemory.ToWordSize | src/core/memory.rs:20-26 | Words are the size divided by 32, rounded up, also next to 2^64. |
| CallMemory.Memory.Resize | src/core/memory.rs:36-55 | Growth keeps old bytes, zeroes new ones, keeps whole words, and returns the difference of the costs. |
| CallMemory.Memory.Set | src/core/memory.rs:78-87 | Copies into the grown memory as much as the slice holds. |
| OperandStack.DupSwapMeaning | src/core/stack.rs:29-45 | DUP pushes the word at its depth, SWAP exchanges two words and undoes itself. |
| OperandStack.PushWord | src/core/stack.rs:19-27 | Pushing appends, and fails exactly on a full stack. |
| OperandStack.Operands.Push | src/core/stack.rs:19-27 | The same on the array and its top index. |
| OperandStack.Operands.Duplicate | src/core/stack.rs:29-35 | DUP on the array. |
| OperandStack.Operands.Exchange | src/core/stack.rs:37-45 | SWAP on the array. |
| OperandStack.Operands.Consume | src/core/stack.rs:47-89 | Takes the top words off and leaves the rest. |
| PlainCode.GenCodeBitmap | src/common.rs:733-748 | Bit i is set iff i is reached from 0 by stepping over whole instructions. |
| PlainCode.StartsDoNotOverlap | src/common.rs:733-748 | No instruction start lies inside another instruction. |
| FlatWorld.DummyStateStore.SetState | tools/src/dummy.rs:101-106 | The flat store writes one slot. |
| FlatWorld.DummyStateStore.SetBalance | tools/src/dummy.rs:107-110 | It writes a balance. |
| FlatWorld.DummyStateStore.CreateAccount | tools/src/dummy.rs:119-128 | It replaces an account by a fresh one with the old balance. |
| FlatWorld.DummyStateStore.Snapshot | tools/src/dummy.rs:152-155 | A snapshot is an independent copy. |
| FlatWorld.DummyStateStore.Rollback | tools/src/dummy.rs:156-159 | A rollback takes over the whole copy. |
| MemState.RevWalk | src/state.rs:79-98 | The loop behind the getters returns what the newest revision recording the field says, else the source. |
| MemState.ConsolidationExactly | src/state.rs:260-336 | Exactly when consolidation keeps the answer of a getter, for every address, field and depth: the newest deletion merged is of the newest revision or there is none, or a revision after it records the field, or what lies under those revisions before reads as what lies there afterwards. |
| MemState.ConsolidationKeepsGetters | src/state.rs:125-195 | So consolidation, however far back, changes no getter for an address not deleted in a merged revision below the newest. |
| MemState.MergedExactly | src/state.rs:284-316 | Exactly what consolidation computes with deletions: the changes to an address are the overlay of the revisions after its newest deletion, and it is listed as deleted iff none of them touches it. |
| MemState.MergedLogs | src/state.rs:311-316 | Merged logs are the concatenation, oldest first, and no address is both listed and deleted. |
| MemState.ConsolidatedDepth | src/state.rs:326-336 | The depth drops by exactly min(k, depth), and to 0 without a bound. |
| MemState.ConsolidateRev | src/state.rs:260-325 | The two loops of consolidation compute that merged delta over the parent of the oldest merged revision. |
| MemState.ApplyInPlace | src/state.rs:286-316 | One round of the merging loop, whatever the order of the accounts. |
| MemState.DepthOf | src/state.rs:328-336 | The loop counts the revisions below. |
| StateTree.TreeAgrees | src/state.rs:484-589 | So any run without deletions that creates accounts only while they hold no slot, whatever is written to them before or afterwards, answers every getter in every live state as the flat stores run beside it. |
| WorldTrace.TreeAnswersAlong | src/core/exec.rs:1773-1935 | Both layers together. While an execution whose contracts are created at accounts without slots runs, the writes, creations, snapshots and rollbacks it has made, in their order, are such a run; and the tree of states that takes them answers every getter as the world the interpreter works on, and every snapshot a frame holds as that snapshot. |
| StateTree.TreeAgreesExactly | src/state.rs:484-589 | Over any source, for any run of writes, creations, deletions, snapshots, rollbacks, sharing and consolidation: every live state answers every getter as its flat store does, all along, if and only if each write and consolidation is harmless, which is a condition on the state it is applied to. |
| StateTree.WriteAgreesExactly | src/state.rs:200-233 | What harmless means for a write, creation or deletion, exactly: the deletions that a fresh revision makes the state forget are of accounts that do not exist below, its own account apart; a setter does not find its account deleted in the revision it writes, nor a creation storage below it. |
| StateTree.SquashAgreesExactly | src/state.rs:357-366 | What it means for a consolidation, exactly: every getter outlasts it in the sense of MemState.ConsolidationExactly. |
| StateTree.SetterAgreesExactly | src/state.rs:200-212 | A setter keeps agreement with the flat store iff the account is not deleted in the written revision. |
| StateTree.CreateAgreesExactly | src/state.rs:213-229 | Creating an account keeps agreement iff the revisions below read no storage for it. |
| StateTree.DeleteAgrees | src/state.rs:230-233 | Deleting an account keeps agreement... |
| StateTree.ForkAgreesExactly | src/state.rs:404-414 | ...and the next revision on top keeps it iff no deleted account exists below. |
| StateTree.DeletionForgotten | src/state.rs:404-414 | Any account of the source, once deleted, is back when a revision is put on top. |
| StateTree.MemStateAuto.ConvertMut | src/state.rs:492-503 | A shared state becomes a fresh revision over it; a mutable one stays. |
| StateTree.MemStateAuto.SetState | src/state.rs:550-552 | Writing a slot in place is the specified write to the writable revision. |
| StateTree.MemStateAuto.SetBalance | src/state.rs:553-555 | Likewise for a balance. |
| StateTree.MemStateAuto.SetCode | src/state.rs:556-558 | Likewise for code. |
| StateTree.MemStateAuto.SetNonce | src/state.rs:559-561 | Likewise for a nonce. |
| StateTree.MemStateAuto.CreateAccount | src/state.rs:213-229 | Likewise for a creation, keeping the old balance. |
| StateTree.MemStateAuto.DeleteAccount | src/state.rs:230-233 | Likewise for a deletion. |
| StateTree.MemStateAuto.Snapshot | src/state.rs:577-585 | A snapshot shares the revision, and both states are then read-only until written. |
| StateTree.MemStateAuto.Rollback | src/state.rs:586-588 | A rollback swaps the two states. |
| StateTree.MemStateAuto.Lookup | src/state.rs:125-195 | A getter answers from the deletions of the newest revision, then from the walk. |
| StateTree.SquashShared | src/state.rs:357-366 | Consolidating a shared state does nothing when it sits on its source, else the specified consolidation. |
| BlockTree.Chain.AddBlock | src/chain.rs:52-88 | A known hash changes nothing and yields the known block; a new one is added, the count rises by one, and afterwards the attached blocks are exactly those reachable from the base by parent links. |
| BlockTree.Chain.Drain | src/chain.rs:74-85 | The worklist attaches exactly the orphans that have become reachable, and ends. |
| BlockTree.Chain.AttachWaiting | src/chain.rs:77-83 | Every orphan waiting for a block is found and attached; the unwrap never fails. |
| BlockTree.AnyOrder | src/chain.rs:52-88 | Adding the same blocks with distinct hashes in any two orders, repetitions included, ends with the same attached blocks and the same orphans. |
| BlockTree.SettledOnce | src/chain.rs:52-88 | The known blocks alone determine which are attached. |
| BlockTree.ClosedIsSettled | src/chain.rs:20-27 | The attached blocks are the reachable ones iff all are reachable and no orphan's parent is attached. |
| BlockTree.Chain.RemoveOrphans | src/chain.rs:102-105 | Dropping the orphans leaves the attached blocks, still exactly the reachable ones. |
| BlockTree.Chain.GetBlock | src/chain.rs:95-100 | Finds exactly the known blocks. |
| CanonicalIndex.DemoChainState.SetCanonicalTail | examples/demo.rs:473-500 | Entry i of the index becomes the ancestor of the new tail at height i, for every i, although the walk stops at the first equal hash; the persisted keys stay in step. |
| CanonicalIndex.DemoChainState.Reload | examples/demo.rs:454-469 | Reading the persisted keys back gives the same index. |
| CanonicalIndex.LinkedBelow | examples/demo.rs:486-491 | Why the walk may stop: below an entry that is right, a parent-linked index is right. |
| CanonicalIndex.StopsRight | examples/demo.rs:486-499 | Wherever the walk stops, array and keys are those of the new path. |
| MerkleStore.DecodeExactly | tools/src/merkle.rs:235-258 | Bytes decode to an account iff they start with its encoding. |
| MerkleStore.EncodeDecodes | tools/src/merkle.rs:225-233 | Every account decodes from its own encoding. |
| MerkleStore.EncodeInto | tools/src/merkle.rs:225-233 | The buffer is filled with that encoding. |
| MerkleStore.DecodeFrom | tools/src/merkle.rs:235-258 | Reading field by field is that decoding, failures included. |
| MerkleStore.CommitReads | tools/src/merkle.rs:441-524 | Reading at the root a commit returns is the delta laid over reading at the old root, for every getter; what the delta leaves open of its own accounts is what the given reader answers. |
| MerkleStore.CommitSound | tools/src/merkle.rs:441-524 | What is stored at the new root decodes, and names storage that is there. |
| MerkleStore.OldRootsKept | tools/src/merkle.rs:441-524 | A commit changes nothing that is read at an older root. |
| MerkleStore.ChainMirrors | tools/src/merkle.rs:441-524 | Chained over any number of blocks, the store reads as a flat one that takes the same deltas. |
| MerkleStore.ChainFromEmpty | tools/src/merkle.rs:441-524 | The same from an empty store and no root on, as the flat world that starts empty. |
| MerkleStore.StateReadBack | tools/src/merkle.rs:441-524 | What a consolidated state answers is what is read back at the new root, for accounts the delta does not delete. |
| MerkleStore.DeletionsIgnored | tools/src/merkle.rs:441-524 | A deleted account is read back as deleted, in every getter, iff the delta lists no changes to it and the source did not have it. |
| MerkleStore.MerkleDB.Commit | tools/src/merkle.rs:441-524 | Whatever the order of accounts and slots, and whatever root the given reader is at, the returned root is that of the account trie at the old root overlaid with the delta, and once the batch is written everything it names is there and nothing is lost. |
| MerkleStore.MerkleDB.CommitAccount | tools/src/merkle.rs:446-506 | One account: what the delta leaves open is asked of the reader, and the storage trie it names is extended. |
| MerkleStore.MerkleDB.ReadAt | tools/src/merkle.rs:386-430 | The getters of a reader at a root. |
| MerkleStore.MerkleDB.CommitWriteBatch | tools/src/merkle.rs:333-335 | Writes the pending tries. |
| Common.BERoundTrip | tools/src/merkle.rs:227-229 | Big-endian words survive encoding. |
| Common.LERoundTrip | tools/src/merkle.rs:230-231 | Little-endian words survive encoding. |

## Left out

- Scheduling, locks and `await` points: every operation is an ordinary call; the interpreter object is used by one caller.
- Call frames, memories and operand stacks inside the interpreter object are values, as each is owned by one frame; `CallMemory.Memory` and `OperandStack.Operands` model the in-place versions on their own.
- Revisions are values: a shared revision is never changed again, so sharing it by reference cannot be told from copying it.
- Keccak, address derivation, block hashes and precompiled contracts are arbitrary functions of the environment.
- The refund counter is unbounded; its 64-bit wrap-around above 2^64 is not modelled. Unchecked 64-bit additions of gas and nonces wrap, as in a release build.
- What a shift right by 2^64 or more and other out-of-range library calls do is taken as their mathematical value.
- GasBound.TransactionGas: the statements on ending and on wrapping exclude CALL and CALLCODE with value zero; EndlessLoop.LoopingTxNeverEnds shows that the first is false with them.
- GasBound.RunEnds: excludes the same calls, for the same reason.
- GasBound.ZeroValueCallGas: asks for gas at least one stipend below 2^64, above which the addition wraps.
- Exec.Execute: is proved for transactions that end, because its loop must; every transaction without zero-value calls does (GasBound.TransactionGas), not every one with them does (EndlessLoop.LoopingTxNeverEnds), and one iteration (Exec.TxExecContext.Iterate) has no such condition. The same holds of Exec.TxExecContext.Run.
- SstoreMetering.RefundCoversCleared: excludes rollbacks between the writes, with which it is false (SstoreMetering.RollbackBreaksRefund).
- SstoreRuns.ExecutionMetering: excludes, for the same reason, iterations that go on after rolling storage back or after an SSTORE that took refund back and failed, and creations over stored slots, which change slots that no SSTORE wrote.
- StateTree.TreeAgrees: excludes deletions, and its condition on creations can be read off the flat store alone; StateTree.TreeAgreesExactly has no such condition.
- WorldTrace.TreeAnswersAlong: speaks of executions that have not ended, as the end deletes accounts, and excludes contracts created at accounts with slots, for which trees and flat stores differ (StateTree.CreateAgreesExactly).
- MemState.ConsolidationKeepsGetters: excludes addresses deleted in a merged revision below the newest, for which MemState.ConsolidationExactly says exactly when the getters are kept.
- ReadOnly.StaticCallChangesNothing: says nothing about which blank accounts exist, because a call touches its target's entry even in a static frame.
- SstoreMetering.NetMetering: covers Istanbul and later forks; earlier forks have no net metering.
- ReturnMeaning.FailedCreation: does not say how much gas the failed frame has left, which goes to the creator; GasBound.StepGas bounds it.
- ReturnMeaning.FailedInstruction: speaks of callers with room for the word they wait for, which every waiting frame of an execution has (ProgramCounter.StepRoomy).
- Interpreter.QuietOp: states a frame condition and a charge; what each of those instructions answers is stated by the theorems of StackMeaning, PushMeaning, MemoryMeaning and WorldMeaning.
- The flat store keeps no logs; the interpreter's world adds the list so that logs can be spoken about.
- Storage keys and block hashes are 32-byte values taken as words.
- MerkleStore.MerkleDB.Commit: takes the reader to be one of this store, at whatever root, as a storage root from elsewhere aborts the commit; takes the tries in play to have distinct non-zero roots, because a hash collision would mix them up; nodes, reference counters and proofs of the trie library are not modelled.
- CanonicalIndex.DemoChainState.SetCanonicalTail: the blocks found in the tree or the database are one fixed map; that loading a block adds it to the tree is not modelled. The path of the new tail must be known, numbered down to zero and end at the base, which the handler checks or establishes before the call.
- RPC, actors, mempool, transaction signatures, serialization, block codecs, disassembly and test fixtures.
