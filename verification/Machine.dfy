// The state of one transaction's execution (src/core/exec.rs): call frames,
// the global counters and sets, and the outcome of an operation on them.
module Machine {
  import opened Common
  import opened Params
  import opened FlatWorld
  import opened CallMemory
  import OperandStack

  datatype ExecError =
    | OutOfGas
    | CodeStoreOutOfGas
    | Depth
    | InsufficientBalance
    | ContractAddrCollision
    | RevertedCall
    | MaxCodeSizeExceeded
    | InvalidJump
    | WriteProtection
    | ReturnDataOutOfBounds
    | GasIntOverflow
    | InvalidCode
    | NonceIntOverflow
    | StackOverflow
    | StackUnderflow
    | MemoryExhausted
    | InvalidOpcode

  // The places where the source would abort the whole process.
  datatype Abort =
    | NoFrameToPop          // popping the empty call stack
    | FramesLeftAtEnd       // the assertion that a transaction ends with no frame left
    | EndedTwice            // a transaction that ends although it is not running
    | CreateWithoutFrame    // returning from a creation that pushed no frame
    | CalleeNotWarm         // the assertion that the executing contract is in the access list
    | TransferFailed        // unwrapping a balance transfer
    | RefundBelowZero       // the refund counter below zero
    | TruncatedPush         // slicing PUSH data past the end of the code, or the bare PUSH byte
    | OffsetOverflow        // adding a memory offset and length past 2^256
    | StackOutOfBounds      // the bare DUP byte on a full stack

  // The result an operation reports to its caller.
  datatype Verdict = Success | Failure(error: ExecError)

  datatype TxAux = Sender(sender: Addr) | Contract(contract: Addr)

  datatype CallType =
    | TxCall(txSnapshot: World, aux: TxAux)
    | SubCall(callSnapshot: Option<World>, retOff: U256, retLen: U256)
    | CreateCall(createSnapshot: World, contractAddr: Addr)

  datatype Frame = Frame(
    pc: U64,
    memory: Mem,
    stack: OperandStack.Stack,
    code: Bytes,
    callee: Addr,
    caller: Addr,
    callType: CallType,
    input: Bytes,
    value: U256,
    lastReturned: Bytes,
    gas: U64,
    readOnly: bool)

  datatype TxExecResult =
    | Succeeded(data: Bytes, gas: U64, created: Option<Addr>)
    | Reverted(data: Bytes, gas: U64, error: ExecError)

  datatype Status = Running | Finished(result: TxExecResult) | Aborted(why: Abort)

  // The addresses and storage slots already touched (EIP-2929).
  datatype AccessList = AccessList(addrs: set<Addr>, slots: set<(Addr, U256)>) {
    function AddAddr(a: Addr): AccessList { this.(addrs := addrs + {a}) }
    function AddSlot(a: Addr, key: U256): AccessList {
      AccessList(addrs + {a}, slots + {(a, key)})
    }
  }

  datatype PrecompileResult = PrecompileResult(data: Bytes, verdict: Verdict)

  // What stays fixed while a transaction runs. Hashing, address derivation,
  // block hashes and precompiled contracts are parameters.
  datatype Env = Env(
    fork: Fork,
    committed: World,
    origin: Addr,
    gasPrice: U256,
    chainId: U256,
    coinbase: Addr,
    timestamp: U256,
    number: U256,
    difficulty: U256,
    gasLimit: U64,
    baseFee: U256,
    precompiled: map<Addr, Bytes -> PrecompileResult>,
    blockHash: U64 -> U256,
    keccak: seq<Byte> -> U256,
    createAddr: (Addr, U64) -> Addr,
    createAddr2: (Addr, U256, seq<Byte>) -> Addr)
  {
    predicate From(f: Fork) { fork.AtLeast(f) }

    predicate IsEmpty(w: World, a: Addr) {
      w.GetNonce(a) == 0 && w.GetBalance(a) == 0 && keccak(w.GetCode(a)) == keccak([])
    }
  }

  // callStack holds the frames below the current one; its first element is a
  // placeholder that never runs.
  datatype Ctx = Ctx(
    callStack: seq<Frame>,
    cur: Frame,
    world: World,
    refund: nat,
    access: AccessList,
    destroyed: set<Addr>,
    dirty: set<Addr>,
    status: Status)

  // The result of an operation, with the state it leaves: an error keeps the
  // changes made before it.
  datatype Outcome<S, T> =
    | Ok(state: S, value: T)
    | Err(state: S, error: ExecError)
    | Panic(state: S, why: Abort)
  {
    predicate IsFailure() { !Ok? }

    // Never applied to Ok; total because some checks of the source cannot fail.
    function PropagateFailure<U>(): Outcome<S, U> {
      match this
      case Err(s, e) => Err(s, e)
      case Panic(s, w) => Panic(s, w)
      case Ok(s, _) => Err(s, InvalidOpcode)
    }

    function Extract(): (S, T)
      requires Ok?
    {
      (state, value)
    }
  }

  type FrameOutcome<T> = Outcome<Frame, T>
  type CtxOutcome<T> = Outcome<Ctx, T>

  // An operation on the current frame alone.
  function OnFrame<T>(c: Ctx, r: FrameOutcome<T>): CtxOutcome<T> {
    match r
    case Ok(f, v) => Ok(c.(cur := f), v)
    case Err(f, e) => Err(c.(cur := f), e)
    case Panic(f, w) => Panic(c.(cur := f), w)
  }

  // What a method that changes the context in place reports.
  datatype Flow<+T> = Go(value: T) | Fail(error: ExecError) | Crash(why: Abort) {
    predicate IsFailure() { !Go? }

    function PropagateFailure<U>(): Flow<U> {
      match this
      case Fail(e) => Fail(e)
      case Crash(w) => Crash(w)
      case Go(_) => Fail(InvalidOpcode)
    }

    function Extract(): T
      requires Go?
    {
      value
    }
  }

  function FlowOf<S, T>(o: Outcome<S, T>): Flow<T> {
    match o
    case Ok(_, v) => Go(v)
    case Err(_, e) => Fail(e)
    case Panic(_, w) => Crash(w)
  }
}
