// The interpreter as a step machine (src/core/exec.rs): one step decodes an
// instruction, runs it, unwinds the frames that failed and advances the pc.
module Interpreter {
  import opened Common
  import opened Params
  import opened FlatWorld
  import opened Machine
  import opened Frames
  import opened Instructions
  import PlainCode
  import Alu

  datatype Opcode =
    | Stop | Add | Mul | Sub | Div | SDiv | Mod | SMod | AddMod | MulMod | ExpOp | SignExtend
    | Lt | Gt | Slt | Sgt | Eql | IsZero | And | Or | Xor | Not | ByteOp | Shl | Shr | Sar
    | Sha3Op
    | Address | BalanceOp | Origin | Caller | CallValue | CallDataLoadOp | CallDataSize | CallDataCopy
    | CodeSize | CodeCopy | GasPrice | ExtCodeSizeOp | ExtCodeCopyOp | ReturnDataSize
    | ReturnDataCopyOp | ExtCodeHashOp
    | BlockHashOp | Coinbase | Timestamp | Number | Difficulty | GasLimit | ChainId
    | SelfBalanceOp | BaseFee
    | PopOp | MLoadOp | MStoreOp | MStore8 | SLoadOp | SStoreOp | JumpOp | JumpIOp | PC | MSize | Gas | JumpDest
    | PushOp(width: nat) | DupOp(depth: nat) | SwapOp(depth: nat) | LogOp(topics: nat)
    | CreateOp | CallOp | CallCodeOp | ReturnOp | DelegateCallOp | Create2Op | StaticCallOp
    | RevertOp | SelfDestructOp
    | Invalid

  // Bytes 0xb0 to 0xb2 name the bare PUSH, DUP and SWAP, with width or depth 0.
  function Decode(raw: Byte): (op: Opcode)
    ensures op.PushOp? ==> op.width <= 32
    ensures op.PushOp? && op.width > 0 <==> PlainCode.PUSH1 <= raw <= PlainCode.PUSH32
    ensures op.LogOp? ==> op.topics <= 4
  {
    if 0x60 <= raw <= 0x7f then PushOp(raw - 0x60 + 1)
    else if 0x80 <= raw <= 0x8f then DupOp(raw - 0x80 + 1)
    else if 0x90 <= raw <= 0x9f then SwapOp(raw - 0x90 + 1)
    else if 0xa0 <= raw <= 0xa4 then LogOp(raw - 0xa0)
    else match raw
      case 0x00 => Stop
      case 0x01 => Add
      case 0x02 => Mul
      case 0x03 => Sub
      case 0x04 => Div
      case 0x05 => SDiv
      case 0x06 => Mod
      case 0x07 => SMod
      case 0x08 => AddMod
      case 0x09 => MulMod
      case 0x0a => ExpOp
      case 0x0b => SignExtend
      case 0x10 => Lt
      case 0x11 => Gt
      case 0x12 => Slt
      case 0x13 => Sgt
      case 0x14 => Eql
      case 0x15 => IsZero
      case 0x16 => And
      case 0x17 => Or
      case 0x18 => Xor
      case 0x19 => Not
      case 0x1a => ByteOp
      case 0x1b => Shl
      case 0x1c => Shr
      case 0x1d => Sar
      case 0x20 => Sha3Op
      case 0x30 => Address
      case 0x31 => BalanceOp
      case 0x32 => Origin
      case 0x33 => Caller
      case 0x34 => CallValue
      case 0x35 => CallDataLoadOp
      case 0x36 => CallDataSize
      case 0x37 => CallDataCopy
      case 0x38 => CodeSize
      case 0x39 => CodeCopy
      case 0x3a => GasPrice
      case 0x3b => ExtCodeSizeOp
      case 0x3c => ExtCodeCopyOp
      case 0x3d => ReturnDataSize
      case 0x3e => ReturnDataCopyOp
      case 0x3f => ExtCodeHashOp
      case 0x40 => BlockHashOp
      case 0x41 => Coinbase
      case 0x42 => Timestamp
      case 0x43 => Number
      case 0x44 => Difficulty
      case 0x45 => GasLimit
      case 0x46 => ChainId
      case 0x47 => SelfBalanceOp
      case 0x48 => BaseFee
      case 0x50 => PopOp
      case 0x51 => MLoadOp
      case 0x52 => MStoreOp
      case 0x53 => MStore8
      case 0x54 => SLoadOp
      case 0x55 => SStoreOp
      case 0x56 => JumpOp
      case 0x57 => JumpIOp
      case 0x58 => PC
      case 0x59 => MSize
      case 0x5a => Gas
      case 0x5b => JumpDest
      case 0xb0 => PushOp(0)
      case 0xb1 => DupOp(0)
      case 0xb2 => SwapOp(0)
      case 0xf0 => CreateOp
      case 0xf1 => CallOp
      case 0xf2 => CallCodeOp
      case 0xf3 => ReturnOp
      case 0xf4 => DelegateCallOp
      case 0xf5 => Create2Op
      case 0xfa => StaticCallOp
      case 0xfd => RevertOp
      case 0xff => SelfDestructOp
      case _ => Invalid
  }

  // ---------- running one instruction ----------

  function ArithOp(e: Env, op: Opcode, f: Frame): (r: FrameOutcome<()>)
    ensures Charges(f, r, if op.ExpOp? then 0 else 1)
  {
    match op
    case Add => Binary(f, GAS_FASTEST, Alu.Add)
    case Mul => Binary(f, GAS_FAST, Alu.Mul)
    case Sub => Binary(f, GAS_FASTEST, Alu.Sub)
    case Div => Binary(f, GAS_FAST, Alu.Div)
    case SDiv => Binary(f, GAS_FAST, Alu.SDiv)
    case Mod => Binary(f, GAS_FAST, Alu.Rem)
    case SMod => Binary(f, GAS_FAST, Alu.SMod)
    case AddMod => Ternary(f, GAS_MID, Alu.AddMod)
    case MulMod => Ternary(f, GAS_MID, Alu.MulMod)
    case ExpOp => Exp(e, f)
    case SignExtend => Binary(f, GAS_FAST, Alu.SignExtend)
    case Lt => Binary(f, GAS_FASTEST, Alu.Lt)
    case Gt => Binary(f, GAS_FASTEST, Alu.Gt)
    case Slt => Binary(f, GAS_FASTEST, Alu.Slt)
    case Sgt => Binary(f, GAS_FASTEST, Alu.Sgt)
    case Eql => Binary(f, GAS_FASTEST, Alu.Eq)
    case IsZero => Unary(f, GAS_FASTEST, Alu.IsZero)
    case And => Binary(f, GAS_FASTEST, Alu.And)
    case Or => Binary(f, GAS_FASTEST, Alu.Or)
    case Xor => Binary(f, GAS_FASTEST, Alu.Xor)
    case Not => Unary(f, GAS_FASTEST, Alu.Not)
    case ByteOp => Binary(f, GAS_FASTEST, Alu.ByteAt)
    case Shl => Since(f, e.From(Constantinople), Binary(f, GAS_FASTEST, Alu.Shl))
    case Shr => Since(f, e.From(Constantinople), Binary(f, GAS_FASTEST, Alu.Shr))
    case Sar => Since(f, e.From(Constantinople), Binary(f, GAS_FASTEST, Alu.Sar))
    case _ => Err(f, InvalidOpcode)
  }

  // Instructions that push a constant of the transaction or block.
  function EnvOp(e: Env, op: Opcode, f: Frame): (r: FrameOutcome<()>)
    ensures Charges(f, r, if op.ExpOp? then 0 else 1)
  {
    match op
    case Origin => PushConst(f, GAS_QUICK, e.origin)
    case GasPrice => PushConst(f, GAS_QUICK, e.gasPrice)
    case Coinbase => PushConst(f, GAS_QUICK, e.coinbase)
    case Timestamp => PushConst(f, GAS_QUICK, e.timestamp)
    case Number => PushConst(f, GAS_QUICK, e.number)
    case Difficulty => PushConst(f, GAS_QUICK, e.difficulty)
    case GasLimit => PushConst(f, GAS_QUICK, e.gasLimit)
    case ChainId => Since(f, e.From(Istanbul), PushConst(f, GAS_QUICK, e.chainId))
    case BaseFee => Since(f, e.From(London), PushConst(f, GAS_QUICK, e.baseFee))
    case _ => ArithOp(e, op, f)
  }

  function FrameOp(e: Env, op: Opcode, data: Bytes, f: Frame): (r: FrameOutcome<()>)
    requires |data| <= 32
    ensures Charges(f, r, if op.ExpOp? then 0 else 1)
  {
    match op
    case Sha3Op => Sha3(e, f)
    case Address => PushConst(f, GAS_QUICK, f.callee)
    case Caller => PushConst(f, GAS_QUICK, f.caller)
    case CallValue => PushConst(f, GAS_QUICK, f.value)
    case CallDataLoadOp => CallDataLoad(f)
    case CallDataSize => PushConst(f, GAS_QUICK, |f.input|)
    case CallDataCopy => CopyToMemory(f, f.input, true)
    case CodeSize => PushConst(f, GAS_QUICK, |f.code|)
    case CodeCopy => CopyToMemory(f, f.code, false)
    case ReturnDataSize => Since(f, e.From(Byzantium), PushConst(f, GAS_QUICK, |f.lastReturned|))
    case ReturnDataCopyOp => Since(f, e.From(Byzantium), ReturnDataCopy(f))
    case PopOp => Pop(f)
    case MLoadOp => MLoad(f)
    case MStoreOp => MStore(f, 32)
    case MStore8 => MStore(f, 1)
    case PC => PushConst(f, GAS_QUICK, f.pc)
    case MSize => PushConst(f, GAS_QUICK, |f.memory.space|)
    case Gas => PushGas(f)
    case JumpDest => UseGas(f, GAS_JUMPDEST)
    case PushOp(_) => PushData(f, data)
    case DupOp(n) => Dup(f, n)
    case SwapOp(n) => Swap(f, n)
    case _ => EnvOp(e, op, f)
  }

  // Instructions that leave the world, the frames and the pc alone.
  function QuietOp(e: Env, op: Opcode, data: Bytes, c: Ctx): (r: CtxOutcome<()>)
    requires |data| <= 32
    ensures QuietCharges(c, r, if op.ExpOp? then 0 else 1)
  {
    hide Balance, ExtCodeSize, ExtCodeCopy, ExtCodeHash, BlockHash, SelfBalance, SLoad, FrameOp;
    if op.BalanceOp? then Balance(e, c)
    else if op.ExtCodeSizeOp? then ExtCodeSize(e, c)
    else if op.ExtCodeCopyOp? then ExtCodeCopy(e, c)
    else if op.ExtCodeHashOp? then ExtCodeHash(e, c)
    else if op.BlockHashOp? then BlockHash(e, c)
    else if op.SelfBalanceOp? then SelfBalance(e, c)
    else if op.SLoadOp? then SLoad(e, c)
    else OnFrame(c, FrameOp(e, op, data, c.cur))
  }

  // Instructions after which the pc is left to the frame that was entered.
  predicate EntersCall(op: Opcode) {
    op.CreateOp? || op.CallOp? || op.CallCodeOp? || op.DelegateCallOp? || op.Create2Op? || op.StaticCallOp?
  }

  function EnterOp(e: Env, op: Opcode, c: Ctx): CtxOutcome<()>
    requires EntersCall(op)
  {
    match op
    case CreateOp => CreateBegin(e, c)
    case CallOp => CallBegin(e, c)
    case CallCodeOp => CallCodeBegin(e, c)
    case DelegateCallOp => DelegateCallBegin(e, c)
    case Create2Op => Create2Begin(e, c)
    case StaticCallOp => StaticCallBegin(e, c)
  }

  // Instructions that end the current frame.
  predicate EndsFrame(op: Opcode) {
    op.Stop? || op.ReturnOp? || op.RevertOp? || op.SelfDestructOp?
  }

  function EndOp(e: Env, op: Opcode, c: Ctx): CtxOutcome<()>
    requires EndsFrame(op)
  {
    match op
    case Stop => FinishCall(e, c, [], Success)
    case ReturnOp => Return(e, c)
    case RevertOp => Revert(e, c)
    case SelfDestructOp => SelfDestruct(e, c)
  }

  function Exec(e: Env, op: Opcode, data: Bytes, c: Ctx): CtxOutcome<()>
    requires |data| <= 32
  {
    if EntersCall(op) then EnterOp(e, op, c)
    else if EndsFrame(op) then EndOp(e, op, c)
    else if op.SStoreOp? then SStore(e, c)
    else if op.LogOp? then Log(e, c, op.topics)
    else if op.JumpOp? then Jump(c)
    else if op.JumpIOp? then JumpI(c)
    else QuietOp(e, op, data, c)
  }

  // ---------- one step ----------

  // The opcode at the pc; past the end it is STOP.
  function Fetch(f: Frame): Opcode {
    Decode(if f.pc < |f.code| then f.code[f.pc] else 0)
  }

  function PushWidth(op: Opcode): nat { if op.PushOp? then op.width else 0 }

  // PUSH data must lie inside the code.
  predicate Fetchable(f: Frame) {
    var op := Fetch(f);
    op.PushOp? ==> op.width > 0 && f.pc + 1 + op.width <= |f.code|
  }

  function PushedData(f: Frame): (data: Bytes)
    requires Fetchable(f)
    ensures |data| == PushWidth(Fetch(f)) <= 32
  {
    var op := Fetch(f);
    if op.PushOp? then f.code[f.pc + 1..f.pc + 1 + op.width] else []
  }

  // A failed frame ends with its error and no data; ending it may fail again.
  function Unwind(e: Env, r: CtxOutcome<()>): (u: CtxOutcome<()>)
    ensures !u.Err?
    ensures !r.Err? ==> u == r
    decreases |r.state.callStack| + 1, r.Err?
  {
    hide FinishCall;
    if r.Err? then
      if r.state.callStack == [] then Panic(r.state, NoFrameToPop)
      else Unwind(e, FinishCall(e, r.state, [], Failure(r.error)))
    else r
  }

  function Step(e: Env, c: Ctx): Ctx
    requires c.status.Running?
  {
    if !Fetchable(c.cur) then c.(status := Aborted(TruncatedPush))
    else
      var op := Fetch(c.cur);
      var r := Unwind(e, Exec(e, op, PushedData(c.cur), c));
      if r.Panic? then r.state.(status := Aborted(r.why))
      else if EntersCall(op) then r.state
      else AdvancePc(r.state, PushWidth(op))
  }

  // The state after n steps, or when the transaction ended before that.
  function Run(e: Env, c: Ctx, n: nat): Ctx
    decreases n
  {
    if n == 0 || !c.status.Running? then c else Run(e, Step(e, c), n - 1)
  }

  // ---------- starting a transaction ----------

  // The access list a transaction starts with (EIP-2929, EIP-2930).
  function InitialAccess(
    e: Env, from: Addr, to: Option<Addr>, listed: seq<(Addr, seq<U256>)>
  ): AccessList {
    var addrs := {from} + (if to.Some? then {to.value} else {}) + e.precompiled.Keys;
    AddListed(AccessList(addrs, {}), listed)
  }

  function AddListed(access: AccessList, listed: seq<(Addr, seq<U256>)>): (r: AccessList)
    ensures access.addrs <= r.addrs && access.slots <= r.slots
    decreases listed
  {
    if listed == [] then access
    else
      var (a, keys) := listed[0];
      AddListed(AccessList(access.addrs + {a}, access.slots + Pairs(a, keys)), listed[1..])
  }

  function Pairs(a: Addr, keys: seq<U256>): set<(Addr, U256)> {
    set k | k in keys :: (a, k)
  }

  // The context before anything ran; the current frame is the placeholder.
  function NewContext(e: Env, gas: U64, access: AccessList, world: World): Ctx {
    Ctx([], NewFrame([], [], 0, 0, 0, SubCall(None, 0, 0), gas, false), world, 0, access, {}, {}, Running)
  }

  datatype Tx = Tx(
    from: Addr, to: Option<Addr>, value: U256, gas: U64, input: Bytes, listed: seq<(Addr, seq<U256>)>)

  // The first call or creation of a transaction; it may already finish it.
  function Start(e: Env, tx: Tx, world: World): Ctx {
    var c := NewContext(e, tx.gas, InitialAccess(e, tx.from, tx.to, tx.listed), world);
    var gas := Wrap64(tx.gas - GAS_TX);
    var nonce := world.GetNonce(tx.from);
    var r := match tx.to
      case Some(to) =>
        var w := world.SetNonce(tx.from, Wrap64(nonce + 1));
        Call_(e, c.(world := w), to, tx.from, tx.input, gas, tx.value, TxCall(w, Sender(tx.from)))
      case None =>
        var a := e.createAddr(tx.from, nonce);
        Create_(e, c, a, tx.from, tx.input, tx.value, gas, TxCall(world, Contract(a)));
    match r
    case Ok(c, _) => c
    case Err(c, error) => c.(status := Finished(Reverted([], gas, error)))
    case Panic(c, why) => c.(status := Aborted(why))
  }

  // The state n steps after the start of a transaction.
  function Execution(e: Env, tx: Tx, world: World, n: nat): Ctx { Run(e, Start(e, tx, world), n) }
}
