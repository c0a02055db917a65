// Instructions that touch only the current frame (src/core/call.rs).
module Frames {
  import opened Common
  import opened Params
  import opened Machine
  import opened CallMemory
  import OperandStack
  import Alu

  // Only the stack, memory and gas differ, and gas has not grown.
  ghost predicate Local(f: Frame, g: Frame) {
    g == f.(stack := g.stack, memory := g.memory, gas := g.gas) && g.gas <= f.gas
  }

  // A local operation that charges at least cost when it completes, fails for good
  // when it fails, and aborts for no reason but those named.
  ghost predicate Charges<T>(f: Frame, r: FrameOutcome<T>, cost: nat) {
    && Local(f, r.state)
    && (r.Ok? ==> r.state.gas + cost <= f.gas)
    && (r.Err? ==> !r.error.RevertedCall?)
    && (r.Panic? ==> r.why == OffsetOverflow || r.why == StackOutOfBounds)
  }

  // ---------- gas, stack and memory ----------

  function UseGas(f: Frame, gas: nat): (r: FrameOutcome<()>)
    ensures Charges(f, r, gas)
  {
    if f.gas < gas then Err(f, OutOfGas) else Ok(f.(gas := f.gas - gas), ())
  }

  function CheckedMul(f: Frame, x: nat, y: nat): (r: FrameOutcome<nat>)
    ensures Charges(f, r, 0)
    ensures r.Ok? ==> r.value == x * y
  {
    if x * y >= TWO_64 then Err(f, GasIntOverflow) else Ok(f, x * y)
  }

  function Push(f: Frame, v: U256): (r: FrameOutcome<()>)
    ensures Charges(f, r, 0)
  {
    FromStack(f, OperandStack.PushWord(f.stack, v))
  }

  function FromStack(f: Frame, r: OperandStack.StackResult): FrameOutcome<()> {
    match r
    case Done(s) => Ok(f.(stack := s), ())
    case Overflow => Err(f, StackOverflow)
    case Underflow => Err(f, StackUnderflow)
    case OutOfBounds => Panic(f, StackOutOfBounds)
  }

  // The k-th word below the top, counting from 1.
  function Below(f: Frame, k: nat): U256
    requires 1 <= k <= f.stack.top
  {
    f.stack.slots[f.stack.top - k]
  }

  function Drop(f: Frame, n: nat): Frame
    requires n <= f.stack.top
  {
    f.(stack := f.stack.(top := f.stack.top - n))
  }

  function Consume1(f: Frame): (r: FrameOutcome<U256>)
    ensures Charges(f, r, 0)
  {
    if f.stack.top < 1 then Err(f, StackUnderflow) else Ok(Drop(f, 1), Below(f, 1))
  }

  function Consume2(f: Frame): (r: FrameOutcome<(U256, U256)>)
    ensures Charges(f, r, 0)
  {
    if f.stack.top < 2 then Err(f, StackUnderflow) else Ok(Drop(f, 2), (Below(f, 1), Below(f, 2)))
  }

  function Consume3(f: Frame): (r: FrameOutcome<(U256, U256, U256)>)
    ensures Charges(f, r, 0)
  {
    if f.stack.top < 3 then Err(f, StackUnderflow)
    else Ok(Drop(f, 3), (Below(f, 1), Below(f, 2), Below(f, 3)))
  }

  function Consume4(f: Frame): (r: FrameOutcome<(U256, U256, U256, U256)>)
    ensures Charges(f, r, 0)
  {
    if f.stack.top < 4 then Err(f, StackUnderflow)
    else Ok(Drop(f, 4), (Below(f, 1), Below(f, 2), Below(f, 3), Below(f, 4)))
  }

  // Pops n words one at a time.
  function ConsumeMany(f: Frame, n: nat): (r: FrameOutcome<seq<U256>>)
    ensures Charges(f, r, 0)
    decreases n
  {
    if n == 0 then Ok(f, [])
    else
      var (f, first) :- Consume1(f);
      var (f, rest) :- ConsumeMany(f, n - 1);
      Ok(f, [first] + rest)
  }

  function FromMemory<T>(f: Frame, r: Access<T>): FrameOutcome<T> {
    match r
    case Done(m, v) => Ok(f.(memory := m), v)
    case OutOfMemory => Err(f, MemoryExhausted)
    case Overflow => Panic(f, OffsetOverflow)
  }

  function Slice(f: Frame, off: U256, len: U256): (r: FrameOutcome<(Bytes, nat)>)
    ensures Charges(f, r, 0)
    ensures r.Ok? ==> off + len <= |r.state.memory.space| && |r.value.0| == len
  {
    FromMemory(f, GetSlice(f.memory, off, len))
  }

  // Grows the memory, writes data over the slice and returns the fee.
  function StoreSlice(f: Frame, off: U256, len: U256, data: seq<Byte>): (r: FrameOutcome<nat>)
    ensures Charges(f, r, 0)
    ensures r.Ok? ==> len <= MAX_MEM_SIZE
  {
    var (f, s) :- Slice(f, off, len);
    Ok(f.(memory := Overwrite(f.memory, off, data[..Min(len, |data|)])), s.1)
  }

  // len bytes of src from off, padded with zeros on the right.
  function GetData(src: Bytes, off: U64, len: nat): (data: seq<Byte>)
    ensures |data| == len
  {
    var start := Min(off, |src|);
    var end := Min(start + len, |src|);
    src[start..end] + Zeros(len - (end - start))
  }

  function Saturate64(x: U256): U64 { CheckedAsU64(x).GetOr(TWO_64 - 1) }

  // ---------- shapes shared by many instructions ----------

  function Unary(f: Frame, gas: nat, op: U256 -> U256): (r: FrameOutcome<()>)
    ensures Charges(f, r, gas)
  {
    var (f, a) :- Consume1(f);
    var (f, _) :- Push(f, op(a));
    UseGas(f, gas)
  }

  function Binary(f: Frame, gas: nat, op: (U256, U256) -> U256): (r: FrameOutcome<()>)
    ensures Charges(f, r, gas)
  {
    var (f, args) :- Consume2(f);
    var (f, _) :- Push(f, op(args.0, args.1));
    UseGas(f, gas)
  }

  function Ternary(f: Frame, gas: nat, op: (U256, U256, U256) -> U256): (r: FrameOutcome<()>)
    ensures Charges(f, r, gas)
  {
    var (f, args) :- Consume3(f);
    var (f, _) :- Push(f, op(args.0, args.1, args.2));
    UseGas(f, gas)
  }

  // Charges first, then pushes a value the frame already holds.
  function PushConst(f: Frame, gas: nat, v: U256): (r: FrameOutcome<()>)
    ensures Charges(f, r, gas)
  {
    var (f, _) :- UseGas(f, gas);
    Push(f, v)
  }

  // The price of some words, whose product with it must fit.
  function PayWords(f: Frame, words: nat, gas: nat): (r: FrameOutcome<()>)
    ensures Charges(f, r, 0)
  {
    var (f, due) :- CheckedMul(f, words, gas);
    UseGas(f, due)
  }

  // An instruction that exists only from some fork on.
  function Since(f: Frame, available: bool, r: FrameOutcome<()>): FrameOutcome<()> {
    if available then r else Err(f, InvalidOpcode)
  }

  // ---------- single instructions ----------

  function Exp(e: Env, f: Frame): (r: FrameOutcome<()>)
    ensures Charges(f, r, 0)
  {
    var (f, args) :- Consume2(f);
    var (f, _) :- Push(f, Alu.Exp(args.0, args.1));
    var perByte := if e.From(SpuriousDragon) then GAS_EXP_BYTE_SPURIOUS_DRAGON else GAS_EXP_BYTE_FRONTIER;
    var (f, gas) :- CheckedMul(f, perByte, (Alu.BitLength(args.1) + 7) / 8);
    UseGas(f, gas)
  }

  function Sha3(e: Env, f: Frame): (r: FrameOutcome<()>)
    ensures Charges(f, r, GAS_SHA3)
  {
    var (f, _) :- UseGas(f, GAS_SHA3);
    var (f, args) :- Consume2(f);
    var (f, data) :- Slice(f, args.0, args.1);
    var (f, _) :- Push(f, e.keccak(data.0));
    var (f, _) :- PayWords(f, ToWordSize(args.1 % TWO_64), GAS_SHA3_WORD);
    UseGas(f, data.1)
  }

  function CallDataLoad(f: Frame): (r: FrameOutcome<()>)
    ensures Charges(f, r, GAS_FASTEST)
  {
    var (f, _) :- UseGas(f, GAS_FASTEST);
    var (f, off) :- Consume1(f);
    var word := match CheckedAsU64(off)
      case Some(off64) => WordFromBE(GetData(f.input, off64, 32))
      case None => 0;
    Push(f, word)
  }

  // CALLDATACOPY and CODECOPY differ in their source and in which of the two
  // fees is charged first.
  function CopyToMemory(f: Frame, src: Bytes, memoryFeeFirst: bool): (r: FrameOutcome<()>)
    ensures Charges(f, r, GAS_FASTEST)
  {
    var (f, _) :- UseGas(f, GAS_FASTEST);
    var (f, args) :- Consume3(f);
    var (memOff, srcOff, len) := args;
    var (f, fee) :- StoreSlice(f, memOff, len, GetData(src, Saturate64(srcOff), len));
    if memoryFeeFirst then
      var (f, _) :- UseGas(f, fee);
      PayWords(f, ToWordSize(len), GAS_COPY_WORD)
    else
      var (f, _) :- PayWords(f, ToWordSize(len), GAS_COPY_WORD);
      UseGas(f, fee)
  }

  function ReturnDataCopy(f: Frame): (r: FrameOutcome<()>)
    ensures Charges(f, r, GAS_FASTEST)
  {
    var (f, _) :- UseGas(f, GAS_FASTEST);
    var (f, args) :- Consume3(f);
    var (memOff, dataOff, len) := args;
    var end := Alu.Add(dataOff, len);
    if end >= TWO_64 || end > |f.lastReturned| || dataOff >= TWO_64 then
      Err(f, ReturnDataOutOfBounds)
    else
      var data := if dataOff <= end then f.lastReturned[dataOff..end] else [];
      var (f, fee) :- StoreSlice(f, memOff, len, data);
      var (f, _) :- UseGas(f, fee);
      PayWords(f, ToWordSize(len), GAS_COPY_WORD)
  }

  function MLoad(f: Frame): (r: FrameOutcome<()>)
    ensures Charges(f, r, GAS_FASTEST)
  {
    var (f, _) :- UseGas(f, GAS_FASTEST);
    var (f, off) :- Consume1(f);
    var (f, data) :- Slice(f, off, 32);
    var (f, _) :- Push(f, WordFromBE(data.0));
    UseGas(f, data.1)
  }

  // MSTORE and MSTORE8: the word as bytes, or its lowest byte.
  function MStore(f: Frame, width: nat): (r: FrameOutcome<()>)
    requires width <= 32
    ensures Charges(f, r, GAS_FASTEST)
  {
    var (f, _) :- UseGas(f, GAS_FASTEST);
    var (f, args) :- Consume2(f);
    var (f, fee) :- StoreSlice(f, args.0, width, ToBE(args.1, width));
    UseGas(f, fee)
  }

  function Pop(f: Frame): (r: FrameOutcome<()>)
    ensures Charges(f, r, GAS_QUICK)
  {
    var (f, _) :- UseGas(f, GAS_QUICK);
    var (f, _) :- Consume1(f);
    Ok(f, ())
  }

  // GAS pushes what is left after its own charge.
  function PushGas(f: Frame): (r: FrameOutcome<()>)
    ensures Charges(f, r, GAS_QUICK)
  {
    var (f, _) :- UseGas(f, GAS_QUICK);
    Push(f, f.gas)
  }

  function PushData(f: Frame, data: Bytes): (r: FrameOutcome<()>)
    requires |data| <= 32
    ensures Charges(f, r, GAS_FASTEST)
  {
    PushConst(f, GAS_FASTEST, WordFromBE(data))
  }

  function Dup(f: Frame, pos: nat): (r: FrameOutcome<()>)
    ensures Charges(f, r, GAS_FASTEST)
  {
    var (f, _) :- UseGas(f, GAS_FASTEST);
    FromStack(f, OperandStack.Dup(f.stack, pos))
  }

  function Swap(f: Frame, pos: nat): (r: FrameOutcome<()>)
    ensures Charges(f, r, GAS_FASTEST)
  {
    var (f, _) :- UseGas(f, GAS_FASTEST);
    FromStack(f, OperandStack.Swap(f.stack, pos))
  }
}
