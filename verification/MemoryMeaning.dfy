// What the instructions do that read or write memory, byte by byte: MLOAD,
// MSTORE, MSTORE8, SHA3, CALLDATALOAD and the copies to memory.
module MemoryMeaning {
  import opened Common
  import opened Params
  import opened Machine
  import opened CallMemory
  import opened Frames
  import opened Interpreter
  import opened Stepping
  import opened StackMeaning
  import PushMeaning
  import OperandStack
  import Arith

  // The step took n words off the stack, put others there, charged some gas and
  // went on; its memory was touched up to a size and got data at an offset.
  ghost predicate Stores(
    c: Ctx, d: Ctx, n: nat, vs: seq<U256>, gas: int, size: nat, off: nat, data: seq<Byte>
  ) {
    && Height(c) >= n && Words(d.cur) == Words(c.cur)[..Height(c) - n] + vs
    && d.cur.gas == c.cur.gas - gas && Stored(c.cur.memory, d.cur.memory, size, off, data)
    && d == c.(cur := c.cur.(
           stack := d.cur.stack, gas := d.cur.gas, memory := d.cur.memory, pc := Wrap64(c.cur.pc + 1)))
  }

  // The same of an operation on a frame.
  ghost predicate Leaves(
    f: Frame, r: FrameOutcome<()>, ok: bool, n: nat, vs: seq<U256>, gas: int, size: nat, off: nat, data: seq<Byte>
  ) {
    && (r.Ok? <==> ok)
    && (ok ==>
          && f.stack.top >= n && f.gas >= gas && Words(r.state) == Words(f)[..f.stack.top - n] + vs
          && Stored(f.memory, r.state.memory, size, off, data)
          && r.state.gas == f.gas - gas
          && r == Ok(f.(stack := r.state.stack, gas := r.state.gas, memory := r.state.memory), ()))
  }

  lemma LeavesStep(
    e: Env, c: Ctx, r: FrameOutcome<()>, ok: bool, n: nat, vs: seq<U256>, gas: int, size: nat, off: nat, data: seq<Byte>
  )
    requires c.status.Running? && FetchedPlain(c)
    requires FrameOp(e, Fetch(c.cur), [], c.cur) == r && Leaves(c.cur, r, ok, n, vs, gas, size, off, data)
    ensures Completes(e, c) <==> ok
    ensures ok ==> Stores(c, Step(e, c), n, vs, gas, size, off, data)
  {
    hide FrameOp, Fetch, Step, Completes, Stored, OnFrameOnly;
    FrameCompletes(e, c);
    if ok {
      FrameStep(e, c, r.state);
    }
  }

  // ---------- slices of a frame's memory ----------

  lemma SliceLeaves(f: Frame, off: U256, len: U256)
    ensures var r := Slice(f, off, len);
      && (r.Ok? <==> off + len <= MAX_MEM_SIZE)
      && (r.Ok? ==>
            && r.state == f.(memory := r.state.memory) && Stored(f.memory, r.state.memory, off + len, 0, [])
            && r.value.1 == Fee(f.memory, off + len)
            && |r.value.0| == len && forall i | 0 <= i < len :: r.value.0[i] == ByteIn(f.memory, off + i))
  {
    hide GetSlice, Stored, Fee, ByteIn;
    SliceExactly(f.memory, off, len);
  }

  lemma StoreLeaves(f: Frame, off: U256, len: U256, data: seq<Byte>)
    ensures var r := StoreSlice(f, off, len, data);
      && (r.Ok? <==> off + len <= MAX_MEM_SIZE)
      && (r.Ok? ==>
            && r.state == f.(memory := r.state.memory)
            && Stored(f.memory, r.state.memory, off + len, off, data[..Min(len, |data|)])
            && r.value == Fee(f.memory, off + len))
  {
    hide Slice, Stored, Fee, Overwrite;
    SliceLeaves(f, off, len);
    if off + len <= MAX_MEM_SIZE {
      OverwriteExactly(f.memory, Slice(f, off, len).state.memory, off + len, off, data[..Min(len, |data|)]);
    }
  }

  // The bytes of a slice, as the memory shows them.
  function Shown(m: Mem, off: nat, len: nat): (s: seq<Byte>)
    ensures |s| == len && forall i | 0 <= i < len :: s[i] == ByteIn(m, off + i)
  {
    if len == 0 then [] else Shown(m, off, len - 1) + [ByteIn(m, off + len - 1)]
  }

  lemma SliceShows(f: Frame, off: U256, len: U256)
    ensures var r := Slice(f, off, len); r.Ok? ==> r.value.0 == Shown(f.memory, off, len)
  {
    hide Slice, Stored, Fee, ByteIn;
    SliceLeaves(f, off, len);
  }

  // A byte string read past its end shows zeros.
  function DataByte(src: Bytes, i: nat): Byte { if i < |src| then src[i] else 0 }

  function Excerpt(src: Bytes, off: nat, len: nat): (s: seq<Byte>)
    ensures |s| == len && forall i | 0 <= i < len :: s[i] == DataByte(src, off + i)
  {
    if len == 0 then [] else Excerpt(src, off, len - 1) + [DataByte(src, off + len - 1)]
  }

  lemma DataShows(src: Bytes, off: U256, len: nat)
    ensures GetData(src, Saturate64(off), len) == Excerpt(src, off, len)
  {
  }

  lemma WordBytes(v: U256, s: seq<Byte>)
    requires |s| == 32
    ensures v == WordFromBE(s) ==> ToBE(v, 32) == s
    ensures ToBE(v, 32) == s ==> v == WordFromBE(s)
  {
    FromBERoundTrip(s);
    Pow256Words();
    BERoundTrip(v, 32);
  }

  // ---------- MLOAD, MSTORE and MSTORE8 ----------

  lemma MemoryDecodes(raw: Byte)
    ensures raw == 0x51 ==> Decode(raw) == MLoadOp
    ensures raw == 0x52 ==> Decode(raw) == MStoreOp
    ensures raw == 0x53 ==> Decode(raw) == MStore8
    ensures raw == 0x20 ==> Decode(raw) == Sha3Op
    ensures raw == 0x35 ==> Decode(raw) == CallDataLoadOp
    ensures raw == 0x37 ==> Decode(raw) == CallDataCopy
    ensures raw == 0x39 ==> Decode(raw) == CodeCopy
    ensures raw == 0x3e ==> Decode(raw) == ReturnDataCopyOp
  {
  }

  predicate IsMemoryOp(op: Opcode) {
    || op.MLoadOp? || op.MStoreOp? || op.MStore8? || op.Sha3Op? || op.CallDataLoadOp? || op.CallDataCopy?
    || op.CodeCopy? || op.ReturnDataCopyOp?
  }

  lemma MemoryDispatch(e: Env, op: Opcode, f: Frame)
    requires op.MLoadOp? || op.MStoreOp? || op.MStore8? || op.Sha3Op?
    ensures FrameOp(e, op, [], f)
         == match op
            case MLoadOp => MLoad(f)
            case MStoreOp => MStore(f, 32)
            case MStore8 => MStore(f, 1)
            case _ => Sha3(e, f)
  {
    hide MLoad, MStore, Sha3, CallDataLoad, CopyToMemory, ReturnDataCopy, EnvOp;
  }

  lemma DataDispatch(e: Env, op: Opcode, f: Frame)
    requires op.CallDataLoadOp? || op.CallDataCopy? || op.CodeCopy? || op.ReturnDataCopyOp?
    ensures FrameOp(e, op, [], f)
         == match op
            case CallDataLoadOp => CallDataLoad(f)
            case CallDataCopy => CopyToMemory(f, f.input, true)
            case CodeCopy => CopyToMemory(f, f.code, false)
            case _ => Since(f, e.From(Byzantium), ReturnDataCopy(f))
  {
    hide MLoad, MStore, Sha3, CallDataLoad, CopyToMemory, ReturnDataCopy, EnvOp;
  }

  lemma MemoryIsPlain(op: Opcode)
    requires IsMemoryOp(op)
    ensures OnFrameOnly(op) && !op.PushOp?
  {
  }

  // The bytes of the memory instructions.
  predicate IsMemory(raw: Byte) {
    0x51 <= raw <= 0x53 || raw == 0x20 || raw == 0x35 || raw == 0x37 || raw == 0x39 || raw == 0x3e
  }

  function MemoryOutcome(e: Env, f: Frame, raw: Byte): FrameOutcome<()> {
    match raw
    case 0x51 => MLoad(f)
    case 0x52 => MStore(f, 32)
    case 0x53 => MStore(f, 1)
    case 0x20 => Sha3(e, f)
    case 0x35 => CallDataLoad(f)
    case 0x37 => CopyToMemory(f, f.input, true)
    case 0x39 => CopyToMemory(f, f.code, false)
    case _ => Since(f, e.From(Byzantium), ReturnDataCopy(f))
  }

  lemma RunsMemory(e: Env, c: Ctx, raw: Byte)
    requires Runs(c, raw) && IsMemory(raw)
    ensures FetchedPlain(c) && FrameOp(e, Fetch(c.cur), [], c.cur) == MemoryOutcome(e, c.cur, raw)
  {
    hide Decode, FrameOp, OnFrameOnly, MLoad, MStore, Sha3, CallDataLoad, CopyToMemory, ReturnDataCopy, Fetch;
    MemoryDecodes(raw);
    if 0x51 <= raw <= 0x53 || raw == 0x20 {
      MemoryDispatch(e, Decode(raw), c.cur);
    } else {
      DataDispatch(e, Decode(raw), c.cur);
    }
    MemoryIsPlain(Decode(raw));
    PushMeaning.RunsPlain(c, raw);
  }

  lemma MLoadLeaves(f: Frame)
    ensures var off: nat := if f.stack.top >= 1 then Below(f, 1) else 0;
      var fee := Fee(f.memory, off + 32);
      Leaves(f, MLoad(f), f.stack.top >= 1 && off + 32 <= MAX_MEM_SIZE && f.gas >= 3 + fee,
             1, [WordFromBE(Shown(f.memory, off, 32))], 3 + fee, off + 32, 0, [])
  {
    hide Slice, Stored, Fee, Shown, WordFromBE, Charges, Local;
    var off: nat := if f.stack.top >= 1 then Below(f, 1) else 0;
    FeeNonNegative(f.memory, off + 32);
    if f.stack.top >= 1 && f.gas >= 3 {
      var g := Drop(f, 1).(gas := f.gas - 3);
      SliceLeaves(g, off, 32);
      SliceShows(g, off, 32);
      assert Words(Drop(f, 1)) == Words(f)[..f.stack.top - 1];
    }
  }

  lemma FeeNonNegative(m: Mem, size: nat)
    ensures Fee(m, size) >= 0
  {
    hide Cost;
    CostMonotone(|m.space| / 32, Touched(m, size) / 32);
  }

  // MLOAD pushes the word of the 32 bytes at its offset.
  lemma MLoadInstruction(e: Env, c: Ctx)
    requires Runs(c, 0x51)
    ensures Completes(e, c)
       <==> Height(c) >= 1 && Word(c, 1) + 32 <= MAX_MEM_SIZE && c.cur.gas >= 3 + Fee(c.cur.memory, Word(c, 1) + 32)
    ensures Completes(e, c) ==>
      var d, off := Step(e, c), Word(c, 1);
      && Stores(c, d, 1, [Top(d)], 3 + Fee(c.cur.memory, off + 32), off + 32, 0, [])
      && ToBE(Top(d), 32) == Shown(c.cur.memory, off, 32)
  {
    hide Fetch, FrameOp, Step, Completes, OnFrameOnly, MLoad, Stored, Fee, Shown, WordFromBE;
    RunsMemory(e, c, 0x51);
    MLoadLeaves(c.cur);
    var off: nat := Top(c);
    if Height(c) >= 1 {
      WordBelow(c, 1);
    }
    var v, fee := WordFromBE(Shown(c.cur.memory, off, 32)), Fee(c.cur.memory, off + 32);
    LeavesStep(e, c, MLoad(c.cur), Height(c) >= 1 && off + 32 <= MAX_MEM_SIZE && c.cur.gas >= 3 + fee,
               1, [v], 3 + fee, off + 32, 0, []);
    WordBytes(v, Shown(c.cur.memory, off, 32));
  }

  lemma MStoreLeaves(f: Frame, width: nat)
    requires width <= 32
    ensures var (off: nat, v) := if f.stack.top >= 2 then (Below(f, 1), Below(f, 2)) else (0, 0);
      var fee := Fee(f.memory, off + width);
      Leaves(f, MStore(f, width), f.stack.top >= 2 && off + width <= MAX_MEM_SIZE && f.gas >= 3 + fee,
             2, [], 3 + fee, off + width, off, ToBE(v, width))
  {
    hide StoreSlice, Stored, Fee, ToBE;
    var (off, v) := if f.stack.top >= 2 then (Below(f, 1), Below(f, 2)) else (0, 0);
    FeeNonNegative(f.memory, off + width);
    if f.stack.top >= 2 && f.gas >= 3 {
      var g := Drop(f, 2).(gas := f.gas - 3);
      StoreLeaves(g, off, width, ToBE(v, width));
      assert ToBE(v, width)[..width] == ToBE(v, width);
      assert Words(Drop(f, 2)) == Words(f)[..f.stack.top - 2] + [];
    }
  }

  // MSTORE puts the 32 bytes of its word at its offset, MSTORE8 the lowest one.
  lemma MStoreInstruction(e: Env, c: Ctx, raw: Byte)
    requires Runs(c, raw) && (raw == 0x52 || raw == 0x53)
    ensures var width := if raw == 0x52 then 32 else 1;
      && (Completes(e, c)
          <==> Height(c) >= 2 && Word(c, 1) + width <= MAX_MEM_SIZE
               && c.cur.gas >= 3 + Fee(c.cur.memory, Word(c, 1) + width))
      && (Completes(e, c) ==>
            var off, v := Word(c, 1), Word(c, 2);
            Stores(c, Step(e, c), 2, [], 3 + Fee(c.cur.memory, off + width), off + width,
                   off, if raw == 0x52 then ToBE(v, 32) else [v % 256]))
  {
    hide Fetch, FrameOp, Step, Completes, OnFrameOnly, MStore, Stored, Fee;
    var width := if raw == 0x52 then 32 else 1;
    RunsMemory(e, c, raw);
    MStoreLeaves(c.cur, width);
    var (off, v) := if Height(c) >= 2 then (Word(c, 1), Word(c, 2)) else (0, 0);
    if Height(c) >= 2 {
      WordBelow(c, 1);
      WordBelow(c, 2);
    }
    var fee := Fee(c.cur.memory, off + width);
    LowestByte(v);
    hide ToBE;
    LeavesStep(e, c, MStore(c.cur, width), Height(c) >= 2 && off + width <= MAX_MEM_SIZE && c.cur.gas >= 3 + fee,
               2, [], 3 + fee, off + width, off, ToBE(v, width));
  }

  lemma LowestByte(v: nat)
    ensures ToBE(v, 1) == [v % 256]
  {
    assert ToBE(v / 256, 0) == [];
  }

  // Reading back: an MLOAD at the offset of a completed MSTORE pushes its word,
  // whatever ran in between, as long as the 32 bytes are still there.
  lemma StoreThenLoad(e: Env, c: Ctx, d: Ctx, later: Ctx, after: Ctx)
    requires Runs(c, 0x52) && Completes(e, c) && d == Step(e, c)
    requires Runs(later, 0x51) && Completes(e, later) && after == Step(e, later)
    requires Height(c) >= 2 && Height(later) >= 1 && Word(later, 1) == Word(c, 1)
    requires forall i: nat | Word(c, 1) <= i < Word(c, 1) + 32 :: ByteIn(later.cur.memory, i) == ByteIn(d.cur.memory, i)
    ensures Top(after) == Word(c, 2)
  {
    hide Step, Completes, Fee, ToBE;
    MStoreInstruction(e, c, 0x52);
    MLoadInstruction(e, later);
    var off, v := Word(c, 1), Word(c, 2);
    assert Shown(later.cur.memory, off, 32) == ToBE(v, 32);
    SameWords(Top(after), v);
  }

  lemma SameWords(v: U256, w: U256)
    requires ToBE(v, 32) == ToBE(w, 32)
    ensures v == w
  {
    Pow256Words();
    BERoundTrip(v, 32);
    BERoundTrip(w, 32);
  }

  // ---------- SHA3, CALLDATALOAD and the copies ----------

  function Words32(len: nat): nat { (len + 31) / 32 }

  lemma PaysWords(f: Frame, len: nat, gas: nat)
    requires len <= MAX_MEM_SIZE && gas <= 6
    ensures len % TWO_64 == len
    ensures PayWords(f, ToWordSize(len), gas) == UseGas(f, gas * Words32(len))
  {
    assert ToWordSize(len) == Words32(len);
    Arith.MulMono(gas, 6, Words32(len));
    assert Words32(len) * gas == gas * Words32(len);
  }

  // What is left of a frame that paid for a hash.
  lemma Sha3Outcome(e: Env, f: Frame)
    requires f.stack.top >= 2 && Below(f, 1) + Below(f, 2) <= MAX_MEM_SIZE
    ensures var a := GetSlice(f.memory, Below(f, 1), Below(f, 2));
      && a.Done?
      && var r, price := Sha3(e, f), 30 + 6 * Words32(Below(f, 2)) + a.value.1;
         && (r.Ok? <==> f.gas >= price)
         && (r.Ok? ==>
               r == Ok(f.(stack := OperandStack.PushWord(Drop(f, 2).stack, e.keccak(a.value.0)).stack,
                          gas := f.gas - price, memory := a.mem), ()))
  {
    hide GetSlice;
    SliceExactly(f.memory, Below(f, 1), Below(f, 2));
    FeeNonNegative(f.memory, Below(f, 1) + Below(f, 2));
    var a := GetSlice(f.memory, Below(f, 1), Below(f, 2));
    var g := Drop(f, 2).(gas := if f.gas >= 30 then f.gas - 30 else 0, memory := a.mem);
    PaysWords(Push(g, e.keccak(a.value.0)).state, Below(f, 2), 6);
    hide Fee, Stored, ByteIn, ToWordSize, Words32, Charges, Local, OperandStack.PushWord, PayWords;
  }

  lemma Sha3Leaves(e: Env, f: Frame)
    ensures var (off: nat, len: nat) := if f.stack.top >= 2 then (Below(f, 1), Below(f, 2)) else (0, 0);
      var price := 30 + 6 * Words32(len) + Fee(f.memory, off + len);
      Leaves(f, Sha3(e, f), f.stack.top >= 2 && off + len <= MAX_MEM_SIZE && f.gas >= price,
             2, [e.keccak(Shown(f.memory, off, len))], price, off + len, 0, [])
  {
    hide GetSlice, Stored, Fee, Shown, Words32, Charges, Local;
    var (off: nat, len: nat) := if f.stack.top >= 2 then (Below(f, 1), Below(f, 2)) else (0, 0);
    SliceExactly(f.memory, off, len);
    if f.stack.top >= 2 && off + len <= MAX_MEM_SIZE {
      hide Sha3;
      Sha3Outcome(e, f);
      GrantedShows(f.memory, off, len);
      Repushed(f, 2, e.keccak(Shown(f.memory, off, len)));
    }
  }

  lemma GrantedShows(m: Mem, off: U256, len: U256)
    requires off + len <= MAX_MEM_SIZE
    ensures var r := GetSlice(m, off, len); r.Done? && r.value.0 == Shown(m, off, len)
  {
    hide GetSlice, Stored, Fee, ByteIn;
    SliceExactly(m, off, len);
  }

  lemma PaysCopy(len: nat)
    requires len <= MAX_MEM_SIZE
    ensures forall g: Frame :: PayWords(g, ToWordSize(len), 3) == UseGas(g, 3 * Words32(len))
  {
    forall g: Frame ensures PayWords(g, ToWordSize(len), 3) == UseGas(g, 3 * Words32(len)) {
      PaysWords(g, len, 3);
    }
  }

  // SHA3 pushes the hash of the bytes of its slice.
  lemma Sha3Instruction(e: Env, c: Ctx)
    requires Runs(c, 0x20)
    ensures var (off: nat, len: nat) := if Height(c) >= 2 then (Word(c, 1), Word(c, 2)) else (0, 0);
      var price := 30 + 6 * Words32(len) + Fee(c.cur.memory, off + len);
      && (Completes(e, c) <==> Height(c) >= 2 && off + len <= MAX_MEM_SIZE && c.cur.gas >= price)
      && (Completes(e, c) ==>
            Stores(c, Step(e, c), 2, [e.keccak(Shown(c.cur.memory, off, len))], price, off + len, 0, []))
  {
    hide Fetch, FrameOp, Step, Completes, OnFrameOnly, Sha3, Stored, Fee, Shown;
    RunsMemory(e, c, 0x20);
    Sha3Leaves(e, c.cur);
    var (off: nat, len: nat) := if Height(c) >= 2 then (Word(c, 1), Word(c, 2)) else (0, 0);
    if Height(c) >= 2 {
      WordBelow(c, 1);
      WordBelow(c, 2);
    }
    var price := 30 + 6 * Words32(len) + Fee(c.cur.memory, off + len);
    LeavesStep(e, c, Sha3(e, c.cur), Height(c) >= 2 && off + len <= MAX_MEM_SIZE && c.cur.gas >= price,
               2, [e.keccak(Shown(c.cur.memory, off, len))], price, off + len, 0, []);
  }

  lemma CallDataLoadYields(f: Frame)
    ensures var off: nat := if f.stack.top >= 1 then Below(f, 1) else 0;
      Yields(f, CallDataLoad(f), f.stack.top >= 1 && f.gas >= 3, 1, [WordFromBE(Excerpt(f.input, off, 32))], 3)
  {
    hide WordFromBE;
    if f.stack.top >= 1 && f.gas >= 3 {
      var off, g := Below(f, 1), f.(gas := f.gas - 3);
      DataShows(f.input, off, 32);
      FarWord(f.input, off);
      Repushed(g, 1, WordFromBE(Excerpt(f.input, off, 32)));
    }
  }

  // Far past its end a byte string shows the word zero.
  lemma FarWord(src: Bytes, off: U256)
    ensures off >= TWO_64 ==> WordFromBE(Excerpt(src, off, 32)) == 0
  {
    if off >= TWO_64 {
      assert Excerpt(src, off, 32) == Zeros(32);
      ZeroWord(32);
    }
  }

  lemma {:induction false} ZeroWord(n: nat)
    ensures FromBE(Zeros(n)) == 0
  {
    if n > 0 {
      assert Zeros(n)[..n - 1] == Zeros(n - 1);
      ZeroWord(n - 1);
    }
  }

  // CALLDATALOAD pushes 32 bytes of the input, zeros past its end.
  lemma CallDataLoadInstruction(e: Env, c: Ctx)
    requires Runs(c, 0x35)
    ensures Completes(e, c) <==> Height(c) >= 1 && c.cur.gas >= 3
    ensures Completes(e, c) ==>
      var d := Step(e, c);
      Replaces(c, d, 1, [Top(d)], 3, 0) && ToBE(Top(d), 32) == Excerpt(c.cur.input, Word(c, 1), 32)
  {
    hide Fetch, FrameOp, Step, Completes, OnFrameOnly, CallDataLoad, WordFromBE, Excerpt;
    RunsMemory(e, c, 0x35);
    CallDataLoadYields(c.cur);
    var off: nat := Top(c);
    if Height(c) >= 1 {
      WordBelow(c, 1);
    }
    var v := WordFromBE(Excerpt(c.cur.input, off, 32));
    YieldsStep(e, c, CallDataLoad(c.cur), Height(c) >= 1 && c.cur.gas >= 3, 1, [v], 3, 0);
    WordBytes(v, Excerpt(c.cur.input, off, 32));
  }

  lemma CopyLeaves(f: Frame, src: Bytes, memoryFeeFirst: bool)
    ensures var (to: nat, off: nat, len: nat) :=
        if f.stack.top >= 3 then (Below(f, 1), Below(f, 2), Below(f, 3)) else (0, 0, 0);
      var price := 3 + 3 * Words32(len) + Fee(f.memory, to + len);
      var ok := f.stack.top >= 3 && to + len <= MAX_MEM_SIZE && f.gas >= price;
      Leaves(f, CopyToMemory(f, src, memoryFeeFirst), ok,
             3, [], price, to + len, to, if ok then Excerpt(src, off, len) else [])
  {
    hide StoreSlice, Stored, Fee, Excerpt, GetData, Charges, Local, PayWords, ToWordSize;
    var (to: nat, off: nat, len: nat) :=
      if f.stack.top >= 3 then (Below(f, 1), Below(f, 2), Below(f, 3)) else (0, 0, 0);
    FeeNonNegative(f.memory, to + len);
    if f.stack.top >= 3 && f.gas >= 3 {
      var g := Drop(f, 3).(gas := f.gas - 3);
      DataShows(src, off, len);
      StoreLeaves(g, to, len, GetData(src, Saturate64(off), len));
      if to + len <= MAX_MEM_SIZE {
        PaysCopy(len);
        assert GetData(src, Saturate64(off), len)[..len] == GetData(src, Saturate64(off), len);
      }
      assert Words(Drop(f, 3)) == Words(f)[..f.stack.top - 3] + [];
    }
  }

  // CALLDATACOPY and CODECOPY put bytes of the input or of the code in memory,
  // zeros past their end.
  lemma CopyInstruction(e: Env, c: Ctx, raw: Byte)
    requires Runs(c, raw) && (raw == 0x37 || raw == 0x39)
    ensures var (to: nat, off: nat, len: nat) :=
        if Height(c) >= 3 then (Word(c, 1), Word(c, 2), Word(c, 3)) else (0, 0, 0);
      var price := 3 + 3 * Words32(len) + Fee(c.cur.memory, to + len);
      && (Completes(e, c) <==> Height(c) >= 3 && to + len <= MAX_MEM_SIZE && c.cur.gas >= price)
      && (Completes(e, c) ==>
            Stores(c, Step(e, c), 3, [], price, to + len, to,
                   Excerpt(if raw == 0x37 then c.cur.input else c.cur.code, off, len)))
  {
    hide Fetch, FrameOp, Step, Completes, OnFrameOnly, CopyToMemory, Stored, Fee, Excerpt;
    RunsMemory(e, c, raw);
    var src := if raw == 0x37 then c.cur.input else c.cur.code;
    CopyLeaves(c.cur, src, raw == 0x37);
    var (to: nat, off: nat, len: nat) := if Height(c) >= 3 then (Word(c, 1), Word(c, 2), Word(c, 3)) else (0, 0, 0);
    if Height(c) >= 3 {
      WordBelow(c, 1);
      WordBelow(c, 2);
      WordBelow(c, 3);
    }
    var price := 3 + 3 * Words32(len) + Fee(c.cur.memory, to + len);
    var ok := Height(c) >= 3 && to + len <= MAX_MEM_SIZE && c.cur.gas >= price;
    LeavesStep(e, c, CopyToMemory(c.cur, src, raw == 0x37), ok,
               3, [], price, to + len, to, if ok then Excerpt(src, off, len) else []);
  }

  lemma ReturnCopyLeaves(f: Frame)
    ensures var (to: nat, off: nat, len: nat) :=
        if f.stack.top >= 3 then (Below(f, 1), Below(f, 2), Below(f, 3)) else (0, 0, 0);
      var price := 3 + 3 * Words32(len) + Fee(f.memory, to + len);
      var ok := f.stack.top >= 3 && off + len <= |f.lastReturned| && to + len <= MAX_MEM_SIZE && f.gas >= price;
      Leaves(f, ReturnDataCopy(f), ok, 3, [], price, to + len, to, if ok then f.lastReturned[off..off + len] else [])
  {
    hide StoreSlice, Stored, Fee, Charges, Local, PayWords, ToWordSize;
    var (to: nat, off: nat, len: nat) :=
      if f.stack.top >= 3 then (Below(f, 1), Below(f, 2), Below(f, 3)) else (0, 0, 0);
    FeeNonNegative(f.memory, to + len);
    if f.stack.top >= 3 && f.gas >= 3 {
      var g := Drop(f, 3).(gas := f.gas - 3);
      ReturnDataEnd(off, len);
      var end := (off + len) % TWO_256;
      var data := if off <= end <= |f.lastReturned| then f.lastReturned[off..end] else [];
      StoreLeaves(g, to, len, data);
      if to + len <= MAX_MEM_SIZE {
        PaysCopy(len);
      }
      assert data[..|data|] == data;
      assert Words(Drop(f, 3)) == Words(f)[..f.stack.top - 3] + [];
    }
  }

  // Where the end of the returned data wraps, it is far too long for memory.
  lemma ReturnDataEnd(off: U256, len: U256)
    ensures off + len < TWO_256 ==> (off + len) % TWO_256 == off + len
    ensures off + len >= TWO_256 && off < TWO_64 ==> len > MAX_MEM_SIZE
  {
  }

  // RETURNDATACOPY puts bytes of what the last call returned in memory, and fails
  // past their end.
  lemma ReturnDataCopyInstruction(e: Env, c: Ctx)
    requires Runs(c, 0x3e)
    ensures var (to: nat, off: nat, len: nat) :=
        if Height(c) >= 3 then (Word(c, 1), Word(c, 2), Word(c, 3)) else (0, 0, 0);
      var price := 3 + 3 * Words32(len) + Fee(c.cur.memory, to + len);
      && (Completes(e, c)
          <==> e.From(Byzantium) && Height(c) >= 3 && off + len <= |c.cur.lastReturned|
               && to + len <= MAX_MEM_SIZE && c.cur.gas >= price)
      && (Completes(e, c) ==>
            Stores(c, Step(e, c), 3, [], price, to + len, to, c.cur.lastReturned[off..off + len]))
  {
    hide Fetch, FrameOp, Step, Completes, OnFrameOnly, ReturnDataCopy, Stored, Fee;
    RunsMemory(e, c, 0x3e);
    ReturnCopyLeaves(c.cur);
    var (to: nat, off: nat, len: nat) := if Height(c) >= 3 then (Word(c, 1), Word(c, 2), Word(c, 3)) else (0, 0, 0);
    if Height(c) >= 3 {
      WordBelow(c, 1);
      WordBelow(c, 2);
      WordBelow(c, 3);
    }
    var price := 3 + 3 * Words32(len) + Fee(c.cur.memory, to + len);
    var ok := Height(c) >= 3 && off + len <= |c.cur.lastReturned| && to + len <= MAX_MEM_SIZE && c.cur.gas >= price;
    if e.From(Byzantium) {
      LeavesStep(e, c, ReturnDataCopy(c.cur), ok,
                 3, [], price, to + len, to, if ok then c.cur.lastReturned[off..off + len] else []);
    } else {
      FrameCompletes(e, c);
    }
  }
}
