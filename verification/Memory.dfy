// The byte-addressed memory of a call frame (src/core/memory.rs): it grows by
// whole words and charges a fee quadratic in the number of words.
module CallMemory {
  import opened Common
  import opened Params
  import Arith

  const MAX_WORDS: nat := 0xffff_ffff

  datatype RawMem = Mem(space: seq<Byte>, lastGas: nat)

  // The memory's length is whole words and lastGas is their total cost.
  predicate WholeWords(m: RawMem) {
    && |m.space| <= MAX_MEM_SIZE
    && |m.space| % 32 == 0
    && m.lastGas == Cost(|m.space| / 32)
  }

  type Mem = m: RawMem | WholeWords(m) witness Mem([], 0)

  const EMPTY: Mem := Mem([], 0)

  // The cost of w words: the C_mem function of the Yellow Paper, appendix H.1.
  function Cost(w: nat): nat {
    GAS_MEM_RESIZE_WORD * w + w * w / QUAD_COEF_DIV
  }

  lemma CostMonotone(v: nat, w: nat)
    requires v <= w
    ensures Cost(v) <= Cost(w)
  {
    Arith.MulMono(v, w, v);
    Arith.MulMono(v, w, w);
  }

  // A memory of whole words that is too small is so by whole words.
  lemma WholeGrowth(was: nat, size: nat, words: nat)
    requires was % 32 == 0 && was < size <= 32 * words
    ensures was < words * 32 && words * 32 / 32 == words && words * 32 % 32 == 0 && Cost(was / 32) <= Cost(words)
  {
    hide Cost;
    CostMonotone(was / 32, words);
  }

  function ToWordSize(size: U64): (w: nat)
    ensures size <= 32 * w < size + 32
  {
    if size > TWO_64 - 1 - 31 then (TWO_64 - 1) / 32 + 1 else (size + 31) / 32
  }

  datatype Access<+T> = Done(mem: Mem, value: T) | OutOfMemory | Overflow

  // The words of a memory of m after room for size bytes was requested.
  function Resized(m: Mem, size: nat): (r: Mem)
    requires size <= MAX_MEM_SIZE
    ensures |r.space| >= size && m.space <= r.space
  {
    if size <= |m.space| then m
    else
      var words := ToWordSize(size);
      Mem(m.space + Zeros(32 * words - |m.space|), Cost(words))
  }

  // Room for size bytes; the value is the fee for the growth.
  function Grow(m: Mem, size: U256): (r: Access<nat>)
    ensures r.Done? ==> r.value == r.mem.lastGas - m.lastGas && m.space <= r.mem.space
    ensures r.Done? ==> size <= |r.mem.space|
    ensures !r.Overflow?
  {
    if size > MAX_MEM_SIZE then OutOfMemory
    else
      var m' := Resized(m, size);
      CostMonotone(|m.space| / 32, |m'.space| / 32);
      Done(m', m'.lastGas - m.lastGas)
  }

  // The bytes at [off, off + len) of the grown memory, with the fee. The
  // addition of the bounds is checked and aborts on overflow.
  function GetSlice(m: Mem, off: U256, len: U256): (r: Access<(Bytes, nat)>)
    ensures r.Done? ==> off + len <= |r.mem.space| && |r.value.0| == len
    ensures r.Done? ==> r.value.1 == r.mem.lastGas - m.lastGas && m.space <= r.mem.space
  {
    if off + len >= TWO_256 then Overflow
    else
      match Grow(m, off + len)
      case Done(m', fee) => Done(m', (m'.space[off..off + len], fee))
      case OutOfMemory => OutOfMemory
  }

  // Bytes written over the memory at an offset where they fit.
  function Overwrite(m: Mem, off: nat, data: seq<Byte>): Mem
    requires off + |data| <= |m.space|
  {
    m.(space := m.space[..off] + data + m.space[off + |data|..])
  }

  // Copies as much of data as the slice [off, off + len) holds.
  function CopyIn(m: Mem, off: U256, len: U256, data: seq<Byte>): (r: Access<nat>)
    ensures r.Done? ==> r.value == r.mem.lastGas - m.lastGas
  {
    match GetSlice(m, off, len)
    case Done(m', (_, fee)) => Done(Overwrite(m', off, data[..Min(len, |data|)]), fee)
    case OutOfMemory => OutOfMemory
    case Overflow => Overflow
  }

  // ---------- byte by byte ----------

  // The byte at an address; what has not been touched is zero.
  function ByteIn(m: Mem, i: nat): Byte {
    if i < |m.space| then m.space[i] else 0
  }

  function RoundUp(size: nat): nat { (size + 31) / 32 * 32 }

  // How long the memory is once some size was touched, and what that costs.
  function Touched(m: Mem, size: nat): nat {
    if size <= |m.space| then |m.space| else RoundUp(size)
  }

  function Fee(m: Mem, size: nat): int { Cost(Touched(m, size) / 32) - Cost(|m.space| / 32) }

  // The memory after a size was touched and data written at an offset.
  ghost predicate Stored(m: Mem, after: Mem, size: nat, off: nat, data: seq<Byte>) {
    && |after.space| == Touched(m, size)
    && forall i | 0 <= i < |after.space| ::
         after.space[i] == if off <= i < off + |data| then data[i - off] else ByteIn(m, i)
  }

  lemma TouchedMore(m: Mem, size: nat)
    requires size <= MAX_MEM_SIZE
    ensures var r := Resized(m, size);
      && Stored(m, r, size, 0, []) && r.lastGas - m.lastGas == Fee(m, size)
  {
    hide Cost;
    if size > |m.space| {
      assert 32 * ToWordSize(size) == RoundUp(size);
    }
  }

  // A slice is granted up to the largest memory and shows the bytes that were
  // there, or zeros past their end.
  lemma SliceExactly(m: Mem, off: U256, len: U256)
    ensures var r := GetSlice(m, off, len);
      && (r.Overflow? <==> off + len >= TWO_256)
      && (r.Done? <==> off + len <= MAX_MEM_SIZE)
      && (r.Done? ==>
            && Stored(m, r.mem, off + len, 0, []) && r.value.1 == Fee(m, off + len)
            && |r.value.0| == len && forall i | 0 <= i < len :: r.value.0[i] == ByteIn(m, off + i))
  {
    hide Cost, Fee, Resized;
    if off + len <= MAX_MEM_SIZE {
      TouchedMore(m, off + len);
    }
  }

  // Writing puts the data in its place and leaves every other byte.
  lemma OverwriteExactly(m: Mem, grown: Mem, size: nat, off: nat, data: seq<Byte>)
    requires Stored(m, grown, size, 0, []) && off + |data| <= |grown.space|
    ensures Stored(m, Overwrite(grown, off, data), size, off, data)
  {
  }

  lemma CopyExactly(m: Mem, off: U256, len: U256, data: seq<Byte>)
    ensures var r := CopyIn(m, off, len, data);
      && (r.Overflow? <==> off + len >= TWO_256)
      && (r.Done? <==> off + len <= MAX_MEM_SIZE)
      && (r.Done? ==>
            Stored(m, r.mem, off + len, off, data[..Min(len, |data|)]) && r.value == Fee(m, off + len))
  {
    hide Fee, Stored, Overwrite;
    SliceExactly(m, off, len);
    if off + len <= MAX_MEM_SIZE {
      OverwriteExactly(m, GetSlice(m, off, len).mem, off + len, off, data[..Min(len, |data|)]);
    }
  }

  // ---------- what a run of growth requests costs ----------

  // The memory after a run of requests, and the fees they returned; a refused
  // request changes nothing.
  function ResizeAll(m: Mem, sizes: seq<U256>): (r: (Mem, nat)) {
    if sizes == [] then (m, 0)
    else
      var (m', paid) := ResizeAll(m, sizes[..|sizes| - 1]);
      match Grow(m', sizes[|sizes| - 1])
      case Done(m'', fee) => (m'', paid + fee)
      case OutOfMemory => (m', paid)
  }

  // The largest request that is granted.
  function Largest(sizes: seq<U256>): nat {
    if sizes == [] then 0
    else
      var most, last := Largest(sizes[..|sizes| - 1]), sizes[|sizes| - 1];
      if most < last <= MAX_MEM_SIZE then last else most
  }

  // Over any run of requests the memory ends with just the words the largest
  // granted request needs, all zero, and the fees add up to the cost of those
  // words, whatever the order and the intermediate lengths.
  lemma {:induction false} FeesAddUp(sizes: seq<U256>)
    ensures Largest(sizes) <= MAX_MEM_SIZE
    ensures var (m, paid) := ResizeAll(EMPTY, sizes);
      var words := ToWordSize(Largest(sizes));
      m.space == Zeros(32 * words) && paid == Cost(words) && words <= MAX_WORDS
  {
    hide Cost;
    if sizes == [] {
      assert EMPTY.lastGas == Cost(0);
    } else {
      var prefix, last := sizes[..|sizes| - 1], sizes[|sizes| - 1];
      FeesAddUp(prefix);
      var (m, paid) := ResizeAll(EMPTY, prefix);
      assert paid == m.lastGas;
      if last <= MAX_MEM_SIZE {
        GrowZeros(m, Largest(prefix), last);
      }
    }
  }

  lemma GrowZeros(m: Mem, have: nat, size: nat)
    requires have <= MAX_MEM_SIZE && size <= MAX_MEM_SIZE
    requires m.space == Zeros(32 * ToWordSize(have))
    ensures Resized(m, size).space == Zeros(32 * ToWordSize(if have < size then size else have))
  {
    hide Cost;
    var v, w := ToWordSize(have), ToWordSize(size);
    if |m.space| < size {
      assert Zeros(32 * v) + Zeros(32 * w - 32 * v) == Zeros(32 * w);
    } else if have < size {
      assert v == w;
    }
  }

  // The cost computed in machine words: no product or sum overflows.
  function WordCost(words: nat): (r: U64)
    requires words <= MAX_WORDS
    ensures r == Cost(words)
  {
    assert words * words <= MAX_WORDS * MAX_WORDS by {
      Arith.MulMono(words, MAX_WORDS, words);
      Arith.MulMono(words, MAX_WORDS, MAX_WORDS);
    }
    var sqr: U64 := words * words;
    words * GAS_MEM_RESIZE_WORD + sqr / QUAD_COEF_DIV
  }

  // The memory as the source keeps it: a growing byte vector and the cost of
  // its current length. Every intermediate value is a machine word.
  class Memory {
    var space: seq<Byte>
    var lastGas: U64

    ghost predicate Valid() reads this { WholeWords(Mem(space, lastGas)) }

    ghost function Model(): Mem
      requires Valid()
      reads this
    {
      Mem(space, lastGas)
    }

    constructor ()
      ensures Valid() && Model() == EMPTY
    {
      space, lastGas := [], 0;
    }

    method Resize(size: U256) returns (ok: bool, fee: U64)
      requires Valid()
      modifies this
      ensures Valid()
      ensures ok == (size <= MAX_MEM_SIZE)
      ensures ok ==> Grow(old(Model()), size) == Done(Model(), fee)
      ensures !ok ==> Model() == old(Model())
    {
      if size > MAX_MEM_SIZE {
        return false, 0;
      }
      if size <= |space| {
        return true, 0;
      }
      hide Cost;
      var words: U64 := ToWordSize(size);
      var newSize: U64 := words * 32;
      WholeGrowth(|space|, size, words);
      var newGas := WordCost(words);
      space := space + Zeros(newSize - |space|);
      fee := newGas - lastGas;
      lastGas := newGas;
      ok := true;
    }

    // The copy into a slice: returns the fee, or false when out of memory.
    method Set(off: U256, len: U256, data: seq<Byte>) returns (ok: bool, fee: U64)
      requires Valid() && off + len < TWO_256
      modifies this
      ensures Valid()
      ensures ok == (off + len <= MAX_MEM_SIZE)
      ensures ok ==> CopyIn(old(Model()), off, len, data) == Done(Model(), fee)
      ensures !ok ==> Model() == old(Model())
    {
      ok, fee := Resize(off + len);
      if ok {
        var n := Min(len, |data|);
        space := space[..off] + data[..n] + space[off + n..];
      }
    }
  }
}
