// The operand stack of a call frame (src/core/stack.rs): a fixed block of
// slots and the number in use. Slots above the top keep their old words.
module OperandStack {
  import opened Common
  import opened Params

  datatype RawStack = Words(slots: seq<U256>, top: nat)

  type Stack = s: RawStack | |s.slots| == MAX_STACK_DEPTH && s.top <= MAX_STACK_DEPTH
    witness Words(seq(MAX_STACK_DEPTH, _ => 0), 0)

  function Empty(): Stack { Words(seq(MAX_STACK_DEPTH, _ => 0), 0) }

  // The words on the stack, the top one last.
  function Contents(s: Stack): seq<U256> { s.slots[..s.top] }

  datatype StackResult = Done(stack: Stack) | Overflow | Underflow | OutOfBounds

  function PushWord(s: Stack, v: U256): (r: StackResult)
    ensures r.Done? <==> s.top < MAX_STACK_DEPTH
    ensures r.Done? ==> Contents(r.stack) == Contents(s) + [v]
    ensures !r.Done? ==> r.Overflow?
  {
    if s.top == MAX_STACK_DEPTH then Overflow
    else Done(Words(s.slots[s.top := v], s.top + 1))
  }

  // The slot is read before the room is checked, so depth 0 on a full stack
  // reads past the block.
  function Dup(s: Stack, pos: nat): StackResult {
    if pos > s.top then Underflow
    else if s.top - pos == MAX_STACK_DEPTH then OutOfBounds
    else PushWord(s, s.slots[s.top - pos])
  }

  function Swap(s: Stack, pos: nat): StackResult {
    if pos + 1 > s.top then Underflow
    else
      var t := s.top - 1;
      Done(s.(slots := s.slots[t := s.slots[t - pos]][t - pos := s.slots[t]]))
  }

  // DUP and SWAP on the words themselves, for the depths instructions use.
  lemma DupSwapMeaning(s: Stack, pos: nat)
    requires 0 < pos <= s.top
    ensures s.top < MAX_STACK_DEPTH ==>
      Dup(s, pos).Done? && Contents(Dup(s, pos).stack) == Contents(s) + [Contents(s)[s.top - pos]]
    ensures pos < s.top ==>
      && Swap(s, pos).Done?
      && Contents(Swap(s, pos).stack)
         == Contents(s)[s.top - 1 := Contents(s)[s.top - 1 - pos]][s.top - 1 - pos := Contents(s)[s.top - 1]]
      && Swap(Swap(s, pos).stack, pos) == Done(s)
  {
  }

  // The source's block of slots and its top index, updated in place.
  class Operands {
    const slots: array<U256>
    var top: nat

    ghost predicate Valid() reads this {
      slots.Length == MAX_STACK_DEPTH && top <= MAX_STACK_DEPTH
    }

    ghost function Model(): Stack
      requires Valid()
      reads this, slots
    {
      Words(slots[..], top)
    }

    constructor ()
      ensures Valid() && Model() == Empty() && fresh(slots)
    {
      slots := new U256[MAX_STACK_DEPTH](_ => 0);
      top := 0;
      new;
      assert slots[..] == Empty().slots;
    }

    method Push(v: U256) returns (ok: bool)
      requires Valid()
      modifies this, slots
      ensures Valid() && ok == (old(top) < MAX_STACK_DEPTH)
      ensures ok ==> PushWord(old(Model()), v) == Done(Model())
      ensures !ok ==> Model() == old(Model())
    {
      ok := top < MAX_STACK_DEPTH;
      if ok {
        slots[top] := v;
        top := top + 1;
      }
    }

    method Exchange(pos: nat) returns (ok: bool)
      requires Valid()
      modifies slots
      ensures Valid() && ok == (pos + 1 <= top)
      ensures ok ==> Swap(old(Model()), pos) == Done(Model())
      ensures !ok ==> Model() == old(Model())
    {
      ok := pos + 1 <= top;
      if ok {
        var t := top - 1;
        slots[t], slots[t - pos] := slots[t - pos], slots[t];
      }
    }

    method Duplicate(pos: nat) returns (ok: bool)
      requires Valid() && top - pos < MAX_STACK_DEPTH
      modifies this, slots
      ensures Valid()
      ensures ok <==> Dup(old(Model()), pos).Done?
      ensures ok ==> Dup(old(Model()), pos) == Done(Model())
      ensures !ok ==> Model() == old(Model())
    {
      ok := pos <= top;
      if ok {
        ok := Push(slots[top - pos]);
      }
    }

    // Removes n words; the source's consume1 to consume4 return them top first.
    method Consume(n: nat) returns (ok: bool, words: seq<U256>)
      requires Valid()
      modifies this
      ensures Valid() && ok == (n <= old(top))
      ensures ok ==> Contents(old(Model())) == Contents(Model()) + words && |words| == n
      ensures Model().slots == old(Model()).slots
      ensures !ok ==> Model() == old(Model())
    {
      ok, words := n <= top, [];
      if ok {
        words := slots[top - n..top];
        top := top - n;
      }
    }
  }
}
