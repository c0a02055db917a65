// Byte code with its table of instruction starts (src/common.rs,
// src/core/exec.rs): which positions hold opcodes and which hold PUSH data.
module PlainCode {
  import opened Common

  const PUSH1: Byte := 0x60
  const PUSH32: Byte := 0x7f
  const JUMPDEST: Byte := 0x5b

  // How many bytes the instruction with this opcode byte takes.
  function Width(opcode: Byte): nat {
    if PUSH1 <= opcode <= PUSH32 then opcode - PUSH1 + 2 else 1
  }

  // Position i is reached from 0 by stepping over whole instructions: the
  // valid-destination walk of the Yellow Paper, section 9.4.3.
  predicate IsStart(code: Bytes, i: nat)
    decreases i
  {
    i == 0 || exists j: nat | j < i :: j < |code| && j + Width(code[j]) == i && IsStart(code, j)
  }

  lemma NextIsStart(code: Bytes, j: nat)
    requires IsStart(code, j) && j < |code|
    ensures IsStart(code, j + Width(code[j]))
  {
  }

  // No start lies inside another instruction.
  lemma {:induction false} StartsDoNotOverlap(code: Bytes, i: nat, j: nat)
    requires IsStart(code, i) && IsStart(code, j) && i < j && i < |code|
    ensures i + Width(code[i]) <= j
    decreases i + j
  {
    var k: nat :| k < j && k < |code| && k + Width(code[k]) == j && IsStart(code, k);
    if i < k {
      StartsDoNotOverlap(code, i, k);
    } else if k < i {
      StartsDoNotOverlap(code, k, i);
    }
  }

  method GenCodeBitmap(code: Bytes) returns (bitmap: seq<bool>)
    ensures |bitmap| == |code|
    ensures forall i: nat :: i < |code| ==> (bitmap[i] <==> IsStart(code, i))
  {
    bitmap := [];
    var skip: nat := 0;
    ghost var next := 0;
    for i := 0 to |code|
      invariant |bitmap| == i
      invariant forall k: nat :: k < i ==> (bitmap[k] <==> IsStart(code, k))
      invariant next == i + skip && IsStart(code, next)
      invariant forall k: nat :: i <= k < next ==> !IsStart(code, k)
    {
      if skip > 0 {
        bitmap := bitmap + [false];
        skip := skip - 1;
      } else {
        bitmap := bitmap + [true];
        NextIsStart(code, i);
        forall k: nat | i < k < i + Width(code[i])
          ensures !IsStart(code, k)
        {
          if IsStart(code, k) {
            StartsDoNotOverlap(code, i, k);
          }
        }
        next := i + Width(code[i]);
        skip := Width(code[i]) - 1;
      }
    }
  }

  // The destination test of the source, on the table it computes.
  predicate ValidJumpDest(code: Bytes, dest: U256) {
    dest < TWO_64 && dest < |code| && IsStart(code, dest) && code[dest] == JUMPDEST
  }
}
