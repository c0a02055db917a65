// Fork ordering, limits and the gas schedule.
module Params {

  datatype Fork =
    | Frontier
    | Homestead
    | TangerineWhistle
    | SpuriousDragon
    | Byzantium
    | Constantinople
    | Istanbul
    | Berlin
    | London
  {
    function Rank(): nat {
      match this
      case Frontier => 0
      case Homestead => 1
      case TangerineWhistle => 2
      case SpuriousDragon => 3
      case Byzantium => 4
      case Constantinople => 5
      case Istanbul => 6
      case Berlin => 7
      case London => 8
    }

    predicate AtLeast(that: Fork) { Rank() >= that.Rank() }
  }

  // The forks in the order of their activation.
  const FORKS: seq<Fork> :=
    [Frontier, Homestead, TangerineWhistle, SpuriousDragon, Byzantium, Constantinople, Istanbul, Berlin, London]

  // A rule that holds from a fork on holds in exactly those activated no earlier.
  lemma ForksInOrder(i: nat, j: nat)
    requires i < |FORKS| && j < |FORKS|
    ensures FORKS[i].AtLeast(FORKS[j]) <==> i >= j
  {
    assert FORKS[i].Rank() == i && FORKS[j].Rank() == j;
  }

  const MAX_CALL_DEPTH: nat := 1024
  const MAX_STACK_DEPTH: nat := 1024
  const MAX_CODE_SIZE: nat := 24576
  const MAX_MEM_SIZE: nat := 0x1f_ffff_ffe0

  const GAS_QUICK: nat := 2
  const GAS_FASTEST: nat := 3
  const GAS_FAST: nat := 5
  const GAS_SHA3: nat := 30
  const GAS_COPY_WORD: nat := 3
  const GAS_SHA3_WORD: nat := 6
  const GAS_MID: nat := 8
  const GAS_SLOW: nat := 10
  const GAS_EXT: nat := 20
  const GAS_EXT_BASE_FRONTIER: nat := 20
  const GAS_EXT_BASE_TANGERINE: nat := 700
  const GAS_LOG: nat := 375
  const GAS_LOG_TOPIC: nat := 375
  const GAS_LOG_DATA: nat := 8
  const GAS_CREATE: nat := 32000
  const GAS_CREATE2: nat := 32000
  const GAS_CALL_FRONTIER: nat := 40
  const GAS_CALL_TANGERINE: nat := 700
  const GAS_CALL_STIPEND: nat := 2300
  const GAS_CALL_NEW_ACCOUNT: nat := 25000
  const GAS_CALL_VALUE_TRANS: nat := 9000
  const GAS_CREATE_DATA: nat := 200
  const GAS_MEM_RESIZE_WORD: nat := 3
  const GAS_JUMPDEST: nat := 1
  const GAS_EXP_BYTE_FRONTIER: nat := 10
  const GAS_EXP_BYTE_SPURIOUS_DRAGON: nat := 50
  const QUAD_COEF_DIV: nat := 512
  const GAS_SELF_DESTRUCT: nat := 5000
  const GAS_CREATE_BY_SELF_DESTRUCT: nat := 25000
  const GAS_BALANCE_FRONTIER: nat := 20
  const GAS_BALANCE_TANGERINE: nat := 400
  const GAS_BALANCE_ISTANBUL: nat := 700
  const GAS_EXT_CODE_SIZE_FRONTIER: nat := 20
  const GAS_EXT_CODE_SIZE_TANGERINE: nat := 700
  const GAS_SLOAD_FRONTIER: nat := 50
  const GAS_SLOAD_TANGERINE: nat := 200
  const GAS_SLOAD_ISTANBUL: nat := 800
  const GAS_EXT_CODE_HASH_CONSTANTINOPLE: nat := 400
  const GAS_EXT_CODE_HASH_ISTANBUL: nat := 700
  const GAS_SSTORE_SET: nat := 20000
  const GAS_SSTORE_RESET: nat := 5000
  const GAS_SSTORE_CLEAR: nat := 5000
  const GAS_SSTORE_REFUND: nat := 15000
  const GAS_SSTORE_SET_ISTANBUL: nat := 20000
  const GAS_SSTORE_RESET_ISTANBUL: nat := 5000
  const GAS_SSTORE_REFUND_ISTANBUL: nat := 15000
  const GAS_SSTORE_SENTRY_ISTANBUL: nat := 2300
  const GAS_WARM_STORAGE_READ_COST_BERLIN: nat := 100
  const GAS_COLD_SLOAD_COST_BERLIN: nat := 2100
  const GAS_COLD_ACCOUNT_ACCESS_COST_BERLIN: nat := 2600
  const GAS_SELF_DESTRUCT_REFUND: nat := 24000
  const GAS_TX_ACCESS_LIST_STORAGE_KEY: nat := 1900
  const GAS_SSTORE_REFUND_LONDON: nat :=
    GAS_SSTORE_RESET_ISTANBUL - GAS_COLD_SLOAD_COST_BERLIN + GAS_TX_ACCESS_LIST_STORAGE_KEY
  const GAS_TX: nat := 21000
}
