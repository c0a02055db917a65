// Values shared by every component: machine integers, byte strings, and the
// big- and little-endian encodings of integers.
module Common {

  datatype Option<+T> = None | Some(value: T) {
    function GetOr(default: T): T {
      match this
      case Some(v) => v
      case None => default
    }
  }

  const TWO_64: nat := 0x1_0000_0000_0000_0000
  const TWO_160: nat := 0x1_00000000_00000000_00000000_00000000_00000000
  const TWO_255: nat := 0x80000000_00000000_00000000_00000000_00000000_00000000_00000000_00000000
  const TWO_256: nat := 0x1_00000000_00000000_00000000_00000000_00000000_00000000_00000000_00000000

  type Byte = x: int | 0 <= x < 256
  type U64 = x: int | 0 <= x < TWO_64
  type U256 = x: int | 0 <= x < TWO_256
  type Addr = x: int | 0 <= x < TWO_160

  // A vector of bytes; its length fits a machine word.
  type Bytes = s: seq<Byte> | |s| < TWO_64

  // Unchecked 64-bit arithmetic.
  function Wrap64(x: int): (r: U64)
    ensures 0 <= x ==> r <= x
    ensures 0 <= x < TWO_64 ==> r == x
  {
    x % TWO_64
  }

  function CheckedAsU64(x: U256): Option<U64> {
    if x >= TWO_64 then None else Some(x)
  }

  // The low 20 bytes of a word.
  function ToAddr(x: U256): Addr { x % TWO_160 }

  function Min(a: int, b: int): int { if a <= b then a else b }

  function Zeros(n: nat): (s: seq<Byte>)
    ensures |s| == n
  {
    seq(n, _ => 0)
  }

  // ---------- integers as byte strings ----------

  function Pow256(n: nat): nat {
    if n == 0 then 1 else 256 * Pow256(n - 1)
  }

  function FromBE(s: seq<Byte>): nat {
    if s == [] then 0 else FromBE(s[..|s| - 1]) * 256 + s[|s| - 1]
  }

  function ToBE(x: nat, n: nat): (s: seq<Byte>)
    ensures |s| == n
  {
    if n == 0 then [] else ToBE(x / 256, n - 1) + [x % 256]
  }

  function FromLE(s: seq<Byte>): nat {
    if s == [] then 0 else s[0] + 256 * FromLE(s[1..])
  }

  function ToLE(x: nat, n: nat): (s: seq<Byte>)
    ensures |s| == n
  {
    if n == 0 then [] else [x % 256] + ToLE(x / 256, n - 1)
  }

  lemma {:induction false} FromBEBound(s: seq<Byte>)
    ensures FromBE(s) < Pow256(|s|)
  {
    if s != [] {
      FromBEBound(s[..|s| - 1]);
    }
  }

  lemma {:induction false} BERoundTrip(x: nat, n: nat)
    requires x < Pow256(n)
    ensures FromBE(ToBE(x, n)) == x
  {
    if n > 0 {
      BERoundTrip(x / 256, n - 1);
      assert ToBE(x, n)[..n - 1] == ToBE(x / 256, n - 1);
    }
  }

  lemma {:induction false} LERoundTrip(x: nat, n: nat)
    requires x < Pow256(n)
    ensures FromLE(ToLE(x, n)) == x
  {
    if n > 0 {
      LERoundTrip(x / 256, n - 1);
      assert ToLE(x, n)[1..] == ToLE(x / 256, n - 1);
    }
  }

  lemma {:induction false} FromLEBound(s: seq<Byte>)
    ensures FromLE(s) < Pow256(|s|)
  {
    if s != [] {
      FromLEBound(s[1..]);
    }
  }

  lemma {:induction false} FromBERoundTrip(s: seq<Byte>)
    ensures ToBE(FromBE(s), |s|) == s
  {
    if s != [] {
      FromBERoundTrip(s[..|s| - 1]);
      assert s == s[..|s| - 1] + [s[|s| - 1]];
    }
  }

  lemma {:induction false} FromLERoundTrip(s: seq<Byte>)
    ensures ToLE(FromLE(s), |s|) == s
  {
    if s != [] {
      FromLERoundTrip(s[1..]);
      assert s == [s[0]] + s[1..];
    }
  }

  lemma {:induction false} Pow256Add(m: nat, n: nat)
    ensures Pow256(m + n) == Pow256(m) * Pow256(n)
  {
    if m > 0 {
      Pow256Add(m - 1, n);
      assert 256 * (Pow256(m - 1) * Pow256(n)) == 256 * Pow256(m - 1) * Pow256(n);
    }
  }

  const WORD_BYTES: nat := 32

  lemma Pow256Words()
    ensures Pow256(8) == TWO_64
    ensures Pow256(WORD_BYTES) == TWO_256
  {
    var n := 8;
    Pow256Add(n, n);
    Pow256Add(2 * n, 2 * n);
  }

  // A byte string of at most 32 bytes read as a word.
  function WordFromBE(s: seq<Byte>): U256
    requires |s| <= 32
  {
    FromBEBound(s);
    Pow256Monotone(|s|, WORD_BYTES);
    Pow256Words();
    FromBE(s)
  }

  lemma {:induction false} Pow256Monotone(m: nat, n: nat)
    requires m <= n
    ensures Pow256(m) <= Pow256(n)
    decreases n
  {
    if m < n {
      Pow256Monotone(m, n - 1);
    }
  }
}
