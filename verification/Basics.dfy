/** Definitions shared by every component of the model. */
module Basics {

  datatype Option<+T> = None | Some(value: T)

  /** One past the largest `size_t` / `uint64_t`. */
  const WORD: nat := 0x1_0000_0000_0000_0000

  type Byte = b: int | 0 <= b < 256

  type Bytes = seq<Byte>

  /** A hash key: the bytes of a C string before its terminator. */
  type Key = Bytes

  type Word32 = w: int | 0 <= w < 0x1_0000_0000

  function XorByte(a: Byte, b: Byte): Byte {
    ((a as bv8) ^ (b as bv8)) as int
  }

  function Max(a: int, b: int): (m: int) {
    if a < b then b else a
  }

  function Min(a: int, b: int): (m: int) {
    if a < b then a else b
  }

  /** Division and remainder are what they are by any decomposition. */
  lemma {:induction false} DivisionUnique(x: nat, n: nat, q: nat, r: nat)
    requires 0 < n && r < n && x == q * n + r
    ensures x / n == q && x % n == r
  {
    var k := x / n - q;
    assert k * n == (x / n) * n - q * n == r - x % n;
    SmallMultiple(k, n);
  }

  lemma SmallMultiple(k: int, n: nat)
    ensures k >= 1 ==> k * n >= n
    ensures k <= -1 ==> k * n <= -(n as int)
  {
    if k >= 1 {
      assert (k - 1) * n >= 0;
    } else if k <= -1 {
      assert (-1 - k) * n >= 0;
    }
  }

  // Parts appended one after the other are appended as one.

  lemma ConcatTwo<T>(s: seq<T>, a: seq<T>, b: seq<T>)
    ensures s + a + b == s + (a + b)
  {
  }

  lemma ConcatThree<T>(s: seq<T>, a: seq<T>, b: seq<T>, c: seq<T>)
    ensures s + a + b + c == s + (a + b + c)
  {
  }

  lemma ConcatFour<T>(s: seq<T>, a: seq<T>, b: seq<T>, c: seq<T>, d: seq<T>)
    ensures s + a + b + c + d == s + (a + b + c + d)
  {
  }

  lemma ConcatFive<T>(s: seq<T>, a: seq<T>, b: seq<T>, c: seq<T>, d: seq<T>, e: seq<T>)
    ensures s + a + b + c + d + e == s + (a + b + c + d + e)
  {
  }

  lemma ConcatSix<T>(s: seq<T>, a: seq<T>, b: seq<T>, c: seq<T>, d: seq<T>, e: seq<T>, f: seq<T>)
    ensures s + a + b + c + d + e + f == s + (a + b + c + d + e + f)
  {
  }
}
