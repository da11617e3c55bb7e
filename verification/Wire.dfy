/**
 Big-endian integers, as the struct formats of the wire protocol lay them out, in two and in four
 bytes, with and without a sign: a number that fits its bytes is read back from them as it was. The
 binary forms of arrays and of COPY are built on them, with the lengths and counts that they hold.
 */
module Wire {
  type Byte = x: int | 0 <= x < 256

  type Bytes = seq<Byte>

  function Pow256(k: nat): (r: nat)
    ensures r > 0
  {
    if k == 0 then 1 else 256 * Pow256(k - 1)
  }

  /** The k bytes of a number, the most significant first. */
  function Big(n: nat, k: nat): (r: Bytes)
    ensures |r| == k
  {
    if k == 0 then [] else Big(n / 256, k - 1) + [n % 256]
  }

  function Num(b: Bytes): nat {
    if b == [] then 0 else Num(b[..|b| - 1]) * 256 + b[|b| - 1]
  }

  lemma {:induction false} NumBig(n: nat, k: nat)
    requires n < Pow256(k)
    ensures Num(Big(n, k)) == n
  {
    if k > 0 {
      NumBig(n / 256, k - 1);
      assert Big(n, k)[..k - 1] == Big(n / 256, k - 1);
    }
  }

  const LIMIT4: nat := 0x1_0000_0000

  const LIMIT2: nat := 0x1_0000

  const HALF4: int := 0x8000_0000

  const HALF2: int := 0x8000

  /** pack of "!I" */
  function Unsigned4(n: nat): (r: Bytes)
    requires n < LIMIT4
    ensures |r| == 4 && Num(r) == n
  {
    Sizes();
    NumBig(n, 4);
    Big(n, 4)
  }

  /** pack of "!i" */
  function Signed4(i: int): (r: Bytes)
    requires -HALF4 <= i < HALF4
    ensures |r| == 4 && ToSigned4(r) == i
  {
    Unsigned4(if i < 0 then i + LIMIT4 else i)
  }

  /** unpack of "!i" */
  function ToSigned4(b: Bytes): int
    requires |b| == 4
  {
    var n := Num(b);
    if n >= HALF4 then n - LIMIT4 else n
  }

  /** pack of "!h" */
  function Signed2(i: int): (r: Bytes)
    requires -HALF2 <= i < HALF2
    ensures |r| == 2 && ToSigned2(r) == i
  {
    var n := if i < 0 then i + LIMIT2 else i;
    Sizes();
    NumBig(n, 2);
    Big(n, 2)
  }

  /** unpack of "!h" */
  function ToSigned2(b: Bytes): int
    requires |b| == 2
  {
    var n := Num(b);
    if n >= HALF2 then n - LIMIT2 else n
  }

  lemma Sizes()
    ensures Pow256(2) == LIMIT2 && Pow256(4) == LIMIT4
  {
    assert Pow256(1) == 256;
    assert Pow256(3) == 256 * Pow256(2);
  }

  /** The limits are those of two and four bytes, and of half of them with a sign. */
  lemma Limits()
    ensures LIMIT2 == Pow256(2) && LIMIT4 == Pow256(4) && 2 * HALF2 == LIMIT2 && 2 * HALF4 == LIMIT4
  {
    assert Pow256(1) == 256 * Pow256(0) && Pow256(2) == 256 * Pow256(1) && Pow256(3) == 256 * Pow256(2);
  }

  /** The most significant byte comes first. */
  lemma BigEndian(n: nat)
    requires n < LIMIT4
    ensures var a := n / 0x100; var b := a / 0x100; var c := b / 0x100;
            Unsigned4(n) == [c, b % 0x100, a % 0x100, n % 0x100]
  {
    var a := n / 0x100;
    var b := a / 0x100;
    var c := b / 0x100;
    assert c < 0x100 && c / 0x100 == 0;
    assert Big(c, 1) == Big(0, 0) + [c];
    assert Big(b, 2) == Big(c, 1) + [b % 0x100];
    assert Big(a, 3) == Big(b, 2) + [a % 0x100];
    assert Big(n, 4) == Big(a, 3) + [n % 0x100];
  }

  lemma BigTwo(n: nat)
    requires n < 0x1_0000
    ensures Big(n, 2) == [n / 0x100, n % 0x100]
  {
    var a := n / 0x100;
    assert Big(a, 1) == Big(0, 0) + [a];
    assert Big(n, 2) == Big(a, 1) + [n % 0x100];
  }
}
