/** Small shared vocabulary: optional values, results, and facts about sequences. */
module Util {

  datatype Option<+T> = None | Some(value: T)

  datatype Result<+T, +E> = Ok(value: T) | Err(error: E)

  /** No element occurs twice. */
  ghost predicate NoDup<T(!new)>(s: seq<T>) {
    forall i, j :: 0 <= i < j < |s| ==> s[i] != s[j]
  }

  /** The elements of a sequence, as a set. */
  function Elems<T(!new,==)>(s: seq<T>): (r: set<T>)
    ensures forall x :: x in r <==> x in s
  {
    set x | x in s
  }

  lemma ElemsInit<T(!new)>(s: seq<T>)
    requires s != [] && NoDup(s)
    ensures var k := |s| - 1;
            Elems(s[..k]) == Elems(s) - {s[k]} && s[k] in Elems(s) && NoDup(s[..k])
  {
    var k := |s| - 1;
    forall x ensures x in Elems(s[..k]) <==> x in Elems(s) - {s[k]} {
      if x in s && x != s[k] {
        var i :| 0 <= i < |s| && s[i] == x;
        assert s[..k][i] == x;
      }
    }
  }

  /** A slice of a prefix is a slice of the whole. */
  lemma PrefixSlice<T>(a: seq<T>, b: seq<T>, i: nat, j: nat)
    requires i <= j <= |a| <= |b| && b[..|a|] == a
    ensures b[i..j] == a[i..j]
  {
    forall k | 0 <= k < j - i ensures b[i..j][k] == a[i..j][k] {
      assert b[..|a|][i + k] == b[i + k];
    }
  }

  /** Concatenation of a list of sequences. */
  function Concat<T>(ss: seq<seq<T>>): seq<T> {
    if ss == [] then [] else ss[0] + Concat(ss[1..])
  }

  lemma {:induction false} ConcatAppend<T>(a: seq<seq<T>>, b: seq<seq<T>>)
    ensures Concat(a + b) == Concat(a) + Concat(b)
  {
    if a == [] {
      assert a + b == b;
    } else {
      assert (a + b)[1..] == a[1..] + b;
      ConcatAppend(a[1..], b);
    }
  }

  lemma ConcatSnoc<T>(a: seq<seq<T>>, x: seq<T>)
    ensures Concat(a + [x]) == Concat(a) + x
  {
    ConcatAppend(a, [x]);
    assert Concat([x]) == x + Concat<T>([]);
  }

  lemma Regroup<T>(a: seq<T>, b: seq<T>, c: seq<T>, d: seq<T>)
    ensures a + b + c + d == a + (b + (c + d))
    ensures a + b + c == a + (b + c)
  {
  }

  function Min(a: int, b: int): int { if a <= b then a else b }

  function Max(a: int, b: int): int { if a >= b then a else b }

  /** What \s matches in a pattern over bytes. */
  predicate Space(c: char) { c in " \t\n\r" || c == 11 as char || c == 12 as char }

  const DIGITS := "0123456789"

  /** The decimal form of a natural number, as %d prints it. */
  function Decimal(n: nat): (r: string)
    ensures r != []
    ensures forall c :: c in r ==> c in DIGITS
  {
    if n < 10 then [DIGITS[n]] else Decimal(n / 10) + [DIGITS[n % 10]]
  }

  /** What a string of digits stands for. */
  function NumberOf(s: string): int {
    if s == [] then 0 else NumberOf(s[..|s| - 1]) * 10 + (s[|s| - 1] as int - '0' as int)
  }

  /** The numeral of a number: digits only, with no leading zero. */
  predicate IsNumeral(s: string, n: nat) {
    && s != [] && (forall i :: 0 <= i < |s| ==> '0' <= s[i] <= '9')
    && (s[0] == '0' ==> |s| == 1) && NumberOf(s) == n
  }

  /** The decimal form of a number is its numeral. */
  lemma {:induction false} DecimalReads(n: nat)
    ensures IsNumeral(Decimal(n), n)
    ensures n > 0 ==> Decimal(n)[0] != '0'
  {
    var s := Decimal(n);
    assert DIGITS[n % 10] as int == '0' as int + n % 10;
    if n < 10 {
      assert s[..0] == [];
    } else {
      DecimalReads(n / 10);
      assert s[..|s| - 1] == Decimal(n / 10);
    }
  }
}
