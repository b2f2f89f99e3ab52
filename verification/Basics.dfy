/** Small notions that several modules share. */
module Basics {

  datatype Option<T> = None | Some(value: T)

  /** A call to a store succeeds, or raises without effect, or raises after its effect. */
  datatype Fault = Fine | Lost | Late

  function Max(a: int, b: int): int {
    if a > b then a else b
  }

  function Max0(n: int): int {
    if n > 0 then n else 0
  }

  function Min(a: int, b: int): int {
    if a < b then a else b
  }

  ghost predicate Distinct<T>(s: seq<T>) {
    forall i, j :: 0 <= i < j < |s| ==> s[i] != s[j]
  }

  // ---------------------------------------------------------------------------------------------
  // Remainders, one nonlinear step at a time
  // ---------------------------------------------------------------------------------------------

  lemma AtLeastOnce(n: int, q: int)
    requires n >= 0 && q >= 1
    ensures n * q >= n && n * -q <= -n
  {
  }

  lemma DifferenceOfMultiples(n: int, a: int, b: int)
    ensures n * b - n * a == n * (b - a)
  {
  }

  /** A multiple of n nearer to zero than n is zero. */
  lemma SmallMultiple(n: int, q: int)
    requires n > 0 && -n < n * q < n
    ensures q == 0
  {
    if q >= 1 {
      AtLeastOnce(n, q);
    } else if q <= -1 {
      AtLeastOnce(n, -q);
    }
  }

  /** Two numbers less than n apart have the same remainder only if they are equal. */
  lemma SameRemainder(n: int, x: int, y: int)
    requires n > 0 && x % n == y % n && -n < x - y < n
    ensures x == y
  {
    var p, q := x / n, y / n;
    assert x == n * p + x % n && y == n * q + y % n;
    DifferenceOfMultiples(n, q, p);
    SmallMultiple(n, p - q);
  }

  lemma RemainderIs(n: int, x: int, q: int, r: int)
    requires n > 0 && x == n * q + r && 0 <= r < n
    ensures x % n == r
  {
    var p := x / n;
    assert x == n * p + x % n;
    DifferenceOfMultiples(n, q, p);
    SmallMultiple(n, p - q);
  }

  /** Remainders may be taken early. */
  lemma RemainderFirst(n: int, x: int, t: int)
    requires n > 0
    ensures (x % n + t) % n == (x + t) % n
  {
    var p, q := x / n, (x % n + t) / n;
    assert x == n * p + x % n && x % n + t == n * q + (x % n + t) % n;
    DifferenceOfMultiples(n, -p, q);
    RemainderIs(n, x + t, p + q, (x % n + t) % n);
  }

  lemma RemainderPastEnd(n: int, x: int)
    requires n > 0
    ensures (x + n) % n == x % n
  {
    var q := x / n;
    assert x == n * q + x % n;
    DifferenceOfMultiples(n, q, q + 1);
    RemainderIs(n, x + n, q + 1, x % n);
  }

  // ---------------------------------------------------------------------------------------------
  // Going round a table of n places
  // ---------------------------------------------------------------------------------------------

  /** How many steps after `start` the search reaches place `i` of `n`. */
  function Distance(start: int, i: nat, n: nat): (k: nat)
    requires i < n
    ensures 1 <= k <= n && (start + k) % n == i
  {
    var k := (i - start - 1) % n + 1;
    Wrap(start, i, n);
    k
  }

  lemma Wrap(start: int, i: nat, n: nat)
    requires i < n
    ensures (start + ((i - start - 1) % n + 1)) % n == i
  {
    RemainderFirst(n, i - start - 1, start + 1);
    RemainderIs(n, i, 0, i);
  }

  lemma DistanceOf(start: int, k: nat, n: nat)
    requires 1 <= k <= n
    ensures Distance(start, (start + k) % n, n) == k
  {
    SameRemainder(n, start + Distance(start, (start + k) % n, n), start + k);
  }
}
