/**
 * The Fibonacci demo: a plain doubly recursive definition and the same
 * equations memoised by a least-recently-used cache of at most 128 entries.
 * The memo is threaded through the calls as a value; a hit moves its key to
 * the most recently used end, a miss inserts after computing and, when the
 * cache is full, first evicts the least recently used key.
 */
module Calculator {

  /** `fibonacci_uncached`: n itself for n <= 1 (negative n included), else the sum of the two before. */
  function FibUncached(n: int): (r: int)
    ensures n <= 1 ==> r == n
    ensures n >= 0 ==> r >= 0
    ensures n >= 1 ==> r >= 1
    decreases n
  {
    if n <= 1 then n else FibUncached(n - 1) + FibUncached(n - 2)
  }

  const MaxSize: nat := 128

  /** The memo of `lru_cache(maxsize=128)`: results by argument, and the keys from least to most recently used. */
  datatype Lru = Lru(values: map<int, int>, order: seq<int>)

  const EmptyLru := Lru(map[], [])

  /** The bookkeeping of the cache: the order lists each cached key once, and there are at most MaxSize of them. */
  ghost predicate WellFormed(c: Lru) {
    && |c.order| <= MaxSize
    && Distinct(c.order)
    && (forall k :: k in c.values <==> k in c.order)
  }

  /** Every remembered result is the true one. */
  ghost predicate Sound(c: Lru) {
    forall k :: k in c.values ==> c.values[k] == FibUncached(k)
  }

  predicate Distinct(s: seq<int>) {
    forall i, j :: 0 <= i < j < |s| ==> s[i] != s[j]
  }

  function Without(s: seq<int>, k: int): (r: seq<int>)
    ensures forall x :: x in r <==> x in s && x != k
    ensures |r| <= |s| && (k in s ==> |r| < |s|)
  {
    if s == [] then []
    else if s[0] == k then Without(s[1..], k)
    else [s[0]] + Without(s[1..], k)
  }

  lemma {:induction false} WithoutDistinct(s: seq<int>, k: int)
    requires Distinct(s)
    ensures Distinct(Without(s, k))
  {
    if s != [] {
      WithoutDistinct(s[1..], k);
      if s[0] != k {
        assert s[0] !in Without(s[1..], k);
      }
    }
  }

  /** A key that is not in the order is not removed from anything. */
  lemma {:induction false} WithoutAbsent(s: seq<int>, k: int)
    requires k !in s
    ensures Without(s, k) == s
  {
    if s != [] {
      WithoutAbsent(s[1..], k);
      assert [s[0]] + s[1..] == s;
    }
  }

  /** In an order without repeats, removal takes out the key's one position and keeps the rest in order. */
  lemma {:induction false} WithoutRemovesOne(s: seq<int>, k: int, i: int)
    requires Distinct(s) && 0 <= i < |s| && s[i] == k
    ensures Without(s, k) == s[..i] + s[i + 1..]
  {
    if i == 0 {
      assert k !in s[1..];
      WithoutAbsent(s[1..], k);
    } else {
      WithoutRemovesOne(s[1..], k, i - 1);
      assert s[1..][..i - 1] == s[1..i] && s[1..][i..] == s[i + 1..];
      assert s[..i] == [s[0]] + s[1..i];
    }
  }

  /** A hit: the key becomes the most recently used one. */
  function Touch(c: Lru, k: int): (r: Lru)
    requires WellFormed(c) && k in c.values
    ensures WellFormed(r) && r.values == c.values
    ensures r.order[|r.order| - 1] == k
  {
    WithoutDistinct(c.order, k);
    Lru(c.values, Without(c.order, k) + [k])
  }

  /** A hit moves the key from its position to the most recently used end; the other keys keep their relative order. */
  lemma TouchKeepsOrder(c: Lru, k: int, i: int)
    requires WellFormed(c) && 0 <= i < |c.order| && c.order[i] == k
    ensures Touch(c, k).order == c.order[..i] + c.order[i + 1..] + [k]
  {
    WithoutRemovesOne(c.order, k, i);
  }

  /** A miss that stores a new key: evict the least recently used key if the cache is full, then append. */
  function Insert(c: Lru, k: int, v: int): (r: Lru)
    requires WellFormed(c) && k !in c.values
    ensures WellFormed(r)
    ensures k in r.values && r.values[k] == v
    ensures forall x :: x in r.values && x != k ==> x in c.values && r.values[x] == c.values[x]
    ensures |c.order| < MaxSize ==> r.values == c.values[k := v]
    ensures |c.order| >= MaxSize ==> r.values == (c.values - {c.order[0]})[k := v]
    ensures r.order[|r.order| - 1] == k
  {
    if |c.order| >= MaxSize then
      var oldest := c.order[0];
      Lru(c.values - {oldest} + map[k := v], c.order[1..] + [k])
    else
      Lru(c.values[k := v], c.order + [k])
  }

  /**
   * `fibonacci_cached` with its memo: the same equations as FibUncached,
   * answered from the memo when the argument is remembered.
   */
  function FibCached(n: int, c: Lru): (r: (int, Lru))
    requires WellFormed(c) && Sound(c)
    ensures r.0 == FibUncached(n)
    ensures WellFormed(r.1) && Sound(r.1)
    decreases n
  {
    if n in c.values then (c.values[n], Touch(c, n))
    else if n <= 1 then (n, Insert(c, n, n))
    else
      var (a, c1) := FibCached(n - 1, c);
      var (b, c2) := FibCached(n - 2, c1);
      if n in c2.values then (a + b, c2)
      else (a + b, Insert(c2, n, a + b))
  }

  /** Any function obeying the two Fibonacci equations agrees with FibUncached everywhere. */
  lemma {:induction false} SameEquationsSameFunction(f: int -> int, n: int)
    requires forall m :: m <= 1 ==> f(m) == m
    requires forall m :: m > 1 ==> f(m) == f(m - 1) + f(m - 2)
    ensures f(n) == FibUncached(n)
    decreases n
  {
    if n > 1 {
      SameEquationsSameFunction(f, n - 1);
      SameEquationsSameFunction(f, n - 2);
    }
  }

  /** Fibonacci by counting up: `a` and `b` are two consecutive values, `n` the steps still to take. */
  function FibFrom(n: nat, a: int, b: int): int {
    if n == 0 then a else FibFrom(n - 1, b, a + b)
  }

  lemma {:induction false} FibFromIsFib(n: nat, k: nat)
    ensures FibFrom(n, FibUncached(k), FibUncached(k + 1)) == FibUncached(k + n)
  {
    if n > 0 {
      FibFromIsFib(n - 1, k + 1);
    }
  }

  /** The value the benchmark reports. */
  lemma FibThirty()
    ensures FibUncached(30) == 832040
  {
    assert FibUncached(20) == 6765 && FibUncached(21) == 10946;
    FibFromIsFib(10, 20);
    assert FibFrom(10, 6765, 10946) == 832040;
  }

  datatype BenchmarkReport = BenchmarkReport(n: int, result: int)

  /** `benchmark_fibonacci`'s argument and result, computed through the memo; the timings are not modelled. */
  function BenchmarkFibonacci(c: Lru): (r: BenchmarkReport)
    requires WellFormed(c) && Sound(c)
    ensures r.n == 30 && r.result == 832040
  {
    FibThirty();
    BenchmarkReport(30, FibCached(30, c).0)
  }
}
