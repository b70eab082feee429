/**
  Random selection from a content pool: the client's `getRandom` helper.

  `Math.random()` is not modelled as a source of randomness; each call is
  given its value explicitly, as a `Roll` in [0, 1). The index the client
  computes, `Math.floor(Math.random() * arr.length)`, is computed here on
  exact reals.
 */
module Pick {

  /** The placeholder `getRandom` yields instead of failing. */
  const Sentinel: string := "???"

  /** A content pool as the client sees it: a global that may be undefined,
      or an array of strings (possibly empty). */
  datatype Pool = Undefined | Defined(items: seq<string>) {

    /** `getRandom` falls back to the sentinel exactly for these pools. */
    predicate IsEmpty() {
      Undefined? || |items| == 0
    }
  }

  /** One value of `Math.random()`: a number in [0, 1). */
  type Roll = r: real | 0.0 <= r < 1.0

  /** `w` is a value that `getRandom(pool)` may yield. */
  predicate IsPick(pool: Pool, w: string) {
    if pool.IsEmpty() then w == Sentinel else w in pool.items
  }

  /** Scaling a roll by a positive length and rounding down lands on a valid index. */
  lemma FloorInRange(roll: Roll, n: nat)
    requires n > 0
    ensures 0 <= (roll * n as real).Floor < n
  {
    var x := roll * n as real;
    assert n as real - x == (1.0 - roll) * n as real;
    assert 0.0 < (1.0 - roll) * n as real;
    assert x.Floor as real <= x;
  }

  /** `Math.floor(roll * n)`: the index a roll selects among `n` items. */
  function Index(roll: Roll, n: nat): (i: nat)
    requires n > 0
    ensures i < n
    ensures i as real <= roll * n as real < i as real + 1.0
  {
    FloorInRange(roll, n);
    (roll * n as real).Floor
  }

  /** Each index owns the slice [i/n, (i+1)/n) of the rolls, so every index
      is selected by a roll interval of the same width 1/n. */
  lemma IndexInterval(roll: Roll, n: nat, i: nat)
    requires i < n
    ensures Index(roll, n) == i <==> i as real / n as real <= roll < (i + 1) as real / n as real
  {
    if Index(roll, n) == i {
      IndexInSlice(roll, n, i);
    }
    if i as real / n as real <= roll < (i + 1) as real / n as real {
      SliceSelectsIndex(roll, n, i);
    }
  }

  lemma IndexInSlice(roll: Roll, n: nat, i: nat)
    requires i < n && Index(roll, n) == i
    ensures i as real / n as real <= roll < (i + 1) as real / n as real
  {
    var N := n as real;
    var lo, hi := i as real / N, (i + 1) as real / N;
    assert lo * N == i as real;
    assert hi * N == (i + 1) as real;
    MulMonotoneBack(lo, roll, N);
    MulStrictBack(roll, hi, N);
  }

  lemma SliceSelectsIndex(roll: Roll, n: nat, i: nat)
    requires i < n && i as real / n as real <= roll < (i + 1) as real / n as real
    ensures Index(roll, n) == i
  {
    var N := n as real;
    var lo, hi := i as real / N, (i + 1) as real / N;
    assert lo * N == i as real;
    assert hi * N == (i + 1) as real;
    MulMonotone(lo, roll, N);
    MulStrict(roll, hi, N);
    FloorUnique(roll * N, i);
  }

  lemma FloorUnique(x: real, j: int)
    requires j as real <= x < j as real + 1.0
    ensures x.Floor == j
  {
  }

  lemma MulMonotone(a: real, b: real, c: real)
    requires a <= b && 0.0 < c
    ensures a * c <= b * c
  {
    assert b * c - a * c == (b - a) * c;
  }

  lemma MulStrict(a: real, b: real, c: real)
    requires a < b && 0.0 < c
    ensures a * c < b * c
  {
    assert b * c - a * c == (b - a) * c;
  }

  lemma MulMonotoneBack(a: real, b: real, c: real)
    requires a * c <= b * c && 0.0 < c
    ensures a <= b
  {
    if b < a {
      MulStrict(b, a, c);
    }
  }

  lemma MulStrictBack(a: real, b: real, c: real)
    requires a * c < b * c && 0.0 < c
    ensures a < b
  {
    if b <= a {
      MulMonotone(b, a, c);
    }
  }

  /** `getRandom(arr)`: the sentinel for an empty or undefined pool, otherwise
      the item the roll selects. */
  function GetRandom(pool: Pool, roll: Roll): (w: string)
    ensures IsPick(pool, w)
    ensures pool.IsEmpty() ==> w == Sentinel
  {
    if pool.IsEmpty() then Sentinel else pool.items[Index(roll, |pool.items|)]
  }

  /** The roll at the start of index `i`'s slice. */
  function RollFor(n: nat, i: nat): (roll: Roll)
    requires i < n
    ensures Index(roll, n) == i
  {
    var r := i as real / n as real;
    assert r * n as real == i as real;
    MulStrictBack(r, 1.0, n as real);
    r
  }

  /** Every item of a non-empty pool can be drawn: `IsPick` is exactly the
      set of values `GetRandom` can return. */
  lemma EveryItemDrawable(pool: Pool, i: nat)
    requires pool.Defined? && i < |pool.items|
    ensures GetRandom(pool, RollFor(|pool.items|, i)) == pool.items[i]
  {
  }
}
