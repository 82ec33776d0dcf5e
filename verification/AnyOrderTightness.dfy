/** The bound for dealing items in any order is reached for every number m of bins, by the items that
    R. L. Graham gave: m(m - 1) that cost 1, and at the end one that costs m. */
module AnyOrderTightness {
  import opened Lpt

  lemma DivModIs(n: nat, m: nat, q: int, r: nat)
    requires n == m * q + r && r < m
    ensures n / m == q && n % m == r
  {
    var d := q - n / m;
    assert m * d == n % m - r;
    Multiples(m, d, 1);
    Multiples(m, -1, d);
  }

  lemma Multiples(m: nat, x: int, y: int)
    ensures x >= y ==> m * x >= m * y
  {}

  lemma DivModNext(n: nat, m: nat)
    requires m > 0
    ensures if n % m == m - 1 then (n + 1) / m == n / m + 1 && (n + 1) % m == 0
            else (n + 1) / m == n / m && (n + 1) % m == n % m + 1
  {
    if n % m == m - 1 {
      assert m * (n / m + 1) == m * (n / m) + m;
      DivModIs(n + 1, m, n / m + 1, 0);
    } else {
      DivModIs(n + 1, m, n / m, n % m + 1);
    }
  }

  /** `n` items fill m - 1 bins with m of them each. */
  predicate Fills(m: nat, n: nat) {
    m > 0 && n / m == m - 1 && n % m == 0
  }

  lemma ProductFills(m: nat)
    requires m > 0
    ensures m * (m - 1) >= 0 && Fills(m, m * (m - 1))
  {
    Multiples(m, m - 1, 0);
    DivModIs(m * (m - 1), m, m - 1, 0);
  }

  lemma DivIsLess(j: nat, m: nat, n: nat)
    requires Fills(m, n) && j < n
    ensures j / m < m - 1
  {
    assert j == m * (j / m) + j % m && n == m * (m - 1);
    Multiples(m, j / m, m - 1);
  }

  /** `n` items of 1, and one of m. */
  function Hard(m: nat, n: nat): (c: seq<real>)
    ensures |c| == n + 1 && forall j :: 0 <= j < |c| ==> c[j] == if j < n then 1.0 else m as real
  {
    seq(n + 1, j requires 0 <= j < n + 1 => if j < n then 1.0 else m as real)
  }

  // ---------- in the order of the list ----------

  function RoundBin(m: nat, j: nat): nat
    requires m > 0
  {
    j % m
  }

  /** The items go round the bins. */
  function Packed(m: nat, n: nat): (a: seq<nat>)
    requires m > 0
    ensures |a| == n + 1 && forall j :: 0 <= j < |a| ==> a[j] == RoundBin(m, j)
  {
    seq<nat>(n + 1, j requires 0 <= j < n + 1 => RoundBin(m, j))
  }

  function RoundLoad(m: nat, k: nat, s: nat): nat
    requires m > 0
  {
    k / m + if s < k % m then 1 else 0
  }

  lemma {:induction false} RoundLoads(m: nat, n: nat, k: nat, s: nat)
    requires m > 0 && k <= n && s < m
    ensures Load(Hard(m, n), Packed(m, n), k, s) == RoundLoad(m, k, s) as real
  {
    if k > 0 {
      RoundLoads(m, n, k - 1, s);
      LoadNext(Hard(m, n), Packed(m, n), k - 1, s);
      DivModNext(k - 1, m);
    }
  }

  lemma RoundChoice(m: nat, n: nat, k: nat)
    requires m > 0 && k <= n
    ensures LeftmostLeast(Hard(m, n), Packed(m, n), k, m, Packed(m, n)[k])
  {
    forall s: nat | s < m ensures Load(Hard(m, n), Packed(m, n), k, s) == RoundLoad(m, k, s) as real {
      RoundLoads(m, n, k, s);
    }
  }

  lemma PackedIsPacking(m: nat, n: nat)
    requires m > 0
    ensures IsPacking(Hard(m, n), Packed(m, n), m)
  {
    forall k: nat | k < n + 1 ensures LeftmostLeast(Hard(m, n), Packed(m, n), k, m, Packed(m, n)[k]) {
      RoundChoice(m, n, k);
    }
  }

  lemma PackedMakespan(m: nat, n: nat)
    requires Fills(m, n)
    ensures Makespan(Hard(m, n), Packed(m, n), m) == (2 * m - 1) as real
  {
    var c, a := Hard(m, n), Packed(m, n);
    forall s: nat | s < m ensures Load(c, a, |c|, s) == (if s == 0 then 2 * m - 1 else m - 1) as real {
      RoundLoads(m, n, n, s);
      LoadNext(c, a, n, s);
    }
    MakespanIs(c, a, m, (2 * m - 1) as real, 0);
  }

  // ---------- the best assignment ----------

  function FilledBin(m: nat, j: nat): nat
    requires m > 0
  {
    j / m
  }

  /** m items that cost 1 in each bin but the last. */
  function Best(m: nat, n: nat): (a: seq<nat>)
    requires m > 0
    ensures |a| == n + 1 && forall j :: 0 <= j < |a| ==> a[j] == FilledBin(m, j)
  {
    seq<nat>(n + 1, j requires 0 <= j < n + 1 => FilledBin(m, j))
  }

  function FilledLoad(m: nat, k: nat, s: nat): nat
    requires m > 0
  {
    if s < k / m then m else if s == k / m then k % m else 0
  }

  lemma {:induction false} FilledLoads(m: nat, n: nat, k: nat, s: nat)
    requires m > 0 && k <= n && s < m
    ensures Load(Hard(m, n), Best(m, n), k, s) == FilledLoad(m, k, s) as real
  {
    if k > 0 {
      FilledLoads(m, n, k - 1, s);
      LoadNext(Hard(m, n), Best(m, n), k - 1, s);
      DivModNext(k - 1, m);
    }
  }

  lemma BestAssigns(m: nat, n: nat)
    requires Fills(m, n)
    ensures Assigns(Best(m, n), Hard(m, n), m)
  {
    forall j: nat | j < n + 1 ensures FilledBin(m, j) < m {
      if j < n {
        DivIsLess(j, m, n);
      }
    }
  }

  lemma BestMakespan(m: nat, n: nat)
    requires Fills(m, n)
    ensures Makespan(Hard(m, n), Best(m, n), m) == m as real
  {
    var c, a := Hard(m, n), Best(m, n);
    forall s: nat | s < m ensures Load(c, a, |c|, s) == m as real {
      FilledLoads(m, n, n, s);
      LoadNext(c, a, n, s);
    }
    MakespanIs(c, a, m, m as real, 0);
  }

  lemma BoundIs(m: nat)
    requires m > 0
    ensures AnyOrderBound(m, m as real) == (2 * m - 1) as real
  {
    var M := m as real;
    assert 1.0 / M * M == 1.0;
    assert (2.0 - 1.0 / M) * M == 2.0 * M - 1.0;
  }

  /** For every number of bins no smaller factor would do: dealt in this order, these items take exactly
      (2 - 1/m) times as long as in another assignment. */
  lemma AnyOrderBoundIsTight(m: nat)
    requires m > 0
    ensures m * (m - 1) >= 0
    ensures var n := m * (m - 1);
            var (c, a, best) := (Hard(m, n), Packed(m, n), Best(m, n));
            && NonNegative(c) && IsPacking(c, a, m) && Assigns(best, c, m)
            && Makespan(c, best, m) > 0.0
            && Makespan(c, a, m) == AnyOrderBound(m, Makespan(c, best, m))
  {
    ProductFills(m);
    var n := m * (m - 1);
    PackedIsPacking(m, n);
    PackedMakespan(m, n);
    BestAssigns(m, n);
    BestMakespan(m, n);
    BoundIs(m);
  }
}
