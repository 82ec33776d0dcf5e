/** Longest-processing-time list scheduling, the packing at the heart of the shard
    assignment in scripts/runner.node.ts, and its approximation bounds.

    Items are numbered in the order in which they are dealt, `c[j]` is the cost of item j,
    and an assignment `a` sends item j to bin `a[j]`. */
module Lpt {

  // ---------- loads ----------

  /** What the first `n` items put on bin `s`. */
  function Load(c: seq<real>, a: seq<nat>, n: nat, s: nat): real
    requires n <= |c| && n <= |a|
  {
    if n == 0 then 0.0 else Load(c, a, n - 1, s) + if a[n - 1] == s then c[n - 1] else 0.0
  }

  function Sum(c: seq<real>, n: nat): real
    requires n <= |c|
  {
    if n == 0 then 0.0 else Sum(c, n - 1) + c[n - 1]
  }

  /** The loads of the bins below `m`, added up. */
  function TotalLoad(c: seq<real>, a: seq<nat>, n: nat, m: nat): real
    requires n <= |c| && n <= |a|
  {
    if m == 0 then 0.0 else TotalLoad(c, a, n, m - 1) + Load(c, a, n, m - 1)
  }

  /** `m` copies of `x`, added up. */
  ghost function Times(m: nat, x: real): real {
    if m == 0 then 0.0 else Times(m - 1, x) + x
  }

  ghost predicate NonNegative(c: seq<real>) {
    forall j :: 0 <= j < |c| ==> c[j] >= 0.0
  }

  /** Every item goes to one of the `m` bins. */
  ghost predicate Assigns(a: seq<nat>, c: seq<real>, m: nat) {
    |a| == |c| && forall j :: 0 <= j < |a| ==> a[j] < m
  }

  /** No bin below `m` holds more than `bound`. */
  ghost predicate Within(c: seq<real>, a: seq<nat>, n: nat, m: nat, bound: real)
    requires n <= |c| && n <= |a|
  {
    forall s: nat :: s < m ==> Load(c, a, n, s) <= bound
  }

  /** The load of the fullest bin. */
  function Makespan(c: seq<real>, a: seq<nat>, m: nat): (r: real)
    requires |a| == |c| && m > 0
    ensures Within(c, a, |c|, m, r)
    ensures exists s: nat :: s < m && r == Load(c, a, |c|, s)
  {
    var last := Load(c, a, |c|, m - 1);
    if m == 1 then last else
      var rest := Makespan(c, a, m - 1);
      if rest < last then last else rest
  }

  // ---------- the packing ----------

  /** `bin` is the leftmost of the least loaded bins. */
  ghost predicate LeftmostLeast(c: seq<real>, a: seq<nat>, n: nat, m: nat, bin: nat)
    requires n <= |c| && n <= |a|
  {
    && bin < m
    && (forall s: nat :: s < m ==> Load(c, a, n, bin) <= Load(c, a, n, s))
    && (forall s: nat :: s < bin ==> Load(c, a, n, bin) < Load(c, a, n, s))
  }

  /** Each of the first `k` items in turn went to the leftmost of the bins least loaded so far. */
  ghost predicate Packs(c: seq<real>, a: seq<nat>, k: nat, m: nat)
    requires k <= |c| && k <= |a|
  {
    forall n: nat :: n < k ==> LeftmostLeast(c, a, n, m, a[n])
  }

  ghost predicate IsPacking(c: seq<real>, a: seq<nat>, m: nat) {
    |a| == |c| && Packs(c, a, |c|, m)
  }

  /** Graham's ratios: (2 - 1/m) and (4/3 - 1/(3m)) times the makespan `x`. */
  ghost function AnyOrderBound(m: nat, x: real): real
    requires m > 0
  {
    (2.0 - 1.0 / m as real) * x
  }

  ghost function LongestFirstBound(m: nat, x: real): real
    requires m > 0
  {
    (4.0 / 3.0 - 1.0 / (3.0 * m as real)) * x
  }

  /** The leftmost of the least loaded bins below `m`. */
  function LeastLoaded(c: seq<real>, a: seq<nat>, n: nat, m: nat): (bin: nat)
    requires n <= |c| && n <= |a| && m > 0
    ensures LeftmostLeast(c, a, n, m, bin)
  {
    if m == 1 then 0 else
      var bin := LeastLoaded(c, a, n, m - 1);
      if Load(c, a, n, m - 1) < Load(c, a, n, bin) then m - 1 else bin
  }

  /** The packing of the first `n` items. */
  function Packing(c: seq<real>, m: nat, n: nat): (a: seq<nat>)
    requires n <= |c| && m > 0
    ensures |a| == n
  {
    if n == 0 then [] else
      var a := Packing(c, m, n - 1);
      a + [LeastLoaded(c, a, n - 1, m)]
  }

  ghost predicate Descending(c: seq<real>) {
    forall i, j :: 0 <= i < j < |c| ==> c[i] >= c[j]
  }

  // ---------- elementary facts ----------

  lemma {:induction false} TotalLoadIsSum(c: seq<real>, a: seq<nat>, n: nat, m: nat)
    requires n <= |c| && n <= |a|
    requires forall j :: 0 <= j < n ==> a[j] < m
    ensures TotalLoad(c, a, n, m) == Sum(c, n)
  {
    if n == 0 {
      NothingLoaded(c, a, m);
    } else {
      TotalLoadIsSum(c, a, n - 1, m);
      OneMoreLoaded(c, a, n, m);
    }
  }

  lemma {:induction false} NothingLoaded(c: seq<real>, a: seq<nat>, m: nat)
    ensures TotalLoad(c, a, 0, m) == 0.0
  {
    if m > 0 { NothingLoaded(c, a, m - 1); }
  }

  lemma {:induction false} OneMoreLoaded(c: seq<real>, a: seq<nat>, n: nat, m: nat)
    requires 0 < n <= |c| && n <= |a|
    ensures TotalLoad(c, a, n, m) == TotalLoad(c, a, n - 1, m) + if a[n - 1] < m then c[n - 1] else 0.0
  {
    if m > 0 { OneMoreLoaded(c, a, n, m - 1); }
  }

  lemma {:induction false} TotalAtLeast(c: seq<real>, a: seq<nat>, n: nat, m: nat, low: real)
    requires n <= |c| && n <= |a|
    requires forall s: nat :: s < m ==> low <= Load(c, a, n, s)
    ensures Times(m, low) <= TotalLoad(c, a, n, m)
  {
    if m > 0 { TotalAtLeast(c, a, n, m - 1, low); }
  }

  lemma {:induction false} TotalAtMost(c: seq<real>, a: seq<nat>, n: nat, m: nat, high: real)
    requires n <= |c| && n <= |a|
    requires Within(c, a, n, m, high)
    ensures TotalLoad(c, a, n, m) <= Times(m, high)
  {
    if m > 0 { TotalAtMost(c, a, n, m - 1, high); }
  }

  lemma {:induction false} LoadGrows(c: seq<real>, a: seq<nat>, k: nat, n: nat, s: nat)
    requires k <= n <= |c| && n <= |a| && NonNegative(c)
    ensures 0.0 <= Load(c, a, k, s) <= Load(c, a, n, s)
    decreases n
  {
    if k < n {
      LoadGrows(c, a, k, n - 1, s);
    } else if n > 0 {
      LoadGrows(c, a, n - 1, n - 1, s);
    }
  }

  lemma WithinPrefix(c: seq<real>, a: seq<nat>, k: nat, n: nat, m: nat, bound: real)
    requires k <= n <= |c| && n <= |a| && NonNegative(c) && Within(c, a, n, m, bound)
    ensures Within(c, a, k, m, bound)
  {
    forall s: nat | s < m ensures Load(c, a, k, s) <= bound {
      LoadGrows(c, a, k, n, s);
    }
  }

  /** An item is no larger than the bin that holds it. */
  lemma ItemFits(c: seq<real>, a: seq<nat>, j: nat, n: nat)
    requires j < n <= |c| && n <= |a| && NonNegative(c)
    ensures c[j] <= Load(c, a, n, a[j])
  {
    LoadGrows(c, a, j, j, a[j]);
    LoadGrows(c, a, j + 1, n, a[j]);
  }

  /** The packing is determined by the costs: two computers that pack the same items agree. */
  lemma {:induction false} PackingIsUnique(c: seq<real>, a: seq<nat>, b: seq<nat>, m: nat)
    requires IsPacking(c, a, m) && IsPacking(c, b, m)
    ensures a == b
  {
    PackingPrefixIsUnique(c, a, b, m, |c|);
    assert a == a[..|c|] && b == b[..|c|];
  }

  lemma {:induction false} PackingPrefixIsUnique(c: seq<real>, a: seq<nat>, b: seq<nat>, m: nat, n: nat)
    requires IsPacking(c, a, m) && IsPacking(c, b, m) && n <= |c|
    ensures a[..n] == b[..n]
  {
    if n > 0 {
      var k := n - 1;
      PackingPrefixIsUnique(c, a, b, m, k);
      assert LeftmostLeast(c, a, k, m, a[k]) && LeftmostLeast(c, b, k, m, b[k]);
      LoadOfPrefix(c, a, b, k, a[k]);
      LoadOfPrefix(c, a, b, k, b[k]);
      assert a[..n] == a[..n - 1] + [a[n - 1]] && b[..n] == b[..n - 1] + [b[n - 1]];
    }
  }

  lemma {:induction false} LoadOfPrefix(c: seq<real>, a: seq<nat>, b: seq<nat>, n: nat, s: nat)
    requires n <= |c| && n <= |a| && n <= |b| && a[..n] == b[..n]
    ensures Load(c, a, n, s) == Load(c, b, n, s)
  {
    if n > 0 {
      assert a[..n][n - 1] == b[..n][n - 1];
      assert a[..n - 1] == a[..n][..n - 1] && b[..n - 1] == b[..n][..n - 1];
      LoadOfPrefix(c, a, b, n - 1, s);
    }
  }

  /** The choice depends on the loads only. */
  lemma SameLeast(c: seq<real>, a: seq<nat>, n: nat, d: seq<real>, b: seq<nat>, k: nat, m: nat)
    requires n <= |c| && n <= |a| && k <= |d| && k <= |b| && m > 0
    requires forall s: nat :: s < m ==> Load(c, a, n, s) == Load(d, b, k, s)
    ensures LeastLoaded(c, a, n, m) == LeastLoaded(d, b, k, m)
  {
    var x, y := LeastLoaded(c, a, n, m), LeastLoaded(d, b, k, m);
    assert LeftmostLeast(c, a, n, m, x) && LeftmostLeast(d, b, k, m, y);
    assert Load(c, a, n, x) == Load(d, b, k, x) && Load(c, a, n, y) == Load(d, b, k, y);
  }

  lemma {:induction false} LoadOfCosts(c: seq<real>, d: seq<real>, a: seq<nat>, n: nat, s: nat)
    requires n <= |c| && n <= |d| && n <= |a| && c[..n] == d[..n]
    ensures Load(c, a, n, s) == Load(d, a, n, s)
  {
    if n > 0 {
      assert c[..n][n - 1] == d[..n][n - 1];
      assert c[..n - 1] == c[..n][..n - 1] && d[..n - 1] == d[..n][..n - 1];
      LoadOfCosts(c, d, a, n - 1, s);
    }
  }

  /** The first items are packed alike, whatever follows them. */
  lemma {:induction false} PackingOfPrefix(c: seq<real>, d: seq<real>, m: nat, n: nat)
    requires n <= |c| && n <= |d| && m > 0 && c[..n] == d[..n]
    ensures Packing(c, m, n) == Packing(d, m, n)
  {
    if n > 0 {
      assert c[..n - 1] == c[..n][..n - 1] && d[..n - 1] == d[..n][..n - 1];
      var k := n - 1;
      PackingOfPrefix(c, d, m, k);
      var a := Packing(c, m, k);
      forall s: nat | s < m ensures Load(c, a, k, s) == Load(d, a, k, s) {
        LoadOfCosts(c, d, a, k, s);
      }
      SameLeast(c, a, k, d, a, k, m);
    }
  }

  lemma {:induction false} PackingStays(c: seq<real>, m: nat, k: nat, n: nat)
    requires k <= n <= |c| && m > 0
    ensures Packing(c, m, n)[..k] == Packing(c, m, k)
    decreases n
  {
    if k < n {
      PackingStays(c, m, k, n - 1);
      assert Packing(c, m, n)[..k] == Packing(c, m, n - 1)[..k];
    }
  }

  /** As long as there are empty bins, each item that costs something gets its own. */
  lemma {:induction false} OwnBins(c: seq<real>, m: nat, n: nat)
    requires n <= |c| && n <= m && m > 0 && forall j :: 0 <= j < n ==> c[j] > 0.0
    ensures forall j :: 0 <= j < n ==> Packing(c, m, n)[j] == j
    ensures forall s: nat :: Load(c, Packing(c, m, n), n, s) == if s < n then c[s] else 0.0
  {
    if n > 0 {
      var k := n - 1;
      var a, b := Packing(c, m, k), Packing(c, m, n);
      OwnBins(c, m, k);
      assert LeftmostLeast(c, a, k, m, LeastLoaded(c, a, k, m));
      assert Load(c, a, k, k) == 0.0;
      forall s: nat ensures Load(c, b, k, s) == Load(c, a, k, s) {
        assert b[..k] == a[..k];
        LoadOfPrefix(c, b, a, k, s);
      }
    }
  }

  lemma {:induction false} PackingPacks(c: seq<real>, m: nat, n: nat)
    requires n <= |c| && m > 0
    ensures Packs(c, Packing(c, m, n), n, m)
  {
    if n > 0 {
      var b := Packing(c, m, n - 1);
      var a := b + [LeastLoaded(c, b, n - 1, m)];
      PackingPacks(c, m, n - 1);
      forall k: nat | k < n ensures LeftmostLeast(c, a, k, m, a[k]) {
        forall s: nat | s < m ensures Load(c, a, k, s) == Load(c, b, k, s) {
          LoadOfPrefix(c, a, b, k, s);
        }
        if k < n - 1 {
          assert LeftmostLeast(c, b, k, m, b[k]);
        }
      }
    }
  }

  lemma PackingIsPacking(c: seq<real>, m: nat)
    requires m > 0
    ensures IsPacking(c, Packing(c, m, |c|), m)
  {
    PackingPacks(c, m, |c|);
  }

  // ---------- list scheduling ----------

  /** The fullest and the emptiest bin differ by at most one item. */
  lemma {:induction false} SpreadIsOneItem(c: seq<real>, a: seq<nat>, m: nat, n: nat, largest: real, s: nat, t: nat)
    requires IsPacking(c, a, m) && NonNegative(c) && n <= |c| && s < m && t < m
    requires largest >= 0.0 && forall j :: 0 <= j < n ==> c[j] <= largest
    ensures Load(c, a, n, s) - Load(c, a, n, t) <= largest
  {
    if n > 0 {
      SpreadIsOneItem(c, a, m, n - 1, largest, s, t);
      assert LeftmostLeast(c, a, n - 1, m, a[n - 1]);
    }
  }

  /** The item that brought bin `s` to its load, unless the bin is empty. */
  ghost function LastIn(a: seq<nat>, n: nat, s: nat): (k: nat)
    requires n <= |a|
    ensures k <= n
    ensures k > 0 ==> a[k - 1] == s
    ensures forall j :: k <= j < n ==> a[j] != s
  {
    if n == 0 || a[n - 1] == s then n else LastIn(a, n - 1, s)
  }

  lemma {:induction false} LoadAtLast(c: seq<real>, a: seq<nat>, k: nat, n: nat, s: nat)
    requires k <= n <= |c| && n <= |a|
    requires forall j :: k <= j < n ==> a[j] != s
    ensures Load(c, a, n, s) == Load(c, a, k, s)
  {
    if k < n { LoadAtLast(c, a, k, n - 1, s); }
  }

  /** When item `k` is dealt to the least loaded bin, that bin holds at most the average of what
      any assignment within `bound` leaves for the other items. */
  lemma LeastIsBelowAverage(c: seq<real>, a: seq<nat>, opt: seq<nat>, m: nat, k: nat, bound: real)
    requires IsPacking(c, a, m) && Assigns(opt, c, m) && NonNegative(c)
    requires k < |c| && Within(c, opt, |c|, m, bound)
    ensures Times(m, Load(c, a, k, a[k])) + c[k] <= Times(m, bound)
  {
    var k', least := k + 1, Load(c, a, k, a[k]);
    assert LeftmostLeast(c, a, k, m, a[k]);
    PackingAssigns(c, a, m);
    TotalAtLeast(c, a, k, m, least);
    TotalLoadIsSum(c, a, k, m);
    WithinPrefix(c, opt, k', |c|, m, bound);
    TotalAtMost(c, opt, k', m, bound);
    TotalLoadIsSum(c, opt, k', m);
  }

  lemma PackingAssigns(c: seq<real>, a: seq<nat>, m: nat)
    requires IsPacking(c, a, m)
    ensures Assigns(a, c, m)
  {
    forall j: nat | j < |a| ensures a[j] < m {
      assert LeftmostLeast(c, a, j, m, a[j]);
    }
  }

  lemma {:induction false} TimesIsProduct(m: nat, x: real)
    ensures Times(m, x) == m as real * x
  {
    if m > 0 { TimesIsProduct(m - 1, x); }
  }

  lemma Scale(f: real, x: real, y: real)
    requires f >= 0.0 && x <= y
    ensures f * x <= f * y
  {}

  /** The arithmetic of the first bound: a bin at `before`, at most the average of the rest,
      has received an item of cost `p`. */
  lemma ListSchedulingArithmetic(m: nat, x: real, before: real, p: real, bound: real)
    requires m > 0 && x == before + p && Times(m, before) + p <= Times(m, bound) && p <= bound
    ensures x <= AnyOrderBound(m, bound)
  {
    TimesIsProduct(m, before);
    TimesIsProduct(m, bound);
    OneBound(m as real, x, before, p, bound);
  }

  /** The arithmetic of the second, for an item of at most a third. */
  lemma LongestFirstArithmetic(m: nat, x: real, before: real, p: real, bound: real)
    requires m > 0 && x == before + p && Times(m, before) + p <= Times(m, bound) && 3.0 * p <= bound
    ensures x <= LongestFirstBound(m, bound)
  {
    TimesIsProduct(m, before);
    TimesIsProduct(m, bound);
    ThirdBound(m as real, x, before, p, bound);
  }

  lemma OneBound(M: real, x: real, before: real, p: real, bound: real)
    requires M >= 1.0 && x == before + p && M * before + p <= M * bound && p <= bound
    ensures x <= (2.0 - 1.0 / M) * bound
  {
    assert M * x == (M * before + p) + (M - 1.0) * p;
    Scale(M - 1.0, p, bound);
    assert M * x <= M * bound + (M - 1.0) * bound;
    Ratio(M, x, 2.0 * M - 1.0, bound);
    assert (2.0 * M - 1.0) / M == 2.0 - 1.0 / M;
  }

  lemma ThirdBound(M: real, x: real, before: real, p: real, bound: real)
    requires M >= 1.0 && x == before + p && M * before + p <= M * bound && 3.0 * p <= bound
    ensures x <= (4.0 / 3.0 - 1.0 / (3.0 * M)) * bound
  {
    assert M * x == (M * before + p) + (M - 1.0) * p;
    Scale(M - 1.0, 3.0 * p, bound);
    assert 3.0 * (M * x) <= 3.0 * (M * bound) + (M - 1.0) * bound;
    Ratio(3.0 * M, x, 4.0 * M - 1.0, bound);
    assert (4.0 * M - 1.0) / (3.0 * M) == 4.0 / 3.0 - 1.0 / (3.0 * M);
  }

  lemma Ratio(d: real, x: real, n: real, y: real)
    requires d > 0.0 && d * x <= n * y
    ensures x <= n / d * y
  {
    assert d * (n / d * y) == n * y;
    Cancel(d, x, n / d * y);
  }

  lemma Cancel(d: real, x: real, y: real)
    requires d > 0.0 && d * x <= d * y
    ensures x <= y
  {}

  lemma WithinBoundArithmetic(m: nat, x: real, bound: real)
    requires m > 0 && 0.0 <= x <= bound
    ensures x <= AnyOrderBound(m, bound)
    ensures x <= LongestFirstBound(m, bound)
  {
    assert 1.0 / m as real <= 1.0;
    Scale(bound, 1.0, 2.0 - 1.0 / m as real);
    assert 1.0 / (3.0 * m as real) == (1.0 / m as real) / 3.0;
    Scale(bound, 1.0, 4.0 / 3.0 - 1.0 / (3.0 * m as real));
  }

  /** Graham 1966: in whatever order the items are dealt, no bin exceeds (2 - 1/m) times the
      makespan of any assignment. */
  lemma AnyOrderIsBounded(c: seq<real>, a: seq<nat>, opt: seq<nat>, m: nat)
    requires m > 0 && IsPacking(c, a, m) && Assigns(opt, c, m) && NonNegative(c)
    ensures Makespan(c, a, m) <= AnyOrderBound(m, Makespan(c, opt, m))
  {
    var x, bound := Makespan(c, a, m), Makespan(c, opt, m);
    var before, p := LastOfFullest(c, a, opt, m);
    if x <= bound {
      WithinBoundArithmetic(m, x, bound);
    } else {
      ListSchedulingArithmetic(m, x, before, p, bound);
    }
  }

  /** The last item dealt to the fullest bin, and what the bin held before. */
  lemma LastOfFullest(c: seq<real>, a: seq<nat>, opt: seq<nat>, m: nat) returns (before: real, p: real)
    requires m > 0 && IsPacking(c, a, m) && Assigns(opt, c, m) && NonNegative(c)
    ensures 0.0 <= Makespan(c, a, m) == before + p
    ensures var bound := Makespan(c, opt, m);
            && p <= bound
            && (Makespan(c, a, m) <= bound || Times(m, before) + p <= Times(m, bound))
            && (Descending(c) && 3.0 * p > bound ==> Makespan(c, a, m) <= bound)
  {
    var bound := Makespan(c, opt, m);
    var s: nat :| s < m && Makespan(c, a, m) == Load(c, a, |c|, s);
    var k := LastIn(a, |c|, s);
    LoadAtLast(c, a, k, |c|, s);
    LoadGrows(c, a, |c|, |c|, s);
    LoadGrows(c, opt, |c|, |c|, 0);
    if k == 0 {
      before, p := 0.0, 0.0;
    } else {
      before, p := Load(c, a, k - 1, s), c[k - 1];
      LastItemIsBounded(c, a, opt, m, k - 1, bound);
    }
  }

  lemma LastItemIsBounded(c: seq<real>, a: seq<nat>, opt: seq<nat>, m: nat, k: nat, bound: real)
    requires IsPacking(c, a, m) && Assigns(opt, c, m) && NonNegative(c)
    requires k < |c| && Within(c, opt, |c|, m, bound)
    ensures c[k] <= bound && Times(m, Load(c, a, k, a[k])) + c[k] <= Times(m, bound)
    ensures Descending(c) && 3.0 * c[k] > bound ==> Load(c, a, k, a[k]) + c[k] <= bound
  {
    LeastIsBelowAverage(c, a, opt, m, k, bound);
    ItemFits(c, opt, k, |c|);
    if Descending(c) && 3.0 * c[k] > bound {
      LargeItemFits(c, a, opt, m, k, bound);
    }
  }

  // ---------- longest first ----------

  /** Twice as heavy: an item that no other item of at least `p` can join within `bound`. */
  ghost function Weight(x: real, p: real, bound: real): real {
    if x + p > bound then 2.0 else 1.0
  }

  ghost function Weights(c: seq<real>, p: real, bound: real): (w: seq<real>)
    ensures |w| == |c| && forall j :: 0 <= j < |c| ==> w[j] == Weight(c[j], p, bound)
  {
    seq(|c|, j requires 0 <= j < |c| => Weight(c[j], p, bound))
  }

  /** In an assignment within `bound`, where every item is larger than a third of it, a bin
      holds one heavy item or at most two light ones. */
  lemma {:induction false} BinCarriesTwo(c: seq<real>, w: seq<real>, a: seq<nat>, n: nat, s: nat, p: real, bound: real)
    requires n <= |c| && n <= |a| && w == Weights(c, p, bound)
    requires forall j :: 0 <= j < n ==> c[j] >= p
    requires 0.0 < p && 3.0 * p > bound
    ensures var x, y := Load(c, a, n, s), Load(w, a, n, s);
            (y == 0.0 && x == 0.0) || (y == 1.0 && x >= p) || (y == 2.0 && x > bound - p && x >= p) || x > bound
  {
    if n > 0 { BinCarriesTwo(c, w, a, n - 1, s, p, bound); }
  }

  /** A bin that cannot take another item of size `p` within `bound` carries at least weight two. */
  lemma {:induction false} FullBinCarriesTwo(c: seq<real>, w: seq<real>, a: seq<nat>, n: nat, s: nat, p: real, bound: real)
    requires n <= |c| && n <= |a| && w == Weights(c, p, bound) && p <= bound
    ensures var x, y := Load(c, a, n, s), Load(w, a, n, s);
            (y == 0.0 && x == 0.0) || (y == 1.0 && x <= bound - p) || y >= 2.0
  {
    if n > 0 { FullBinCarriesTwo(c, w, a, n - 1, s, p, bound); }
  }

  lemma AllBinsFull(c: seq<real>, a: seq<nat>, m: nat, k: nat, bound: real)
    requires IsPacking(c, a, m) && k < |c| && c[k] <= bound
    requires Load(c, a, k, a[k]) + c[k] > bound
    ensures Sum(Weights(c, c[k], bound), k) >= Times(m, 2.0)
  {
    var w := Weights(c, c[k], bound);
    assert LeftmostLeast(c, a, k, m, a[k]);
    forall s: nat | s < m ensures 2.0 <= Load(w, a, k, s) {
      FullBinCarriesTwo(c, w, a, k, s, c[k], bound);
    }
    TotalAtLeast(w, a, k, m, 2.0);
    PackingAssigns(c, a, m);
    TotalLoadIsSum(w, a, k, m);
  }

  lemma NoBinOverfull(c: seq<real>, opt: seq<nat>, m: nat, n: nat, p: real, bound: real)
    requires Assigns(opt, c, m) && n <= |c| && Within(c, opt, n, m, bound)
    requires forall j :: 0 <= j < n ==> c[j] >= p
    requires 0.0 < p && 3.0 * p > bound
    ensures Sum(Weights(c, p, bound), n) <= Times(m, 2.0)
  {
    var w := Weights(c, p, bound);
    forall s: nat | s < m ensures Load(w, opt, n, s) <= 2.0 {
      BinCarriesTwo(c, w, opt, n, s, p, bound);
      assert Load(c, opt, n, s) <= bound;
    }
    TotalAtMost(w, opt, n, m, 2.0);
    TotalLoadIsSum(w, opt, n, m);
  }

  /** If item `k`, the smallest so far, is larger than a third of `bound`, dealing it to the
      least loaded bin stays within `bound`: otherwise every bin already carries weight two,
      the items up to `k` weigh more than 2m together, and no assignment within `bound` holds them. */
  lemma LargeItemFits(c: seq<real>, a: seq<nat>, opt: seq<nat>, m: nat, k: nat, bound: real)
    requires IsPacking(c, a, m) && Assigns(opt, c, m) && NonNegative(c) && Descending(c)
    requires k < |c| && Within(c, opt, |c|, m, bound) && 3.0 * c[k] > bound
    ensures Load(c, a, k, a[k]) + c[k] <= bound
  {
    ItemFits(c, opt, k, |c|);
    assert c[k] <= bound;
    WithinPrefix(c, opt, k + 1, |c|, m, bound);
    NoBinOverfull(c, opt, m, k + 1, c[k], bound);
    if Load(c, a, k, a[k]) + c[k] > bound {
      AllBinsFull(c, a, m, k, bound);
      assert false;
    }
  }

  /** Graham 1969: dealt longest first, no bin exceeds (4/3 - 1/(3m)) times the makespan of any
      assignment of the same items to the same number of bins. */
  lemma LongestFirstIsBounded(c: seq<real>, a: seq<nat>, opt: seq<nat>, m: nat)
    requires m > 0 && IsPacking(c, a, m) && Assigns(opt, c, m) && NonNegative(c) && Descending(c)
    ensures Makespan(c, a, m) <= LongestFirstBound(m, Makespan(c, opt, m))
  {
    var x, bound := Makespan(c, a, m), Makespan(c, opt, m);
    var before, p := LastOfFullest(c, a, opt, m);
    if x <= bound {
      WithinBoundArithmetic(m, x, bound);
    } else {
      LongestFirstArithmetic(m, x, before, p, bound);
    }
  }

  lemma LoadNext(c: seq<real>, a: seq<nat>, n: nat, s: nat)
    requires n < |c| && n < |a|
    ensures Load(c, a, n + 1, s) == Load(c, a, n, s) + if a[n] == s then c[n] else 0.0
  {}

  lemma MakespanIs(c: seq<real>, a: seq<nat>, m: nat, x: real, bin: nat)
    requires |a| == |c| && bin < m && Load(c, a, |c|, bin) == x
    requires forall s: nat :: s < m ==> Load(c, a, |c|, s) <= x
    ensures Makespan(c, a, m) == x
  {}
}
