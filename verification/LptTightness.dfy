/** The bound for dealing the longest items first is reached for every number of bins, by the items that
    R. L. Graham gave: two each of 2m - 1, 2m - 2, ..., m + 1, and three of m. */
module LptTightness {
  import opened Lpt

  function Cost(m: nat, j: nat): int {
    if j < 2 * m then 2 * m - 1 - j / 2 else m
  }

  function Hard(m: nat): (c: seq<real>)
    ensures |c| == 2 * m + 1 && forall j :: 0 <= j < |c| ==> c[j] == Cost(m, j) as real
  {
    seq(2 * m + 1, j requires 0 <= j < 2 * m + 1 => Cost(m, j) as real)
  }

  // ---------- longest first ----------

  /** The first m items go to a bin each, the next m to the bins from the last on, where of two bins with the
      same load the left one comes first. `Rank` counts them. */
  function Rank(m: nat, s: nat): int {
    if m % 2 == 1 && s == m - 1 then 0 else m - 2 - 2 * (s / 2) + s % 2
  }

  function Bin(m: nat, i: nat): (s: nat)
    requires i < m
    ensures s < m && Rank(m, s) == i
  {
    if m % 2 == 0 then m - 2 - 2 * (i / 2) + i % 2
    else if i == 0 then m - 1
    else m - 3 - 2 * ((i - 1) / 2) + (i - 1) % 2
  }

  lemma RanksDiffer(m: nat, s: nat, t: nat)
    requires s < m && t < m && Rank(m, s) == Rank(m, t)
    ensures s == t
  {}

  lemma RankIsInside(m: nat, s: nat)
    requires s < m
    ensures 0 <= Rank(m, s) < m
  {}

  /** A bin of higher rank has no lighter first item, and if it is further to the left a heavier one. */
  lemma RankFollowsCost(m: nat, s: nat, t: nat)
    requires s < m && t < m && Rank(m, s) > Rank(m, t)
    ensures Cost(m, s) >= Cost(m, t)
    ensures s < t ==> Cost(m, s) > Cost(m, t)
  {}

  /** Every bin is filled up to the same load. */
  lemma FillsUp(m: nat, i: nat)
    requires i < m
    ensures Cost(m, Bin(m, i)) + Cost(m, m + i) == 3 * m - 1
  {}

  function PackedAt(m: nat, j: nat): nat
    requires m > 0
  {
    if j < m then j else if j < 2 * m then Bin(m, j - m) else 0
  }

  function Packed(m: nat): (a: seq<nat>)
    requires m > 0
    ensures |a| == 2 * m + 1 && forall j :: 0 <= j < |a| ==> a[j] == PackedAt(m, j)
  {
    seq<nat>(2 * m + 1, j requires 0 <= j < 2 * m + 1 => PackedAt(m, j))
  }

  lemma {:induction false} FirstLoads(m: nat, n: nat, s: nat)
    requires m > 0 && n <= m
    ensures Load(Hard(m), Packed(m), n, s) == if s < n then Cost(m, s) as real else 0.0
  {
    if n > 0 {
      FirstLoads(m, n - 1, s);
      LoadNext(Hard(m), Packed(m), n - 1, s);
    }
  }

  function LoadWith(m: nat, i: nat, s: nat): int {
    if Rank(m, s) < i then 3 * m - 1 else Cost(m, s)
  }

  lemma LoadWithNext(m: nat, i: nat, s: nat)
    requires i < m && s < m
    ensures LoadWith(m, i + 1, s) == LoadWith(m, i, s) + if Bin(m, i) == s then Cost(m, m + i) else 0
  {
    FillsUp(m, i);
    if Rank(m, s) == i {
      RanksDiffer(m, s, Bin(m, i));
    }
  }

  ghost predicate Steps(c: seq<real>, a: seq<nat>, k: nat, s: nat, w: nat -> real, i: nat)
    requires k + i < |c| && k + i < |a|
  {
    w(i + 1) == w(i) + if a[k + i] == s then c[k + i] else 0.0
  }

  lemma {:induction false} LoadsFollow(c: seq<real>, a: seq<nat>, k: nat, n: nat, s: nat, w: nat -> real)
    requires k + n <= |c| && k + n <= |a| && Load(c, a, k, s) == w(0)
    requires forall i: nat :: i < n ==> Steps(c, a, k, s, w, i)
    ensures Load(c, a, k + n, s) == w(n)
  {
    if n > 0 {
      LoadsFollow(c, a, k, n - 1, s, w);
      assert Steps(c, a, k, s, w, n - 1);
      LoadNext(c, a, k + (n - 1), s);
    }
  }

  lemma SecondLoads(m: nat, i: nat, s: nat)
    requires m > 0 && i <= m && s < m
    ensures Load(Hard(m), Packed(m), m + i, s) == LoadWith(m, i, s) as real
  {
    var w: nat -> real := (i: nat) => LoadWith(m, i, s) as real;
    RankIsInside(m, s);
    FirstLoads(m, m, s);
    forall k: nat | k < i ensures Steps(Hard(m), Packed(m), m, s, w, k) {
      LoadWithNext(m, k, s);
    }
    LoadsFollow(Hard(m), Packed(m), m, i, s, w);
  }

  lemma FirstChoice(m: nat, n: nat)
    requires n < m
    ensures LeftmostLeast(Hard(m), Packed(m), n, m, n)
  {
    forall s: nat ensures Load(Hard(m), Packed(m), n, s) == if s < n then Cost(m, s) as real else 0.0 {
      FirstLoads(m, n, s);
    }
  }

  lemma LeastLoadWith(m: nat, i: nat, s: nat)
    requires i < m && s < m
    ensures LoadWith(m, i, Bin(m, i)) <= LoadWith(m, i, s)
    ensures s < Bin(m, i) ==> LoadWith(m, i, Bin(m, i)) < LoadWith(m, i, s)
  {
    var t := Bin(m, i);
    if Rank(m, s) == i {
      RanksDiffer(m, s, t);
    } else if Rank(m, s) > i {
      RankFollowsCost(m, s, t);
    }
  }

  lemma SecondCompare(m: nat, i: nat, s: nat, n: nat, c: seq<real>, a: seq<nat>, bin: nat)
    requires i < m && s < m && n == m + i && c == Hard(m) && a == Packed(m) && bin == Bin(m, i)
    ensures Load(c, a, n, bin) <= Load(c, a, n, s) && (s < bin ==> Load(c, a, n, bin) < Load(c, a, n, s))
  {
    SecondLoads(m, i, bin);
    SecondLoads(m, i, s);
    LeastLoadWith(m, i, s);
  }

  lemma SecondChoice(m: nat, i: nat)
    requires i < m
    ensures LeftmostLeast(Hard(m), Packed(m), m + i, m, Bin(m, i))
  {
    var n, c, a, bin := m + i, Hard(m), Packed(m), Bin(m, i);
    forall s: nat | s < m
      ensures Load(c, a, n, bin) <= Load(c, a, n, s)
      ensures s < bin ==> Load(c, a, n, bin) < Load(c, a, n, s)
    {
      SecondCompare(m, i, s, n, c, a, bin);
    }
  }

  lemma LastLoads(m: nat, s: nat)
    requires m > 0 && s < m
    ensures Load(Hard(m), Packed(m), 2 * m, s) == (3 * m - 1) as real
  {
    SecondLoads(m, m, s);
    RankIsInside(m, s);
  }

  lemma LastChoice(m: nat)
    requires m > 0
    ensures LeftmostLeast(Hard(m), Packed(m), 2 * m, m, 0)
  {
    forall s: nat | s < m ensures Load(Hard(m), Packed(m), 2 * m, s) == (3 * m - 1) as real {
      LastLoads(m, s);
    }
  }

  lemma Choice(m: nat, n: nat)
    requires m > 0 && n < 2 * m + 1
    ensures LeftmostLeast(Hard(m), Packed(m), n, m, Packed(m)[n])
  {
    if n < m {
      FirstChoice(m, n);
    } else if n < 2 * m {
      SecondChoice(m, n - m);
    } else {
      LastChoice(m);
    }
  }

  lemma PackedIsPacking(m: nat)
    requires m > 0
    ensures IsPacking(Hard(m), Packed(m), m)
  {
    forall n: nat | n < 2 * m + 1 ensures LeftmostLeast(Hard(m), Packed(m), n, m, Packed(m)[n]) {
      Choice(m, n);
    }
  }

  lemma PackedMakespan(m: nat)
    requires m > 0
    ensures Makespan(Hard(m), Packed(m), m) == (4 * m - 1) as real
  {
    var c, a, n := Hard(m), Packed(m), 2 * m + 1;
    forall s: nat | s < m ensures Load(c, a, n, s) == (if s == 0 then 4 * m - 1 else 3 * m - 1) as real {
      LastLoads(m, s);
      LoadNext(c, a, 2 * m, s);
    }
    MakespanIs(c, a, m, (4 * m - 1) as real, 0);
  }

  // ---------- the best assignment ----------

  function BestAt(m: nat, j: nat): nat
    requires m > 0
  {
    if j < m - 1 then j else if j < 2 * m - 2 then 2 * m - 3 - j else m - 1
  }

  /** Each of the first items with the one that fills it up to 3m; the three smallest together. */
  function Best(m: nat): (a: seq<nat>)
    requires m > 0
    ensures |a| == 2 * m + 1 && forall j :: 0 <= j < |a| ==> a[j] == BestAt(m, j)
  {
    seq<nat>(2 * m + 1, j requires 0 <= j < 2 * m + 1 => BestAt(m, j))
  }

  function Part(m: nat, j: int, n: nat): int {
    if 0 <= j < n then Cost(m, j) else 0
  }

  function BestWith(m: nat, n: nat, s: nat): int {
    if s < m - 1 then Part(m, s, n) + Part(m, 2 * m - 3 - s, n)
    else Part(m, 2 * m - 2, n) + Part(m, 2 * m - 1, n) + Part(m, 2 * m, n)
  }

  lemma BestWithNext(m: nat, n: nat, s: nat)
    requires m > 0 && n < 2 * m + 1 && s < m
    ensures BestWith(m, n + 1, s) == BestWith(m, n, s) + if BestAt(m, n) == s then Cost(m, n) else 0
  {}

  lemma BestWithAll(m: nat, s: nat)
    requires s < m
    ensures BestWith(m, 2 * m + 1, s) == 3 * m
  {}

  lemma {:induction false} BestLoads(m: nat, n: nat, s: nat)
    requires m > 0 && n <= 2 * m + 1 && s < m
    ensures Load(Hard(m), Best(m), n, s) == BestWith(m, n, s) as real
  {
    if n > 0 {
      var k := n - 1;
      BestLoads(m, k, s);
      LoadNext(Hard(m), Best(m), k, s);
      BestWithNext(m, k, s);
      assert Best(m)[k] == BestAt(m, k) && Hard(m)[k] == Cost(m, k) as real;
    }
  }

  lemma BestAssigns(m: nat)
    requires m > 0
    ensures Assigns(Best(m), Hard(m), m)
  {}

  lemma BestMakespan(m: nat)
    requires m > 0
    ensures Makespan(Hard(m), Best(m), m) == (3 * m) as real
  {
    var c, a, n := Hard(m), Best(m), 2 * m + 1;
    forall s: nat | s < m ensures Load(c, a, n, s) == (3 * m) as real {
      BestLoads(m, n, s);
      BestWithAll(m, s);
    }
    MakespanIs(c, a, m, (3 * m) as real, 0);
  }

  lemma HardDescends(m: nat)
    ensures Descending(Hard(m)) && NonNegative(Hard(m))
  {}

  lemma BoundIs(m: nat)
    requires m > 0
    ensures LongestFirstBound(m, (3 * m) as real) == (4 * m - 1) as real
  {
    var M := m as real;
    assert 1.0 / (3.0 * M) * (3.0 * M) == 1.0;
    assert (4.0 / 3.0 - 1.0 / (3.0 * M)) * (3.0 * M) == 4.0 * M - 1.0;
  }

  /** For every number of bins no smaller factor would do: dealt longest first, these items take exactly
      (4/3 - 1/(3m)) times as long as in another assignment. */
  lemma LongestFirstBoundIsTight(m: nat)
    requires m > 0
    ensures var (c, a, best) := (Hard(m), Packed(m), Best(m));
            && Descending(c) && NonNegative(c) && IsPacking(c, a, m) && Assigns(best, c, m)
            && Makespan(c, best, m) > 0.0
            && Makespan(c, a, m) == LongestFirstBound(m, Makespan(c, best, m))
  {
    HardDescends(m);
    PackedIsPacking(m);
    PackedMakespan(m);
    BestAssigns(m);
    BestMakespan(m);
    BoundIs(m);
  }
}
