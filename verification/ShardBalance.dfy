/** How long the shards take, in terms of the durations of the tests and the times of the builds. */
module ShardBalance {
  import opened Lists
  import opened Lpt
  import opened Sharding

  // ---------- a division ----------

  function Lone(p: Plan): seq<Test> {
    Filter(p.available, t => !p.isProgram(t))
  }

  /** A shard for each test that is no program, and for each build. */
  datatype Division = Division(tests: seq<nat>, builds: seq<nat>)

  ghost predicate Divides(p: Plan, d: Division) {
    && |d.tests| == |Lone(p)| && |d.builds| == |p.builds|
    && (forall i :: 0 <= i < |d.tests| ==> d.tests[i] < p.maxShards)
    && (forall i :: 0 <= i < |d.builds| ==> d.builds[i] < p.maxShards)
  }

  /** The durations of the first `n` tests, of those that go to shard `s`. */
  ghost function TimeOfTests(p: Plan, tests: seq<Test>, to: seq<nat>, n: nat, s: nat): real
    requires n <= |tests| && n <= |to|
  {
    if n == 0 then 0.0 else TimeOfTests(p, tests, to, n - 1, s) + if to[n - 1] == s then p.costOf(tests[n - 1]) else 0.0
  }

  /** The same for builds, whose programs run four at once. */
  ghost function TimeOfBuilds(builds: seq<Build>, to: seq<nat>, n: nat, s: nat): real
    requires n <= |builds| && n <= |to|
  {
    if n == 0 then 0.0 else TimeOfBuilds(builds, to, n - 1, s) + if to[n - 1] == s then builds[n - 1].ms / 4.0 else 0.0
  }

  /** How long shard `s` takes. */
  ghost function TimeOf(p: Plan, d: Division, s: nat): real
    requires Divides(p, d)
  {
    TimeOfTests(p, Lone(p), d.tests, |d.tests|, s) + TimeOfBuilds(p.builds, d.builds, |d.builds|, s)
  }

  ghost predicate TakesAtMost(p: Plan, d: Division, x: real)
    requires Divides(p, d)
  {
    forall s: nat :: s < p.maxShards ==> TimeOf(p, d, s) <= x
  }

  ghost function LoneIn(tests: seq<Test>, to: seq<nat>, n: nat, s: nat): seq<Test>
    requires n <= |tests| && n <= |to|
  {
    if n == 0 then [] else LoneIn(tests, to, n - 1, s) + if to[n - 1] == s then [tests[n - 1]] else []
  }

  ghost function FilesIn(builds: seq<Build>, to: seq<nat>, n: nat, s: nat): seq<Test>
    requires n <= |builds| && n <= |to|
  {
    if n == 0 then [] else FilesIn(builds, to, n - 1, s) + if to[n - 1] == s then builds[n - 1].files else []
  }

  /** The tests of shard `s`. */
  ghost function TestsOf(p: Plan, d: Division, s: nat): multiset<Test>
    requires Divides(p, d)
  {
    multiset(LoneIn(Lone(p), d.tests, |d.tests|, s)) + multiset(FilesIn(p.builds, d.builds, |d.builds|, s))
  }

  // ---------- items with the bins they go to ----------

  type Placed = (Item, nat)

  /** What the items of bin `s` cost. */
  ghost function CostIn(z: seq<Placed>, s: nat): real {
    if z == [] then 0.0 else CostIn(z[..|z| - 1], s) + if z[|z| - 1].1 == s then z[|z| - 1].0.cost else 0.0
  }

  ghost function PathsIn(z: seq<Placed>, s: nat): multiset<Test> {
    if z == [] then multiset{} else PathsIn(z[..|z| - 1], s) + if z[|z| - 1].1 == s then multiset(z[|z| - 1].0.testPaths) else multiset{}
  }

  function Zip(items: seq<Item>, bins: seq<nat>): (z: seq<Placed>)
    requires |items| == |bins|
    ensures |z| == |items| && forall i :: 0 <= i < |z| ==> z[i] == (items[i], bins[i])
  {
    seq(|items|, i requires 0 <= i < |items| => (items[i], bins[i]))
  }

  lemma {:induction false} JoinedIn(a: seq<Placed>, b: seq<Placed>, s: nat)
    ensures CostIn(a + b, s) == CostIn(a, s) + CostIn(b, s)
    ensures PathsIn(a + b, s) == PathsIn(a, s) + PathsIn(b, s)
  {
    if b == [] {
      assert a + b == a;
    } else {
      assert (a + b)[..|a + b| - 1] == a + b[..|b| - 1];
      JoinedIn(a, b[..|b| - 1], s);
    }
  }

  lemma OneIn(x: Placed, s: nat)
    ensures CostIn([x], s) == if x.1 == s then x.0.cost else 0.0
    ensures PathsIn([x], s) == if x.1 == s then multiset(x.0.testPaths) else multiset{}
  {
    assert [x][..0] == [];
  }

  lemma TakeOut(z: seq<Placed>, i: nat, s: nat)
    requires i < |z|
    ensures var rest := z[..i] + z[i + 1..];
            && CostIn(z, s) == CostIn(rest, s) + CostIn([z[i]], s)
            && PathsIn(z, s) == PathsIn(rest, s) + PathsIn([z[i]], s)
  {
    assert z == (z[..i] + [z[i]]) + z[i + 1..];
    JoinedIn(z[..i] + [z[i]], z[i + 1..], s);
    JoinedIn(z[..i], [z[i]], s);
    JoinedIn(z[..i], z[i + 1..], s);
  }

  /** `z` rearranged so that its items stand as in `items`. */
  ghost predicate Rearranges(z: seq<Placed>, items: seq<Item>, z': seq<Placed>) {
    && |z'| == |items| && (forall i :: 0 <= i < |z'| ==> z'[i].0 == items[i])
    && (forall s: nat :: CostIn(z', s) == CostIn(z, s) && PathsIn(z', s) == PathsIn(z, s))
    && (forall x :: x in z' ==> x in z)
  }

  ghost function ItemsOf(z: seq<Placed>): (r: seq<Item>)
    ensures |r| == |z| && forall i :: 0 <= i < |z| ==> r[i] == z[i].0
  {
    seq(|z|, i requires 0 <= i < |z| => z[i].0)
  }

  lemma ItemsWithout(z: seq<Placed>, i: nat)
    requires i < |z|
    ensures multiset(ItemsOf(z)) == multiset(ItemsOf(z[..i] + z[i + 1..])) + multiset{z[i].0}
  {
    var rest := z[..i] + z[i + 1..];
    assert ItemsOf(rest) == ItemsOf(z)[..i] + ItemsOf(z)[i + 1..];
    assert ItemsOf(z) == (ItemsOf(z)[..i] + [z[i].0]) + ItemsOf(z)[i + 1..];
  }

  lemma FindItem(z: seq<Placed>, x: Item) returns (i: nat)
    requires x in multiset(ItemsOf(z))
    ensures i < |z| && z[i].0 == x
  {
    assert x in ItemsOf(z);
    i :| 0 <= i < |z| && ItemsOf(z)[i] == x;
  }

  lemma {:induction false} Rearranged(z: seq<Placed>, items: seq<Item>) returns (z': seq<Placed>)
    requires multiset(ItemsOf(z)) == multiset(items)
    ensures Rearranges(z, items, z')
  {
    if items == [] {
      z' := [];
      NoItems(z);
    } else {
      var init, last := items[..|items| - 1], items[|items| - 1];
      assert items == init + [last];
      assert multiset(items) == multiset(init) + multiset{last};
      var i := FindItem(z, last);
      var rest := z[..i] + z[i + 1..];
      ItemsWithout(z, i);
      assert multiset(ItemsOf(rest)) == multiset(ItemsOf(z)) - multiset{last} == multiset(init);
      var before := Rearranged(rest, init);
      z' := before + [z[i]];
      PutLast(z, i, init, before, last);
    }
  }

  lemma NoItems(z: seq<Placed>)
    requires multiset(ItemsOf(z)) == multiset{}
    ensures z == []
  {
    assert |multiset(ItemsOf(z))| == |z|;
  }

  lemma PutLast(z: seq<Placed>, i: nat, init: seq<Item>, before: seq<Placed>, last: Item)
    requires i < |z| && z[i].0 == last && Rearranges(z[..i] + z[i + 1..], init, before)
    ensures Rearranges(z, init + [last], before + [z[i]])
  {
    forall s: nat ensures CostIn(before + [z[i]], s) == CostIn(z, s) && PathsIn(before + [z[i]], s) == PathsIn(z, s) {
      TakeOut(z, i, s);
      JoinedIn(before, [z[i]], s);
    }
    forall x | x in before + [z[i]] ensures x in z {
      if x in before {
        assert x in z[..i] + z[i + 1..];
      }
    }
  }

  // ---------- the bins of the packing ----------

  lemma {:induction false} LoadIsCost(items: seq<Item>, bins: seq<nat>, n: nat, s: nat)
    requires |items| == |bins| && n <= |items|
    ensures Load(Costs(items), bins, n, s) == CostIn(Zip(items, bins)[..n], s)
  {
    if n > 0 {
      LoadIsCost(items, bins, n - 1, s);
      LoadNext(Costs(items), bins, n - 1, s);
      assert Zip(items, bins)[..n][..n - 1] == Zip(items, bins)[..n - 1];
    }
  }

  lemma {:induction false} DealtIsPaths(items: seq<Item>, bins: seq<nat>, n: nat, s: nat)
    requires |items| == |bins| && n <= |items|
    ensures multiset(Dealt(items, bins, n, s)) == PathsIn(Zip(items, bins)[..n], s)
  {
    if n > 0 {
      DealtIsPaths(items, bins, n - 1, s);
      assert Zip(items, bins)[..n][..n - 1] == Zip(items, bins)[..n - 1];
    }
  }

  // ---------- the items of a plan ----------

  /** The items of a division, in their own order. */
  ghost function PlacedAs(p: Plan, d: Division): seq<Placed>
    requires Divides(p, d) && |Items(p)| == |d.tests| + |d.builds|
  {
    Zip(Items(p), d.tests + d.builds)
  }

  lemma {:induction false} TestsTake(z: seq<Placed>, p: Plan, tests: seq<Test>, to: seq<nat>, n: nat, s: nat)
    requires |tests| == |to| && n <= |to| && z == Zip(Map(tests, SingleItem(p)), to)
    ensures CostIn(z[..n], s) == TimeOfTests(p, tests, to, n, s)
    ensures PathsIn(z[..n], s) == multiset(LoneIn(tests, to, n, s))
  {
    if n > 0 {
      TestsTake(z, p, tests, to, n - 1, s);
      assert z[..n][..n - 1] == z[..n - 1];
    }
  }

  lemma {:induction false} BuildsTake(z: seq<Placed>, p: Plan, builds: seq<Build>, to: seq<nat>, n: nat, s: nat)
    requires |builds| == |to| && n <= |to| && z == Zip(Map(builds, BuildItem(p)), to)
    ensures CostIn(z[..n], s) == TimeOfBuilds(builds, to, n, s)
    ensures PathsIn(z[..n], s) == multiset(FilesIn(builds, to, n, s))
  {
    if n > 0 {
      BuildsTake(z, p, builds, to, n - 1, s);
      assert z[..n][..n - 1] == z[..n - 1];
    }
  }

  lemma ItemsAre(p: Plan)
    ensures Items(p) == Map(Lone(p), SingleItem(p)) + Map(p.builds, BuildItem(p))
    ensures |Items(p)| == |Lone(p)| + |p.builds|
  {}

  lemma PartsTake(x: seq<Item>, y: seq<Item>, a: seq<nat>, b: seq<nat>, s: nat)
    requires |x| == |a| && |y| == |b|
    ensures CostIn(Zip(x + y, a + b), s) == CostIn(Zip(x, a), s) + CostIn(Zip(y, b), s)
    ensures PathsIn(Zip(x + y, a + b), s) == PathsIn(Zip(x, a), s) + PathsIn(Zip(y, b), s)
  {
    assert Zip(x + y, a + b) == Zip(x, a) + Zip(y, b);
    JoinedIn(Zip(x, a), Zip(y, b), s);
  }

  lemma AllTestsTake(p: Plan, tests: seq<Test>, to: seq<nat>, s: nat)
    requires |tests| == |to|
    ensures CostIn(Zip(Map(tests, SingleItem(p)), to), s) == TimeOfTests(p, tests, to, |to|, s)
    ensures PathsIn(Zip(Map(tests, SingleItem(p)), to), s) == multiset(LoneIn(tests, to, |to|, s))
  {
    var z := Zip(Map(tests, SingleItem(p)), to);
    assert z[..|to|] == z;
    TestsTake(z, p, tests, to, |to|, s);
  }

  lemma AllBuildsTake(p: Plan, builds: seq<Build>, to: seq<nat>, s: nat)
    requires |builds| == |to|
    ensures CostIn(Zip(Map(builds, BuildItem(p)), to), s) == TimeOfBuilds(builds, to, |to|, s)
    ensures PathsIn(Zip(Map(builds, BuildItem(p)), to), s) == multiset(FilesIn(builds, to, |to|, s))
  {
    var z := Zip(Map(builds, BuildItem(p)), to);
    assert z[..|to|] == z;
    BuildsTake(z, p, builds, to, |to|, s);
  }

  lemma PlanTakes(p: Plan, d: Division, s: nat)
    requires Divides(p, d) && |Items(p)| == |d.tests| + |d.builds|
    ensures CostIn(PlacedAs(p, d), s) == TimeOf(p, d, s) && PathsIn(PlacedAs(p, d), s) == TestsOf(p, d, s)
  {
    ItemsAre(p);
    PartsTake(Map(Lone(p), SingleItem(p)), Map(p.builds, BuildItem(p)), d.tests, d.builds, s);
    AllTestsTake(p, Lone(p), d.tests, s);
    AllBuildsTake(p, p.builds, d.builds, s);
  }

  ghost function BinsIn(z: seq<Placed>): (r: seq<nat>)
    ensures |r| == |z| && forall i :: 0 <= i < |z| ==> r[i] == z[i].1
  {
    seq<nat>(|z|, i requires 0 <= i < |z| => z[i].1)
  }

  lemma Unzip(z: seq<Placed>, items: seq<Item>)
    requires |z| == |items| && forall i :: 0 <= i < |z| ==> z[i].0 == items[i]
    ensures Zip(items, BinsIn(z)) == z
  {}

  lemma BinsBelow(z: seq<Placed>, m: nat)
    requires forall x :: x in z ==> x.1 < m
    ensures forall i :: 0 <= i < |z| ==> BinsIn(z)[i] < m
  {
    assert forall i :: 0 <= i < |z| ==> z[i] in z;
  }

  /** The division that the bins of the items make. */
  lemma DivisionOf(p: Plan, bins: seq<nat>) returns (d: Division)
    requires |bins| == |Items(p)| && forall i :: 0 <= i < |bins| ==> bins[i] < p.maxShards
    ensures Divides(p, d) && d.tests + d.builds == bins && |Items(p)| == |d.tests| + |d.builds|
  {
    ItemsAre(p);
    d := Division(bins[..|Lone(p)|], bins[|Lone(p)|..]);
  }

  // ---------- the division of the runner ----------

  lemma BinsPlace(p: Plan) returns (z: seq<Placed>)
    requires p.maxShards > 0
    ensures z == Zip(Order(p), BinsOf(p)) && multiset(ItemsOf(z)) == multiset(Items(p))
    ensures forall x :: x in z ==> x.1 < p.maxShards
  {
    z := Zip(Order(p), BinsOf(p));
    assert ItemsOf(z) == Order(p);
    SortPermutes(Items(p), ByCost);
    PackingIsPacking(Costs(Order(p)), p.maxShards);
    PackingAssigns(Costs(Order(p)), BinsOf(p), p.maxShards);
  }

  lemma WholeBin(items: seq<Item>, bins: seq<nat>, s: nat)
    requires |items| == |bins|
    ensures CostIn(Zip(items, bins), s) == Load(Costs(items), bins, |items|, s)
    ensures PathsIn(Zip(items, bins), s) == multiset(Dealt(items, bins, |items|, s))
  {
    assert Zip(items, bins)[..|items|] == Zip(items, bins);
    LoadIsCost(items, bins, |items|, s);
    DealtIsPaths(items, bins, |items|, s);
  }

  /** The load of bin `s` of the runner. */
  ghost function RunnerLoad(p: Plan, s: nat): real
    requires p.maxShards > 0
  {
    Load(Costs(Order(p)), BinsOf(p), |Order(p)|, s)
  }

  lemma ShardOfBin(p: Plan, s: nat)
    requires p.maxShards > 0
    ensures CostIn(Zip(Order(p), BinsOf(p)), s) == RunnerLoad(p, s)
    ensures PathsIn(Zip(Order(p), BinsOf(p)), s) == multiset(Shard(p, s))
  {
    WholeBin(Order(p), BinsOf(p), s);
    ShardHoldsTheDealt(p, s);
  }

  /** What the runner does is a division: shard `s` runs its tests, and the bin of shard `s` is as full as they take. */
  lemma RunnerDivides(p: Plan) returns (d: Division)
    requires p.maxShards > 0
    ensures Divides(p, d)
    ensures forall s: nat :: TimeOf(p, d, s) == RunnerLoad(p, s) && TestsOf(p, d, s) == multiset(Shard(p, s))
  {
    var z := BinsPlace(p);
    var z' := Rearranged(z, Items(p));
    BinsBelow(z', p.maxShards);
    Unzip(z', Items(p));
    d := DivisionOf(p, BinsIn(z'));
    forall s: nat ensures TimeOf(p, d, s) == RunnerLoad(p, s) && TestsOf(p, d, s) == multiset(Shard(p, s)) {
      PlanTakes(p, d, s);
      ShardOfBin(p, s);
    }
  }

  /** Any division assigns the items in the order in which the runner deals them. */
  lemma AssignmentOf(p: Plan, d: Division, order: seq<Item>) returns (a: seq<nat>)
    requires Divides(p, d) && multiset(order) == multiset(Items(p))
    ensures |a| == |order| && forall i :: 0 <= i < |a| ==> a[i] < p.maxShards
    ensures forall s: nat :: Load(Costs(order), a, |order|, s) == TimeOf(p, d, s)
  {
    ItemsAre(p);
    var z := PlacedAs(p, d);
    assert ItemsOf(z) == Items(p);
    var z' := Rearranged(z, order);
    BinsBelow(z', p.maxShards);
    Unzip(z', order);
    a := BinsIn(z');
    forall s: nat ensures Load(Costs(order), a, |order|, s) == TimeOf(p, d, s) {
      WholeBin(order, a, s);
      PlanTakes(p, d, s);
    }
  }

  lemma Third(m: nat)
    requires m > 0
    ensures 4.0 / 3.0 - 1.0 / (3.0 * m as real) >= 0.0
  {
    var r := 1.0 / (3.0 * m as real);
    assert r * (3.0 * m as real) == 1.0;
    assert r * (m as real - 1.0) >= 0.0;
  }

  lemma BoundGrows(m: nat, x: real, y: real)
    requires m > 0 && x <= y
    ensures LongestFirstBound(m, x) <= LongestFirstBound(m, y)
  {
    Third(m);
    Scale(4.0 / 3.0 - 1.0 / (3.0 * m as real), x, y);
  }

  /** No other assignment is better by more than the factor. */
  ghost predicate AreBalanced(c: seq<real>, bins: seq<nat>, m: nat)
    requires m > 0 && |bins| == |c|
  {
    forall a: seq<nat> :: Assigns(a, c, m) ==> Makespan(c, bins, m) <= LongestFirstBound(m, Makespan(c, a, m))
  }

  /** From the fullest bins to all of them. */
  lemma EveryBin(c: seq<real>, bins: seq<nat>, a: seq<nat>, m: nat, x: real)
    requires m > 0 && |bins| == |c| && AreBalanced(c, bins, m) && Assigns(a, c, m) && Within(c, a, |c|, m, x)
    ensures Within(c, bins, |c|, m, LongestFirstBound(m, x))
  {
    BoundGrows(m, Makespan(c, a, m), x);
  }

  lemma OtherIsNoBetter(p: Plan, other: Division, x: real, order: seq<Item>, bins: seq<nat>)
    requires p.maxShards > 0 && Divides(p, other) && TakesAtMost(p, other, x)
    requires multiset(order) == multiset(Items(p)) && |bins| == |order| && AreBalanced(Costs(order), bins, p.maxShards)
    ensures Within(Costs(order), bins, |order|, p.maxShards, LongestFirstBound(p.maxShards, x))
  {
    var a := AssignmentOf(p, other, order);
    EveryBin(Costs(order), bins, a, p.maxShards, x);
  }

  lemma RunnerIsBalanced(p: Plan)
    requires p.maxShards > 0 && NonNegativeCosts(p)
    ensures AreBalanced(Costs(Order(p)), BinsOf(p), p.maxShards)
  {
    forall a: seq<nat> | Assigns(a, Costs(Order(p)), p.maxShards)
      ensures Makespan(Costs(Order(p)), BinsOf(p), p.maxShards) <= LongestFirstBound(p.maxShards, Makespan(Costs(Order(p)), a, p.maxShards))
    {
      ItemsAreBalanced(p, a);
    }
  }

  lemma InBin(p: Plan, c: seq<real>, bins: seq<nat>, s: nat, bound: real)
    requires s < p.maxShards && c == Costs(Order(p)) && bins == BinsOf(p) && Within(c, bins, |c|, p.maxShards, bound)
    ensures RunnerLoad(p, s) <= bound
  {}

  lemma RunnerIsNoWorse(p: Plan, other: Division, x: real, bound: real)
    requires p.maxShards > 0 && NonNegativeCosts(p) && Divides(p, other) && TakesAtMost(p, other, x)
    requires bound == LongestFirstBound(p.maxShards, x)
    ensures Within(Costs(Order(p)), BinsOf(p), |Order(p)|, p.maxShards, bound)
  {
    SortPermutes(Items(p), ByCost);
    RunnerIsBalanced(p);
    OtherIsNoBetter(p, other, x, Order(p), BinsOf(p));
  }

  lemma RunnerTakesAtMost(p: Plan, d: Division, other: Division, x: real, bound: real)
    requires p.maxShards > 0 && NonNegativeCosts(p) && Divides(p, d) && Divides(p, other) && TakesAtMost(p, other, x)
    requires bound == LongestFirstBound(p.maxShards, x) && forall s: nat :: TimeOf(p, d, s) == RunnerLoad(p, s)
    ensures TakesAtMost(p, d, bound)
  {
    RunnerIsNoWorse(p, other, x, bound);
    forall s: nat | s < p.maxShards ensures TimeOf(p, d, s) <= bound {
      InBin(p, Costs(Order(p)), BinsOf(p), s, bound);
    }
  }

  /** No division of the plan is faster by more than the factor 4/3 - 1/(3m). */
  ghost predicate IsBalanced(p: Plan, d: Division)
    requires p.maxShards > 0 && Divides(p, d)
  {
    forall other: Division, x: real :: Divides(p, other) && TakesAtMost(p, other, x) ==>
      TakesAtMost(p, d, LongestFirstBound(p.maxShards, x))
  }

  /** What the runner does is a division in which each shard runs exactly its tests, and it is balanced by the
      durations of the tests and the times of the builds. */
  lemma ShardsAreBalanced(p: Plan) returns (d: Division)
    requires p.maxShards > 0 && NonNegativeCosts(p)
    ensures Divides(p, d) && forall s: nat :: s < p.maxShards ==> TestsOf(p, d, s) == multiset(Shard(p, s))
    ensures IsBalanced(p, d)
  {
    d := RunnerDivides(p);
    forall other: Division, x: real | Divides(p, other) && TakesAtMost(p, other, x)
      ensures TakesAtMost(p, d, LongestFirstBound(p.maxShards, x))
    {
      RunnerTakesAtMost(p, d, other, x, LongestFirstBound(p.maxShards, x));
    }
  }
}
