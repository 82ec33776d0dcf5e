/** When the shards of a run agree: every shard computes the division on its own, from a list of builds
    that it asked for itself, and the same builds may come in another order. */
module ShardAgreement {
  import opened Lists
  import opened Lpt
  import opened Sharding

  // ---------- items and their tests ----------

  lemma PathsOfLast(items: seq<Item>, t: Test)
    requires items != []
    ensures var n := |items| - 1;
            multiset(AllPaths(items))[t] == multiset(AllPaths(items[..n]))[t] + multiset(items[n].testPaths)[t]
    ensures t in items[|items| - 1].testPaths ==> multiset(items[|items| - 1].testPaths)[t] >= 1
  {}

  lemma {:induction false} TestInItem(items: seq<Item>, i: nat, t: Test)
    requires i < |items| && t in items[i].testPaths
    ensures multiset(AllPaths(items))[t] >= 1 && t in AllPaths(items)
  {
    PathsOfLast(items, t);
    if i < |items| - 1 { TestInItem(items[..|items| - 1], i, t); }
  }

  lemma {:induction false} TestInTwoItems(items: seq<Item>, i: nat, j: nat, t: Test)
    requires i < j < |items| && t in items[i].testPaths && t in items[j].testPaths
    ensures multiset(AllPaths(items))[t] >= 2
  {
    var init := items[..|items| - 1];
    PathsOfLast(items, t);
    if j < |items| - 1 {
      TestInTwoItems(init, i, j, t);
    } else {
      assert init[i] == items[i];
      TestInItem(init, i, t);
    }
  }

  lemma FirstTestIsAvailable(p: Plan, x: Item)
    requires ListsEachProgramOnce(p) && x in Items(p) && x.testPaths != []
    ensures x.testPaths[0] in p.available
  {
    ItemsHoldTheTests(p);
    SameMembers(AllPaths(Items(p)), p.available);
    var i: nat :| i < |Items(p)| && Items(p)[i] == x;
    TestInItem(Items(p), i, x.testPaths[0]);
  }

  /** The item is ranked by the place of its first test. */
  ghost predicate Indexed(p: Plan, x: Item) {
    && x.testPaths != [] && x.originalIndex.Some?
    && x.originalIndex.value < |p.available| && p.available[x.originalIndex.value] == x.testPaths[0]
  }

  lemma ItemsAreIndexed(p: Plan, x: Item)
    requires ListsEachProgramOnce(p) && x in Items(p) && x.testPaths != []
    ensures Indexed(p, x)
  {
    ItemOrigin(p, x);
    FirstTestIsAvailable(p, x);
  }

  lemma OneItemHolds(items: seq<Item>, x: Item, y: Item, t: Test)
    requires multiset(AllPaths(items))[t] <= 1
    requires x in items && y in items && t in x.testPaths && t in y.testPaths
    ensures x == y
  {
    var i: nat :| i < |items| && items[i] == x;
    var j: nat :| j < |items| && items[j] == y;
    if i < j {
      TestInTwoItems(items, i, j, t);
    } else if j < i {
      TestInTwoItems(items, j, i, t);
    }
  }

  lemma SameFirstTest(p: Plan, x: Item, y: Item)
    requires Distinct(p.available) && ListsEachProgramOnce(p)
    requires x in Items(p) && y in Items(p) && x.testPaths != [] && y.testPaths != []
    requires x.testPaths[0] == y.testPaths[0]
    ensures x == y
  {
    ItemsHoldTheTests(p);
    DistinctCount(p.available, x.testPaths[0]);
    OneItemHolds(Items(p), x, y, x.testPaths[0]);
  }

  lemma IndexedOrEmpty(p: Plan, x: Item)
    requires ListsEachProgramOnce(p) && x in Items(p)
    ensures x.originalIndex.None? <==> x.testPaths == []
    ensures x.testPaths == [] ==> exists b :: b in p.builds && b.files == [] && x == BuildItem(p)(b)
  {
    ItemOrigin(p, x);
    if x.testPaths != [] {
      ItemsAreIndexed(p, x);
    }
  }

  // ---------- sorting by a rank ----------

  /** A total order that `ByCost` follows where no index is missing. Items without one come last. */
  predicate ByRank(x: Item, y: Item) {
    || x.cost > y.cost
    || (x.cost == y.cost &&
        (y.originalIndex.None? || (x.originalIndex.Some? && x.originalIndex.value <= y.originalIndex.value)))
  }

  /** `x` has no index, and `y` has one and costs the same. */
  predicate Tie(x: Item, y: Item) {
    x.originalIndex.None? && y.originalIndex.Some? && x.cost == y.cost
  }

  lemma {:induction false} InsertByRank(s: seq<Item>, x: Item)
    requires forall y :: y in s ==> !Tie(y, x)
    ensures Insert(s, x, ByCost) == Insert(s, x, ByRank)
  {
    if s != [] {
      assert s[|s| - 1] in s;
      assert ByCost(s[|s| - 1], x) == ByRank(s[|s| - 1], x);
      InsertByRank(s[..|s| - 1], x);
    }
  }

  ghost predicate TiesOnlyAfter(s: seq<Item>) {
    forall i, j :: 0 <= i < j < |s| ==> !Tie(s[i], s[j])
  }

  /** The two orders agree on a list where no item without an index stands before one that it ties with. */
  lemma {:induction false} SortByRank(s: seq<Item>)
    requires TiesOnlyAfter(s)
    ensures Sort(s, ByCost) == Sort(s, ByRank)
  {
    if s != [] {
      var init, x := s[..|s| - 1], s[|s| - 1];
      SortByRank(init);
      SortPermutes(init, ByRank);
      SameMembers(Sort(init, ByRank), init);
      InsertByRank(Sort(init, ByRank), x);
    }
  }

  // ---------- the items that cost something ----------

  function Costly(): Item -> bool {
    (x: Item) => x.cost > 0.0
  }

  function Free(): Item -> bool {
    (x: Item) => !(x.cost > 0.0)
  }

  lemma CostlyAppend(s: seq<Item>, x: Item)
    ensures Filter(s + [x], Costly()) == Filter(s, Costly()) + if x.cost > 0.0 then [x] else []
  {
    assert (s + [x])[..|s|] == s;
  }

  /** The item stays behind the last one. */
  lemma CostlyBehind(init: seq<Item>, last: Item, x: Item)
    requires ByCost(last, x)
    ensures var s := init + [last];
            Filter(s + [x], Costly()) == if x.cost > 0.0 then Insert(Filter(s, Costly()), x, ByCost) else Filter(s, Costly())
  {
    CostlyAppend(init + [last], x);
    CostlyAppend(init, last);
    InsertAppend(Filter(init, Costly()), last, x, ByCost);
    Regroup(Filter(init + [last], Costly()), [], []);
  }

  /** The item goes further to the front than the last one. */
  lemma CostlyBefore(init: seq<Item>, last: Item, x: Item)
    requires !ByCost(last, x)
    requires Filter(Insert(init, x, ByCost), Costly()) ==
             if x.cost > 0.0 then Insert(Filter(init, Costly()), x, ByCost) else Filter(init, Costly())
    ensures var s := init + [last];
            Filter(Insert(init, x, ByCost) + [last], Costly()) ==
            if x.cost > 0.0 then Insert(Filter(s, Costly()), x, ByCost) else Filter(s, Costly())
  {
    CostlyAppend(Insert(init, x, ByCost), last);
    CostlyAppend(init, last);
    InsertAppend(Filter(init, Costly()), last, x, ByCost);
    Regroup(Filter(init, Costly()), [], []);
    Regroup(Filter(Insert(init, x, ByCost), Costly()), [], []);
  }

  /** Items that cost nothing do not change how the others are sorted. */
  lemma {:induction false} CostlyOfInsert(s: seq<Item>, x: Item)
    ensures Filter(Insert(s, x, ByCost), Costly()) ==
            if x.cost > 0.0 then Insert(Filter(s, Costly()), x, ByCost) else Filter(s, Costly())
  {
    if s == [] {
      CostlyAppend(s, x);
    } else {
      var init, last := s[..|s| - 1], s[|s| - 1];
      assert s == init + [last];
      InsertAppend(init, last, x, ByCost);
      if ByCost(last, x) {
        CostlyBehind(init, last, x);
      } else {
        CostlyOfInsert(init, x);
        CostlyBefore(init, last, x);
      }
    }
  }

  lemma {:induction false} CostlyOfSort(s: seq<Item>)
    ensures Filter(Sort(s, ByCost), Costly()) == Sort(Filter(s, Costly()), ByCost)
  {
    if s != [] {
      var init, x := s[..|s| - 1], s[|s| - 1];
      assert s == init + [x];
      CostlyOfSort(init);
      SortAppend(init, x, ByCost);
      CostlyOfInsert(Sort(init, ByCost), x);
      CostlyAppend(init, x);
      SortAppend(Filter(init, Costly()), x, ByCost);
      Regroup(Filter(init, Costly()), [], []);
    }
  }

  lemma {:induction false} NoneIsFree(s: seq<Item>)
    requires forall i :: 0 <= i < |s| ==> s[i].cost > 0.0
    ensures Filter(s, Free()) == []
  {
    if s != [] { NoneIsFree(s[..|s| - 1]); }
  }

  /** A list that descends by cost is what costs something, then what costs nothing. */
  lemma {:induction false} CostlyThenFree(s: seq<Item>)
    requires Descends(s)
    ensures s == Filter(s, Costly()) + Filter(s, Free())
  {
    if s != [] {
      var init, x := s[..|s| - 1], s[|s| - 1];
      assert s == init + [x];
      CostlyThenFree(init);
      if x.cost > 0.0 {
        NoneIsFree(init);
        Regroup(Filter(init, Costly()), [], []);
        Regroup(Filter(s, Costly()), [], []);
      } else {
        Regroup(Filter(init, Costly()), Filter(init, Free()), [x]);
        Regroup(Filter(init, Costly()), [], []);
      }
    }
  }

  // ---------- agreement on what costs something ----------

  /** No build without files costs as much as one with files, unless that is nothing. */
  ghost predicate NoCostlyTie(builds: seq<Build>) {
    forall e, b :: e in builds && b in builds && e.files == [] && e.ms > 0.0 && b.files != [] ==> e.ms != b.ms
  }

  function SinglesOf(p: Plan): seq<Item> {
    Map(Filter(p.available, t => !p.isProgram(t)), SingleItem(p))
  }

  function BuildsOf(p: Plan): seq<Item> {
    Map(p.builds, BuildItem(p))
  }

  lemma CostlyItemsSplit(p: Plan)
    ensures Filter(Items(p), Costly()) == Filter(SinglesOf(p), Costly()) + Filter(BuildsOf(p), Costly())
  {
    FilterAppend(SinglesOf(p), BuildsOf(p), Costly());
  }

  lemma SinglesHaveIndices(p: Plan, x: Item)
    requires x in Filter(SinglesOf(p), Costly())
    ensures x.originalIndex.Some?
  {
    FilterMembers(SinglesOf(p), Costly(), x);
    var singles := Filter(p.available, t => !p.isProgram(t));
    var i :| 0 <= i < |SinglesOf(p)| && SinglesOf(p)[i] == x;
    FilterMembers(p.available, t => !p.isProgram(t), singles[i]);
  }

  lemma BuildOfItem(p: Plan, x: Item) returns (b: Build)
    requires x in Filter(BuildsOf(p), Costly())
    ensures b in p.builds && x == BuildItem(p)(b) && x.cost > 0.0
  {
    FilterMembers(BuildsOf(p), Costly(), x);
    var i :| 0 <= i < |BuildsOf(p)| && BuildsOf(p)[i] == x;
    b := p.builds[i];
  }

  lemma NoTieAmongBuilds(p: Plan, x: Item, y: Item)
    requires NoCostlyTie(p.builds) && ListsEachProgramOnce(p)
    requires x in Filter(BuildsOf(p), Costly()) && y in Filter(BuildsOf(p), Costly())
    ensures !Tie(x, y)
  {
    var e := BuildOfItem(p, x);
    var b := BuildOfItem(p, y);
    assert x in Items(p) by { ItemsOfBuilds(p, e); }
    IndexedOrEmpty(p, x);
  }

  lemma ItemsOfBuilds(p: Plan, b: Build)
    requires b in p.builds
    ensures BuildItem(p)(b) in Items(p)
  {
    var i :| 0 <= i < |p.builds| && p.builds[i] == b;
    assert Items(p)[|SinglesOf(p)| + i] == BuildItem(p)(b);
  }

  lemma CostlyTiesOnlyAfter(p: Plan)
    requires NoCostlyTie(p.builds) && ListsEachProgramOnce(p)
    ensures TiesOnlyAfter(Filter(Items(p), Costly()))
  {
    var singles, builds := Filter(SinglesOf(p), Costly()), Filter(BuildsOf(p), Costly());
    var s := singles + builds;
    CostlyItemsSplit(p);
    forall i, j | 0 <= i < j < |s| ensures !Tie(s[i], s[j]) {
      if i < |singles| {
        SinglesHaveIndices(p, s[i]);
      } else {
        NoTieAmongBuilds(p, s[i], s[j]);
      }
    }
  }

  lemma RankOrders(s: seq<Item>)
    ensures Orders(ByRank, s)
  {}

  lemma RankIsAntisymmetric(p: Plan)
    requires Distinct(p.available) && ListsEachProgramOnce(p)
    ensures Antisymmetric(ByRank, Items(p))
  {
    forall x, y | x in Items(p) && y in Items(p) && ByRank(x, y) && ByRank(y, x) ensures x == y {
      IndexedOrEmpty(p, x);
      IndexedOrEmpty(p, y);
      if x.testPaths != [] {
        ItemsAreIndexed(p, x);
        ItemsAreIndexed(p, y);
        SameFirstTest(p, x, y);
      }
    }
  }

  /** The items that cost something, in the order in which they are dealt. */
  ghost function CostlyOrder(p: Plan): seq<Item> {
    Filter(Order(p), Costly())
  }

  lemma CostlyOrderIsRanked(p: Plan)
    requires NoCostlyTie(p.builds) && ListsEachProgramOnce(p)
    ensures CostlyOrder(p) == Sort(Filter(Items(p), Costly()), ByRank)
  {
    CostlyOfSort(Items(p));
    CostlyTiesOnlyAfter(p);
    SortByRank(Filter(Items(p), Costly()));
  }

  lemma ItemsPermuted(p: Plan, builds: seq<Build>)
    requires multiset(builds) == multiset(p.builds)
    ensures multiset(Items(p.(builds := builds))) == multiset(Items(p))
  {
    var q := p.(builds := builds);
    MapPermuted(builds, p.builds, BuildItem(p));
    assert BuildsOf(q) == Map(builds, BuildItem(p));
    assert SinglesOf(q) == SinglesOf(p);
  }

  lemma ListsPermuted(p: Plan, builds: seq<Build>)
    requires multiset(builds) == multiset(p.builds) && ListsEachProgramOnce(p)
    ensures ListsEachProgramOnce(p.(builds := builds))
  {
    MapPermuted(builds, p.builds, (b: Build) => b.files);
    FlattenPermuted(Map(builds, (b: Build) => b.files), Map(p.builds, (b: Build) => b.files));
  }

  lemma CostlyOrdersAgree(p: Plan, builds: seq<Build>)
    requires Distinct(p.available) && ListsEachProgramOnce(p) && NoCostlyTie(p.builds)
    requires multiset(builds) == multiset(p.builds)
    ensures CostlyOrder(p.(builds := builds)) == CostlyOrder(p)
  {
    var q := p.(builds := builds);
    ItemsPermuted(p, builds);
    ListsPermuted(p, builds);
    SameMembers(builds, p.builds);
    FilterPermuted(Items(q), Items(p), Costly());
    CostlyOrderIsRanked(p);
    CostlyOrderIsRanked(q);
    var s, t := Filter(Items(p), Costly()), Filter(Items(q), Costly());
    RankOrders(s);
    RankIsAntisymmetric(p);
    forall x | x in s ensures x in Items(p) {
      FilterMembers(Items(p), Costly(), x);
    }
    SortForgetsOrder(s, t, ByRank);
  }

  // ---------- items that cost nothing share a bin ----------

  /** The bin of everything that costs nothing. */
  function LastBin(costly: seq<Item>, m: nat): nat
    requires m > 0
  {
    LeastLoaded(Costs(costly), Packing(Costs(costly), m, |costly|), |costly|, m)
  }

  function BinsFor(order: seq<Item>, m: nat): (bins: seq<nat>)
    requires m > 0
    ensures |bins| == |order|
  {
    Packing(Costs(order), m, |order|)
  }

  ghost predicate SameLoads(order: seq<Item>, other: seq<Item>, m: nat)
    requires m > 0
  {
    forall s: nat :: Load(Costs(order), BinsFor(order, m), |order|, s) == Load(Costs(other), BinsFor(other, m), |other|, s)
  }

  lemma BinsNext(order: seq<Item>, x: Item, m: nat)
    requires m > 0
    ensures BinsFor(order + [x], m) == BinsFor(order, m) + [LeastLoaded(Costs(order), BinsFor(order, m), |order|, m)]
    ensures forall s: nat :: Load(Costs(order + [x]), BinsFor(order + [x], m), |order|, s) ==
                             Load(Costs(order), BinsFor(order, m), |order|, s)
  {
    var c, d, n := Costs(order + [x]), Costs(order), |order|;
    var a := BinsFor(order, m);
    assert c[..n] == d[..n];
    PackingOfPrefix(c, d, m, n);
    forall s: nat ensures Load(c, a, n, s) == Load(d, a, n, s) {
      LoadOfCosts(c, d, a, n, s);
    }
    SameLeast(c, a, n, d, a, n, m);
    var b := BinsFor(order + [x], m);
    forall s: nat ensures Load(c, b, n, s) == Load(c, a, n, s) {
      assert b[..n] == a[..n];
      LoadOfPrefix(c, b, a, n, s);
    }
  }

  /** Another item that costs nothing goes where the ones before it went. */
  lemma FreeNext(costly: seq<Item>, order: seq<Item>, x: Item, m: nat)
    requires m > 0 && x.cost == 0.0 && SameLoads(order, costly, m)
    ensures SameLoads(order + [x], costly, m)
    ensures BinsFor(order + [x], m) == BinsFor(order, m) + [LastBin(costly, m)]
  {
    BinsNext(order, x, m);
    SameLeast(Costs(order), BinsFor(order, m), |order|, Costs(costly), BinsFor(costly, m), |costly|, m);
    forall s: nat ensures Load(Costs(order + [x]), BinsFor(order + [x], m), |order + [x]|, s) ==
                          Load(Costs(costly), BinsFor(costly, m), |costly|, s)
    {
      LoadNext(Costs(order + [x]), BinsFor(order + [x], m), |order|, s);
    }
  }

  /** The tests dealt to bin `s`, as far as they are known without the order of what costs nothing. */
  ghost function KnownOf(costly: seq<Item>, free: seq<Item>, m: nat, s: nat): multiset<Test>
    requires m > 0
  {
    multiset(Dealt(costly, BinsFor(costly, m), |costly|, s)) + if s == LastBin(costly, m) then multiset(AllPaths(free)) else multiset{}
  }

  lemma DealtNext(order: seq<Item>, x: Item, bins: seq<nat>, bin: nat, s: nat)
    requires |bins| == |order|
    ensures Dealt(order + [x], bins + [bin], |order| + 1, s) == Dealt(order, bins, |order|, s) + if bin == s then x.testPaths else []
  {
    DealtOfItems(order + [x], order, bins + [bin], bins, |order|, s);
  }

  lemma {:induction false} DealtOfItems(order: seq<Item>, other: seq<Item>, a: seq<nat>, b: seq<nat>, n: nat, s: nat)
    requires n <= |order| && n <= |other| && n <= |a| && n <= |b| && order[..n] == other[..n] && a[..n] == b[..n]
    ensures Dealt(order, a, n, s) == Dealt(other, b, n, s)
  {
    if n > 0 {
      assert order[..n][n - 1] == other[..n][n - 1] && a[..n][n - 1] == b[..n][n - 1];
      assert order[..n - 1] == order[..n][..n - 1] && other[..n - 1] == other[..n][..n - 1];
      assert a[..n - 1] == a[..n][..n - 1] && b[..n - 1] == b[..n][..n - 1];
      DealtOfItems(order, other, a, b, n - 1, s);
    }
  }

  lemma {:induction false} FreeLoads(costly: seq<Item>, free: seq<Item>, m: nat)
    requires m > 0 && forall x :: x in free ==> x.cost == 0.0
    ensures SameLoads(costly + free, costly, m)
  {
    if free == [] {
      Regroup(costly, [], []);
    } else {
      var init, x := free[..|free| - 1], free[|free| - 1];
      FreeLoads(costly, init, m);
      FreeNext(costly, costly + init, x, m);
      assert costly + free == (costly + init) + [x];
    }
  }

  lemma KnownNext(costly: seq<Item>, free: seq<Item>, x: Item, m: nat, s: nat)
    requires m > 0
    ensures KnownOf(costly, free + [x], m, s) ==
            KnownOf(costly, free, m, s) + if s == LastBin(costly, m) then multiset(x.testPaths) else multiset{}
  {
    assert (free + [x])[..|free|] == free;
  }

  lemma DealtOneMore(costly: seq<Item>, order: seq<Item>, x: Item, m: nat, s: nat)
    requires m > 0 && BinsFor(order + [x], m) == BinsFor(order, m) + [LastBin(costly, m)]
    ensures multiset(Dealt(order + [x], BinsFor(order + [x], m), |order + [x]|, s)) ==
            multiset(Dealt(order, BinsFor(order, m), |order|, s)) + if s == LastBin(costly, m) then multiset(x.testPaths) else multiset{}
  {
    DealtNext(order, x, BinsFor(order, m), LastBin(costly, m), s);
  }

  lemma {:induction false} FreeDealt(costly: seq<Item>, free: seq<Item>, m: nat, s: nat)
    requires m > 0 && forall x :: x in free ==> x.cost == 0.0
    ensures multiset(Dealt(costly + free, BinsFor(costly + free, m), |costly + free|, s)) == KnownOf(costly, free, m, s)
  {
    if free == [] {
      Regroup(costly, [], []);
    } else {
      var init, x := free[..|free| - 1], free[|free| - 1];
      assert costly + free == (costly + init) + [x];
      FreeLoads(costly, init, m);
      FreeNext(costly, costly + init, x, m);
      FreeDealt(costly, init, m, s);
      DealtOneMore(costly, costly + init, x, m, s);
      assert free == init + [x];
      KnownNext(costly, init, x, m, s);
    }
  }

  lemma {:induction false} PathsAreFlat(items: seq<Item>)
    ensures AllPaths(items) == Flatten(Map(items, (x: Item) => x.testPaths))
  {
    if items != [] {
      var init := items[..|items| - 1];
      PathsAreFlat(init);
      assert Map(items, (x: Item) => x.testPaths)[..|init|] == Map(init, (x: Item) => x.testPaths);
    }
  }

  lemma PathsPermuted(s: seq<Item>, t: seq<Item>)
    requires multiset(s) == multiset(t)
    ensures multiset(AllPaths(s)) == multiset(AllPaths(t))
  {
    PathsAreFlat(s);
    PathsAreFlat(t);
    MapPermuted(s, t, (x: Item) => x.testPaths);
    FlattenPermuted(Map(s, (x: Item) => x.testPaths), Map(t, (x: Item) => x.testPaths));
  }

  /** What a bin gets depends on the order of what costs something, and on the elements of the rest. */
  lemma DealtIsKnown(p: Plan, s: nat)
    requires p.maxShards > 0 && NonNegativeCosts(p)
    ensures multiset(DealtTo(p, s)) == KnownOf(CostlyOrder(p), Filter(Order(p), Free()), p.maxShards, s)
  {
    var free := Filter(Order(p), Free());
    SortDescends(Items(p));
    CostlyThenFree(Order(p));
    CostsAreNonNegative(p);
    SortPermutes(Items(p), ByCost);
    SameMembers(Order(p), Items(p));
    forall x | x in free ensures x.cost == 0.0 {
      FilterMembers(Order(p), Free(), x);
    }
    FreeDealt(CostlyOrder(p), free, p.maxShards, s);
  }

  // ---------- the shards agree ----------

  function EntryOf(available: seq<Test>): Test -> Entry {
    (t: Test) => Entry(t, IndexOf(available, t))
  }

  lemma EntriesAreIndexed(p: Plan, s: nat)
    requires s < p.maxShards && Distinct(p.available) && ListsEachProgramOnce(p)
    ensures Orders(ByIndex, EntriesOf(p.available, DealtTo(p, s)))
    ensures Antisymmetric(ByIndex, EntriesOf(p.available, DealtTo(p, s)))
  {
    var dealt := DealtTo(p, s);
    forall e | e in EntriesOf(p.available, dealt)
      ensures e.originalIndex.Some? && p.available[e.originalIndex.value] == e.testPath
    {
      ShardHoldsTheDealt(p, s);
      SameMembers(Shard(p, s), dealt);
      ShardsPartitionTheTests(p, e.testPath);
    }
  }

  lemma SameDealtSameShard(p: Plan, q: Plan, s: nat)
    requires s < p.maxShards == q.maxShards && p.available == q.available && Distinct(p.available) && ListsEachProgramOnce(p)
    requires multiset(DealtTo(p, s)) == multiset(DealtTo(q, s))
    ensures Shard(p, s) == Shard(q, s)
  {
    var available, a, b := p.available, DealtTo(p, s), DealtTo(q, s);
    MapPermuted(a, b, EntryOf(available));
    assert Map(a, EntryOf(available)) == EntriesOf(available, a);
    assert Map(b, EntryOf(available)) == EntriesOf(available, b);
    EntriesAreIndexed(p, s);
    SortForgetsOrder(EntriesOf(available, a), EntriesOf(available, b), ByIndex);
  }

  /** Shards that were dealt the same builds in another order divide the tests alike, unless a build without
      files costs as much as one with files, and more than nothing. */
  lemma ShardsAgree(p: Plan, builds: seq<Build>, s: nat)
    requires s < p.maxShards && Distinct(p.available) && ListsEachProgramOnce(p)
    requires NonNegativeCosts(p) && NoCostlyTie(p.builds)
    requires multiset(builds) == multiset(p.builds)
    ensures Shard(p.(builds := builds), s) == Shard(p, s)
  {
    var q := p.(builds := builds);
    SameMembers(builds, p.builds);
    CostlyOrdersAgree(p, builds);
    ItemsPermuted(p, builds);
    SortPermutes(Items(p), ByCost);
    SortPermutes(Items(q), ByCost);
    FilterPermuted(Order(p), Order(q), Free());
    PathsPermuted(Filter(Order(p), Free()), Filter(Order(q), Free()));
    DealtIsKnown(p, s);
    DealtIsKnown(q, s);
    SameDealtSameShard(p, q, s);
  }

  // ---------- and where they do not ----------

  /** Where `Insert` puts an item. */
  function Place(s: seq<Item>, x: Item): (k: nat)
    ensures k <= |s|
  {
    if s == [] || ByCost(s[|s| - 1], x) then |s| else Place(s[..|s| - 1], x)
  }

  lemma {:induction false} PlaceBounds(s: seq<Item>, x: Item)
    ensures Place(s, x) > 0 ==> ByCost(s[Place(s, x) - 1], x)
    ensures forall i :: Place(s, x) <= i < |s| ==> !ByCost(s[i], x)
  {
    if s != [] && !ByCost(s[|s| - 1], x) {
      PlaceBounds(s[..|s| - 1], x);
    }
  }

  lemma PutBefore<T>(init: seq<T>, last: T, x: T, k: nat)
    requires k <= |init|
    ensures var s := init + [last]; (init[..k] + [x] + init[k..]) + [last] == s[..k] + [x] + s[k..]
  {
    var s := init + [last];
    assert s[..k] == init[..k] && s[k..] == init[k..] + [last];
    Regroup(init[..k] + [x], init[k..], [last]);
  }

  lemma {:induction false} InsertSplits(s: seq<Item>, x: Item)
    ensures Insert(s, x, ByCost) == s[..Place(s, x)] + [x] + s[Place(s, x)..]
  {
    if s != [] && !ByCost(s[|s| - 1], x) {
      var init, last := s[..|s| - 1], s[|s| - 1];
      assert s == init + [last];
      InsertSplits(init, x);
      PutBefore(init, last, x, Place(init, x));
    } else {
      assert s[..|s|] == s && s[|s|..] == [];
      Regroup(s + [x], [], []);
    }
  }

  lemma InsertAt(s: seq<Item>, x: Item)
    ensures Insert(s, x, ByCost) == s[..Place(s, x)] + [x] + s[Place(s, x)..]
    ensures Place(s, x) > 0 ==> ByCost(s[Place(s, x) - 1], x)
    ensures forall i :: Place(s, x) <= i < |s| ==> !ByCost(s[i], x)
  {
    PlaceBounds(s, x);
    InsertSplits(s, x);
  }

  lemma {:induction false} PlaceIs(s: seq<Item>, x: Item, k: nat)
    requires k <= |s| && (k > 0 ==> ByCost(s[k - 1], x))
    requires forall i :: k <= i < |s| ==> !ByCost(s[i], x)
    ensures Place(s, x) == k
  {
    if k < |s| {
      assert !ByCost(s[|s| - 1], x);
      PlaceIs(s[..|s| - 1], x, k);
    }
  }

  lemma AtPlace(s: seq<Item>, x: Item)
    ensures var (k, t) := (Place(s, x), Insert(s, x, ByCost));
            && |t| == |s| + 1 && t[k] == x
            && (forall i :: 0 <= i < k ==> t[i] == s[i])
            && (forall i :: k < i < |t| ==> t[i] == s[i - 1])
  {
    InsertAt(s, x);
    Parts(s[..Place(s, x)], x, s[Place(s, x)..]);
  }

  lemma Parts<T>(a: seq<T>, x: T, b: seq<T>)
    ensures var t := a + [x] + b;
            && |t| == |a| + 1 + |b| && t[|a|] == x
            && (forall i :: 0 <= i < |a| ==> t[i] == a[i])
            && (forall i :: |a| < i < |t| ==> t[i] == b[i - |a| - 1])
  {}

  /** Of a build `b` and a build `e` without files that cost the same, `b` comes to a later place when `e` is
      inserted first. */
  lemma TiePlaces(s: seq<Item>, b: Item, e: Item) returns (i: nat, j: nat)
    requires Descends(s) && e.originalIndex.None? && b.cost == e.cost
    ensures var s1 := Insert(Insert(s, b, ByCost), e, ByCost); i < |s1| && s1[i] == b
    ensures var s2 := Insert(Insert(s, e, ByCost), b, ByCost); j < |s2| && s2[j] == b
    ensures i < j
  {
    i := PlaceWithFirst(s, b, e);
    j := PlaceWithSecond(s, b, e);
    InsertAt(s, b);
    InsertAt(s, e);
    if Place(s, b) > 0 {
      assert ByCost(s[Place(s, b) - 1], e);
    }
  }

  lemma PlaceWithFirst(s: seq<Item>, b: Item, e: Item) returns (i: nat)
    requires Descends(s) && e.originalIndex.None? && b.cost == e.cost
    ensures var s1 := Insert(Insert(s, b, ByCost), e, ByCost); i == Place(s, b) && i < |s1| && s1[i] == b
  {
    i := Place(s, b);
    var t := Insert(s, b, ByCost);
    AtPlace(s, b);
    AtPlace(t, e);
    InsertAt(t, e);
    assert ByCost(t[i], e);
  }

  lemma PlaceWithSecond(s: seq<Item>, b: Item, e: Item) returns (j: nat)
    requires Descends(s) && e.originalIndex.None? && b.cost == e.cost
    ensures var s2 := Insert(Insert(s, e, ByCost), b, ByCost); j == Place(s, e) + 1 && j < |s2| && s2[j] == b
  {
    var k, t := Place(s, e), Insert(s, e, ByCost);
    j := k + 1;
    InsertAt(s, e);
    AtPlace(s, e);
    forall i | k + 1 <= i < |t| ensures !ByCost(t[i], b) {
      assert t[i] == s[i - 1] && !ByCost(s[i - 1], e);
    }
    PlaceIs(t, b, k + 1);
    AtPlace(t, b);
  }

  /** With a shard for every item, an item that costs something is dealt to the shard of its number. */
  lemma OwnShard(p: Plan, k: nat, t: Test)
    requires k < |Order(p)| && |Order(p)| <= p.maxShards && Order(p)[k].cost > 0.0 && t in Order(p)[k].testPaths
    ensures t in Shard(p, k)
  {
    var order, c, m := Order(p), Costs(Order(p)), p.maxShards;
    SortDescends(Items(p));
    OwnBins(c, m, k + 1);
    PackingStays(c, m, k + 1, |order|);
    assert BinsOf(p)[..k + 1][k] == BinsOf(p)[k];
    DealtHolds(order, BinsOf(p), |order|, k, t);
    ShardHoldsTheDealt(p, k);
    SameMembers(Shard(p, k), DealtTo(p, k));
  }

  lemma {:induction false} DealtHolds(order: seq<Item>, bins: seq<nat>, n: nat, k: nat, t: Test)
    requires k < n <= |order| && n <= |bins| && t in order[k].testPaths
    ensures t in Dealt(order, bins, n, bins[k])
  {
    if k < n - 1 { DealtHolds(order, bins, n - 1, k, t); }
  }

  lemma BuildsWithTwo(p: Plan, q: Plan, x: Build, y: Build)
    requires p.builds == q.builds + [x, y] && p.available == q.available
    ensures BuildsOf(p) == (BuildsOf(q) + [BuildItem(p)(x)]) + [BuildItem(p)(y)]
  {
    assert forall b :: BuildItem(p)(b) == BuildItem(q)(b);
  }

  lemma ItemsWithTwo(p: Plan, others: seq<Build>, x: Build, y: Build)
    requires p.builds == others + [x, y]
    ensures Items(p) == (Items(p.(builds := others)) + [BuildItem(p)(x)]) + [BuildItem(p)(y)]
  {
    var q := p.(builds := others);
    assert SinglesOf(p) == SinglesOf(q);
    BuildsWithTwo(p, q, x, y);
    Regroup(SinglesOf(p), BuildsOf(q), [BuildItem(p)(x)]);
    Regroup(SinglesOf(p), BuildsOf(q) + [BuildItem(p)(x)], [BuildItem(p)(y)]);
  }

  lemma LastTwo(p: Plan, others: seq<Build>, x: Build, y: Build)
    requires p.builds == others + [x, y]
    ensures Order(p) == Insert(Insert(Order(p.(builds := others)), BuildItem(p)(x), ByCost), BuildItem(p)(y), ByCost)
  {
    var q := p.(builds := others);
    ItemsWithTwo(p, others, x, y);
    SortAppend(Items(q), BuildItem(p)(x), ByCost);
    SortAppend(Items(q) + [BuildItem(p)(x)], BuildItem(p)(y), ByCost);
  }

  lemma OrderLength(p: Plan)
    ensures |Order(p)| == |Items(p)|
  {
    SortPermutes(Items(p), ByCost);
    SameLength(Order(p), Items(p));
  }

  /** The plan with the same builds, the last two the other way round. */
  function Swapped(p: Plan, others: seq<Build>, b: Build, e: Build): Plan {
    p.(builds := others + [e, b])
  }

  /** The two places of the item of `b`. */
  lemma PlacesInOrder(p: Plan, others: seq<Build>, b: Build, e: Build) returns (i: nat, j: nat)
    requires p.builds == others + [b, e] && e.files == [] && b.ms == e.ms
    ensures i < |Order(p)| && Order(p)[i] == BuildItem(p)(b)
    ensures var q := Swapped(p, others, b, e); j < |Order(q)| && Order(q)[j] == BuildItem(p)(b)
    ensures i < j
  {
    var q, r := Swapped(p, others, b, e), p.(builds := others);
    LastTwo(p, others, b, e);
    LastTwo(q, others, e, b);
    assert BuildItem(q)(b) == BuildItem(p)(b) && BuildItem(q)(e) == BuildItem(p)(e);
    assert q.(builds := others) == r;
    SortDescends(Items(r));
    i, j := TiePlaces(Order(r), BuildItem(p)(b), BuildItem(p)(e));
  }

  /** The builds `b` and `e` at the end of the list, with a shard for every item. */
  lemma EndDivides(p: Plan, others: seq<Build>, b: Build, e: Build) returns (s: nat)
    requires Distinct(p.available) && e.files == [] && b.files != [] && b.ms == e.ms > 0.0
    requires p.builds == others + [b, e] && ListsEachProgramOnce(p) && p.maxShards == |Items(p)|
    ensures s < p.maxShards && Shard(Swapped(p, others, b, e), s) != Shard(p, s)
  {
    var q, t := Swapped(p, others, b, e), b.files[0];
    SwapLast(others, b, e);
    ListsPermuted(p, others + [e, b]);
    ItemsPermuted(p, others + [e, b]);
    SameLength(Items(q), Items(p));
    OrderLength(p);
    OrderLength(q);
    var i, j := PlacesInOrder(p, others, b, e);
    OwnShard(p, i, t);
    OwnShard(q, j, t);
    ShardsPartitionTheTests(q, t);
    s := i;
  }

  lemma SwapLast(others: seq<Build>, b: Build, e: Build)
    ensures multiset(others + [e, b]) == multiset(others + [b, e])
  {}

  /** Shards agree on every run with these tests and builds: for every number of shards, and in whatever order
      the builds are listed. */
  ghost predicate AlwaysAgree(p: Plan) {
    forall m: nat, builds: seq<Build>, s: nat :: s < m && multiset(builds) == multiset(p.builds) ==>
      Shard(p.(builds := builds, maxShards := m), s) == Shard(p.(maxShards := m), s)
  }

  lemma TieDivides(p: Plan, e: Build, b: Build)
    requires Distinct(p.available) && ListsEachProgramOnce(p)
    requires e in p.builds && b in p.builds && e.files == [] && b.files != [] && b.ms == e.ms > 0.0
    ensures !AlwaysAgree(p)
  {
    var others := WithoutTwo(p.builds, b, e);
    var first, second := others + [b, e], others + [e, b];
    SwapLast(others, b, e);
    ListsPermuted(p, first);
    var m := |Items(p.(builds := first))|;
    var s := EndDivides(p.(builds := first, maxShards := m), others, b, e);
    assert Shard(p.(builds := second, maxShards := m), s) != Shard(p.(maxShards := m), s)
        || Shard(p.(builds := first, maxShards := m), s) != Shard(p.(maxShards := m), s);
  }

  lemma WithoutOne<T>(s: seq<T>, x: T) returns (others: seq<T>)
    requires x in s
    ensures multiset(others) + multiset{x} == multiset(s)
  {
    var i :| 0 <= i < |s| && s[i] == x;
    others := s[..i] + s[i + 1..];
    MultisetWithout(s, i);
  }

  lemma WithoutTwo<T>(s: seq<T>, x: T, y: T) returns (others: seq<T>)
    requires x in s && y in s && x != y
    ensures multiset(others + [x, y]) == multiset(s)
  {
    var one := WithoutOne(s, x);
    assert y in one by { assert y in multiset(one) + multiset{x}; }
    others := WithoutOne(one, y);
    assert multiset(others + [x, y]) == (multiset(others) + multiset{y}) + multiset{x};
  }

  /** Shards agree on every run if and only if no build without files costs as much as one with files, and more
      than nothing. */
  lemma ShardsAgreeIff(p: Plan)
    requires Distinct(p.available) && ListsEachProgramOnce(p) && NonNegativeCosts(p)
    ensures AlwaysAgree(p) <==> NoCostlyTie(p.builds)
  {
    if NoCostlyTie(p.builds) {
      forall m: nat, builds: seq<Build>, s: nat | s < m && multiset(builds) == multiset(p.builds)
        ensures Shard(p.(builds := builds, maxShards := m), s) == Shard(p.(maxShards := m), s)
      {
        ShardsAgree(p.(maxShards := m), builds, s);
      }
    } else {
      var e, b :| e in p.builds && b in p.builds && e.files == [] && e.ms > 0.0 && b.files != [] && e.ms == b.ms;
      TieDivides(p, e, b);
    }
  }

  /** A build without files may be as dear as another build. Then shards may disagree: of these two plans
      each deals the same two builds, and "a" is in another shard. */
  lemma EmptyBuildDividesShards(p: Plan)
    requires p.available == ["a"] && p.isProgram("a") && p.maxShards == 2
    requires p.builds == [Build(4.0, []), Build(4.0, ["a"])]
    ensures Shard(p, 1) == ["a"] && Shard(p.(builds := [p.builds[1], p.builds[0]]), 1) == []
  {
    var empty, full := Item([], 1.0, None), Item(["a"], 1.0, Some(0));
    TwoBuilds(p, empty, full);
    TwoBuilds(p.(builds := [p.builds[1], p.builds[0]]), full, empty);
  }

  lemma TwoBuilds(p: Plan, x: Item, y: Item)
    requires p.available == ["a"] && p.isProgram("a") && p.maxShards == 2 && |p.builds| == 2
    requires BuildItem(p)(p.builds[0]) == x && BuildItem(p)(p.builds[1]) == y
    requires x.cost == y.cost == 1.0 && |x.testPaths| + |y.testPaths| == 1
    requires x.originalIndex.None? || y.originalIndex.None?
    ensures Shard(p, 1) == y.testPaths
  {
    TwoInOrder(p, x, y);
    TwoBins(p, x, y);
    DealtOfTwo(x, y);
    ShardOfOne(p, 1, y.testPaths);
  }

  lemma TwoBins(p: Plan, x: Item, y: Item)
    requires p.maxShards == 2 && Order(p) == [x, y] && x.cost == y.cost == 1.0
    ensures BinsOf(p) == [0, 1]
  {
    EqualPair(Costs([x, y]));
  }

  /** A shard of at most one test. */
  lemma ShardOfOne(p: Plan, s: nat, dealt: seq<Test>)
    requires p.maxShards > 0 && Dealt(Order(p), BinsOf(p), |Order(p)|, s) == dealt && |dealt| <= 1
    ensures Shard(p, s) == dealt
  {
    SortOfAtMostOne(EntriesOf(p.available, dealt));
    assert Map(EntriesOf(p.available, dealt), (e: Entry) => e.testPath) == dealt;
  }

  lemma DealtOfTwo(x: Item, y: Item)
    ensures Dealt([x, y], [0, 1], 2, 1) == y.testPaths
  {
    assert Dealt([x, y], [0, 1], 1, 1) == [];
    assert [] + y.testPaths == y.testPaths;
  }

  lemma TwoInOrder(p: Plan, x: Item, y: Item)
    requires p.available == ["a"] && p.isProgram("a") && |p.builds| == 2
    requires BuildItem(p)(p.builds[0]) == x && BuildItem(p)(p.builds[1]) == y
    requires ByCost(x, y)
    ensures Order(p) == [x, y]
  {
    assert Filter(p.available, t => !p.isProgram(t)) == [];
    assert Items(p) == [x, y];
    assert [x, y][..1] == [x] && [x][..0] == [];
    assert Sort([x], ByCost) == [x];
  }

  /** Of two items that cost the same, each gets a shard. */
  lemma EqualPair(c: seq<real>)
    requires c == [1.0, 1.0]
    ensures Packing(c, 2, 2) == [0, 1]
  {
    var one := Packing(c, 2, 1);
    assert LeastLoaded(c, [], 0, 2) == 0;
    assert one == [0];
    assert Load(c, one, 1, 0) == 1.0 && Load(c, one, 1, 1) == 0.0;
  }

  lemma SortOfAtMostOne(entries: seq<Entry>)
    requires |entries| <= 1
    ensures Sort(entries, ByIndex) == entries
  {
    if entries != [] {
      assert entries[..0] == [];
    }
  }
}
