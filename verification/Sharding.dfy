/** How `getRelevantTests` in scripts/runner.node.ts divides the tests of a run among shards.
    Every shard computes the whole division on its own and keeps its part. */
module Sharding {
  import opened Lists
  import opened Lpt

  type Test = string

  /** A build of ahead-of-time programs, as `--deal` lists it. */
  datatype Build = Build(ms: real, files: seq<Test>)

  datatype Item = Item(testPaths: seq<Test>, cost: real, originalIndex: Option<nat>)

  datatype Entry = Entry(testPath: Test, originalIndex: Option<nat>)

  /** What a shard knows. `costOf` stands for the table of durations. */
  datatype Plan = Plan(available: seq<Test>, isProgram: Test -> bool, costOf: Test -> real,
                       builds: seq<Build>, maxShards: nat)

  const AOT_PROGRAMS_AT_ONCE := 4.0

  /** `new Map(tests.map((test, index) => [test, index])).get(t)`: the last entry of a key wins. */
  function IndexOf(tests: seq<Test>, t: Test): (r: Option<nat>)
    ensures r.Some? ==> r.value < |tests| && tests[r.value] == t
    ensures r.None? <==> t !in tests
  {
    if tests == [] then None
    else if tests[|tests| - 1] == t then Some(|tests| - 1)
    else
      assert t in tests <==> t in tests[..|tests| - 1] by {
        assert tests == tests[..|tests| - 1] + [tests[|tests| - 1]];
      }
      IndexOf(tests[..|tests| - 1], t)
  }

  function Programs(p: Plan): seq<Test> {
    Filter(p.available, p.isProgram)
  }

  /** The check on the deal: it lists each program once. */
  ghost predicate ListsEachProgramOnce(p: Plan) {
    multiset(Flatten(Map(p.builds, (b: Build) => b.files))) == multiset(Programs(p))
  }

  function SingleItem(p: Plan): Test -> Item {
    (t: Test) => Item([t], p.costOf(t), IndexOf(p.available, t))
  }

  function BuildItem(p: Plan): Build -> Item {
    (b: Build) => Item(b.files, b.ms / AOT_PROGRAMS_AT_ONCE,
              if b.files == [] then None else IndexOf(p.available, b.files[0]))
  }

  function Items(p: Plan): seq<Item> {
    Map(Filter(p.available, t => !p.isProgram(t)), SingleItem(p)) + Map(p.builds, BuildItem(p))
  }

  /** `b.cost - a.cost || a.originalIndex - b.originalIndex` is at most 0. A missing index makes
      the difference NaN, which `sort` takes for 0. */
  predicate ByCost(x: Item, y: Item) {
    || x.cost > y.cost
    || (x.cost == y.cost &&
        (x.originalIndex.Some? && y.originalIndex.Some? ==> x.originalIndex.value <= y.originalIndex.value))
  }

  predicate ByIndex(x: Entry, y: Entry) {
    x.originalIndex.Some? && y.originalIndex.Some? ==> x.originalIndex.value <= y.originalIndex.value
  }

  function Order(p: Plan): seq<Item> {
    Sort(Items(p), ByCost)
  }

  function Costs(order: seq<Item>): (c: seq<real>)
    ensures |c| == |order| && forall i :: 0 <= i < |c| ==> c[i] == order[i].cost
  {
    seq(|order|, i requires 0 <= i < |order| => order[i].cost)
  }

  /** The tests that the first `n` items bring to bin `s`, in the order of the deal. */
  function Dealt(order: seq<Item>, bins: seq<nat>, n: nat, s: nat): seq<Test>
    requires n <= |order| && n <= |bins|
  {
    if n == 0 then [] else Dealt(order, bins, n - 1, s) + if bins[n - 1] == s then order[n - 1].testPaths else []
  }

  function BinsOf(p: Plan): (bins: seq<nat>)
    requires p.maxShards > 0
    ensures |bins| == |Order(p)|
  {
    Packing(Costs(Order(p)), p.maxShards, |Order(p)|)
  }

  function EntriesOf(available: seq<Test>, tests: seq<Test>): seq<Entry> {
    Map(tests, t => Entry(t, IndexOf(available, t)))
  }

  /** The tests of shard `s`. */
  function Shard(p: Plan, s: nat): seq<Test>
    requires p.maxShards > 0
  {
    Map(Sort(EntriesOf(p.available, Dealt(Order(p), BinsOf(p), |Order(p)|, s)), ByIndex), (e: Entry) => e.testPath)
  }

  // ---------- the loop ----------

  /** `load` and `assignment` after the first `i` items. */
  ghost predicate PackedUpTo(available: seq<Test>, order: seq<Item>, m: nat, i: nat,
                             load: seq<real>, assignment: seq<seq<Entry>>)
    requires m > 0 && i <= |order|
  {
    var bins := Packing(Costs(order), m, i);
    && |load| == |assignment| == m
    && (forall s: nat :: s < m ==> load[s] == Load(Costs(order), bins, i, s))
    && (forall s: nat :: s < m ==> assignment[s] == EntriesOf(available, Dealt(order, bins, i, s)))
  }

  /** Packs the items into the bins of `load` and `assignment`. */
  method Pack(available: seq<Test>, order: seq<Item>, maxShards: nat)
    returns (load: array<real>, assignment: array<seq<Entry>>)
    requires maxShards > 0
    ensures fresh(load) && fresh(assignment)
    ensures PackedUpTo(available, order, maxShards, |order|, load[..], assignment[..])
  {
    load := new real[maxShards](_ => 0.0);
    assignment := new seq<Entry>[maxShards](_ => []);
    var i := 0;
    while i < |order|
      invariant 0 <= i <= |order|
      invariant load.Length == assignment.Length == maxShards
      invariant PackedUpTo(available, order, maxShards, i, load[..], assignment[..])
    {
      PackOne(available, order, i, load, assignment);
      i := i + 1;
    }
  }

  /** Item `i` goes to the least loaded bin. */
  method PackOne(available: seq<Test>, order: seq<Item>, i: nat, load: array<real>, assignment: array<seq<Entry>>)
    requires i < |order| && load.Length == assignment.Length > 0
    requires PackedUpTo(available, order, load.Length, i, load[..], assignment[..])
    modifies load, assignment
    ensures PackedUpTo(available, order, load.Length, i + 1, load[..], assignment[..])
  {
    var bin := FindLeastLoaded(load, available, order, assignment[..], i);
    var entries := EntriesToPush(available, order[i].testPaths);
    ghost var before, dealt := load[..], assignment[..];
    load[bin] := load[bin] + order[i].cost;
    assignment[bin] := assignment[bin] + entries;
    assert load[..] == before[bin := before[bin] + order[i].cost];
    assert assignment[..] == dealt[bin := dealt[bin] + entries];
    PackOneMore(available, order, load.Length, i, before, dealt, load[..], assignment[..]);
  }

  method FindLeastLoaded(load: array<real>, ghost available: seq<Test>, ghost order: seq<Item>,
                         ghost assignment: seq<seq<Entry>>, ghost i: nat)
    returns (bin: nat)
    requires load.Length > 0 && i <= |order|
    requires PackedUpTo(available, order, load.Length, i, load[..], assignment)
    ensures bin < load.Length
    ensures bin == LeastLoaded(Costs(order), Packing(Costs(order), load.Length, i), i, load.Length)
  {
    bin := 0;
    for s := 1 to load.Length
      invariant bin < s
      invariant bin == LeastLoaded(Costs(order), Packing(Costs(order), load.Length, i), i, s)
    {
      assert load[s] == load[..][s] && load[bin] == load[..][bin];
      if load[s] < load[bin] {
        bin := s;
      }
    }
  }

  method EntriesToPush(available: seq<Test>, testPaths: seq<Test>) returns (entries: seq<Entry>)
    ensures entries == EntriesOf(available, testPaths)
  {
    entries := [];
    for k := 0 to |testPaths|
      invariant entries == EntriesOf(available, testPaths[..k])
    {
      entries := entries + [Entry(testPaths[k], IndexOf(available, testPaths[k]))];
    }
    assert testPaths[..|testPaths|] == testPaths;
  }

  lemma EntriesAppend(available: seq<Test>, s: seq<Test>, t: seq<Test>)
    ensures EntriesOf(available, s + t) == EntriesOf(available, s) + EntriesOf(available, t)
  {}

  lemma PackOneMore(available: seq<Test>, order: seq<Item>, m: nat, i: nat,
                    load: seq<real>, assignment: seq<seq<Entry>>, load': seq<real>, assignment': seq<seq<Entry>>)
    requires m > 0 && i < |order| && PackedUpTo(available, order, m, i, load, assignment)
    requires var bin := LeastLoaded(Costs(order), Packing(Costs(order), m, i), i, m);
             && load' == load[bin := load[bin] + order[i].cost]
             && assignment' == assignment[bin := assignment[bin] + EntriesOf(available, order[i].testPaths)]
    ensures PackedUpTo(available, order, m, i + 1, load', assignment')
  {
    var c := Costs(order);
    var before, after := Packing(c, m, i), Packing(c, m, i + 1);
    forall s: nat | s < m
      ensures load'[s] == Load(c, after, i + 1, s)
      ensures assignment'[s] == EntriesOf(available, Dealt(order, after, i + 1, s))
    {
      LoadOfPrefix(c, after, before, i, s);
      DealtOfPrefix(order, after, before, i, s);
      EntriesAppend(available, Dealt(order, before, i, s), order[i].testPaths);
    }
  }

  lemma {:induction false} DealtOfPrefix(order: seq<Item>, a: seq<nat>, b: seq<nat>, n: nat, s: nat)
    requires n <= |order| && n <= |a| && n <= |b| && a[..n] == b[..n]
    ensures Dealt(order, a, n, s) == Dealt(order, b, n, s)
  {
    if n > 0 {
      assert a[..n][n - 1] == b[..n][n - 1];
      assert a[..n - 1] == a[..n][..n - 1] && b[..n - 1] == b[..n][..n - 1];
      DealtOfPrefix(order, a, b, n - 1, s);
    }
  }

  /** The branch of `getRelevantTests` for `maxShards > 1`; otherwise every test is kept. */
  method RelevantTests(p: Plan, shardId: nat) returns (filtered: seq<Test>)
    requires shardId < p.maxShards
    ensures filtered == if p.maxShards > 1 then Shard(p, shardId) else p.available
  {
    if p.maxShards <= 1 {
      return p.available;
    }
    var load, assignment := Pack(p.available, Order(p), p.maxShards);
    var mine := Sort(assignment[shardId], ByIndex);
    filtered := [];
    for k := 0 to |mine|
      invariant filtered == Map(mine[..k], (e: Entry) => e.testPath)
    {
      filtered := filtered + [mine[k].testPath];
    }
    assert mine[..|mine|] == mine;
  }

  // ---------- every test in exactly one shard ----------

  function AllPaths(items: seq<Item>): seq<Test> {
    if items == [] then [] else AllPaths(items[..|items| - 1]) + items[|items| - 1].testPaths
  }

  lemma {:induction false} InsertKeepsPaths(s: seq<Item>, x: Item)
    ensures multiset(AllPaths(Insert(s, x, ByCost))) == multiset(AllPaths(s)) + multiset(x.testPaths)
  {
    if s == [] || ByCost(s[|s| - 1], x) {
      assert (s + [x])[..|s|] == s;
    } else {
      InsertKeepsPaths(s[..|s| - 1], x);
      var r := Insert(s[..|s| - 1], x, ByCost);
      assert (r + [s[|s| - 1]])[..|r|] == r;
    }
  }

  lemma {:induction false} SortKeepsPaths(s: seq<Item>)
    ensures multiset(AllPaths(Sort(s, ByCost))) == multiset(AllPaths(s))
  {
    if s != [] {
      SortKeepsPaths(s[..|s| - 1]);
      InsertKeepsPaths(Sort(s[..|s| - 1], ByCost), s[|s| - 1]);
    }
  }

  lemma {:induction false} AllPathsAppend(s: seq<Item>, t: seq<Item>)
    ensures AllPaths(s + t) == AllPaths(s) + AllPaths(t)
  {
    if t == [] {
      assert s + t == s;
    } else {
      assert (s + t)[..|s + t| - 1] == s + t[..|t| - 1];
      AllPathsAppend(s, t[..|t| - 1]);
    }
  }

  lemma {:induction false} PathsOfSingles(p: Plan, tests: seq<Test>)
    ensures AllPaths(Map(tests, SingleItem(p))) == tests
  {
    if tests != [] {
      var init := tests[..|tests| - 1];
      PathsOfSingles(p, init);
      assert Map(tests, SingleItem(p))[..|tests| - 1] == Map(init, SingleItem(p));
    }
  }

  lemma {:induction false} PathsOfBuilds(p: Plan, builds: seq<Build>)
    ensures AllPaths(Map(builds, BuildItem(p))) == Flatten(Map(builds, (b: Build) => b.files))
  {
    if builds != [] {
      var init := builds[..|builds| - 1];
      PathsOfBuilds(p, init);
      assert Map(builds, BuildItem(p))[..|init|] == Map(init, BuildItem(p));
      assert Map(builds, (b: Build) => b.files)[..|init|] == Map(init, (b: Build) => b.files);
    }
  }

  /** The items hold the available tests, no more and no fewer. */
  lemma ItemsHoldTheTests(p: Plan)
    requires ListsEachProgramOnce(p)
    ensures multiset(AllPaths(Items(p))) == multiset(p.available)
    ensures multiset(AllPaths(Order(p))) == multiset(p.available)
  {
    PathsOfItems(p);
    FilterSplits(p.available, p.isProgram, t => !p.isProgram(t));
    SortKeepsPaths(Items(p));
  }

  lemma PathsOfItems(p: Plan)
    ensures AllPaths(Items(p)) ==
            Filter(p.available, t => !p.isProgram(t)) + Flatten(Map(p.builds, (b: Build) => b.files))
  {
    var singles := Filter(p.available, t => !p.isProgram(t));
    AllPathsAppend(Map(singles, SingleItem(p)), Map(p.builds, BuildItem(p)));
    PathsOfSingles(p, singles);
    PathsOfBuilds(p, p.builds);
  }

  ghost function SumBelow(f: nat -> nat, m: nat): nat {
    if m == 0 then 0 else SumBelow(f, m - 1) + f(m - 1)
  }

  lemma {:induction false} OneTerm(f: nat -> nat, m: nat, s: nat)
    requires s < m
    ensures SumBelow(f, m) >= f(s)
  {
    if s < m - 1 { OneTerm(f, m - 1, s); }
  }

  lemma {:induction false} TwoTerms(f: nat -> nat, m: nat, s: nat, s': nat)
    requires s < s' < m
    ensures SumBelow(f, m) >= f(s) + f(s')
  {
    if s' < m - 1 { TwoTerms(f, m - 1, s, s'); } else { OneTerm(f, m - 1, s); }
  }

  lemma {:induction false} ZeroTerms(f: nat -> nat, m: nat)
    requires forall s: nat :: s < m ==> f(s) == 0
    ensures SumBelow(f, m) == 0
  {
    if m > 0 { ZeroTerms(f, m - 1); }
  }

  lemma {:induction false} OneTermGrows(f: nat -> nat, g: nat -> nat, m: nat, bin: nat, more: nat)
    requires forall s: nat :: s < m ==> g(s) == f(s) + if s == bin then more else 0
    ensures SumBelow(g, m) == SumBelow(f, m) + if bin < m then more else 0
  {
    if m > 0 { OneTermGrows(f, g, m - 1, bin, more); }
  }

  lemma {:induction false} SomeTerm(f: nat -> nat, m: nat) returns (s: nat)
    requires SumBelow(f, m) > 0
    ensures s < m && f(s) > 0
  {
    if f(m - 1) > 0 { s := m - 1; } else { s := SomeTerm(f, m - 1); }
  }

  /** How often test `t` is in each bin. */
  ghost function CopiesIn(order: seq<Item>, bins: seq<nat>, n: nat, t: Test): nat -> nat
    requires n <= |order| && n <= |bins|
  {
    (s: nat) => multiset(Dealt(order, bins, n, s))[t]
  }

  lemma CopiesOfNext(order: seq<Item>, bins: seq<nat>, n: nat, t: Test, s: nat)
    requires 0 < n <= |order| && n <= |bins|
    ensures multiset(Dealt(order, bins, n, s))[t] ==
            multiset(Dealt(order, bins, n - 1, s))[t] + if s == bins[n - 1] then multiset(order[n - 1].testPaths)[t] else 0
  {}

  lemma PathsOfNext(order: seq<Item>, n: nat, t: Test)
    requires 0 < n <= |order|
    ensures multiset(AllPaths(order[..n]))[t] == multiset(AllPaths(order[..n - 1]))[t] + multiset(order[n - 1].testPaths)[t]
  {
    assert order[..n][..n - 1] == order[..n - 1];
  }

  lemma {:induction false} CopiesAreKept(order: seq<Item>, bins: seq<nat>, n: nat, m: nat, t: Test)
    requires n <= |order| && n <= |bins| && forall j :: 0 <= j < n ==> bins[j] < m
    ensures SumBelow(CopiesIn(order, bins, n, t), m) == multiset(AllPaths(order[..n]))[t]
  {
    if n == 0 {
      ZeroTerms(CopiesIn(order, bins, n, t), m);
    } else {
      CopiesAreKept(order, bins, n - 1, m, t);
      var more := multiset(order[n - 1].testPaths)[t];
      forall s: nat
        ensures CopiesIn(order, bins, n, t)(s) == CopiesIn(order, bins, n - 1, t)(s) + if s == bins[n - 1] then more else 0
      {
        CopiesOfNext(order, bins, n, t, s);
      }
      OneTermGrows(CopiesIn(order, bins, n - 1, t), CopiesIn(order, bins, n, t), m, bins[n - 1], more);
      PathsOfNext(order, n, t);
    }
  }

  ghost function DealtTo(p: Plan, s: nat): seq<Test>
    requires p.maxShards > 0
  {
    Dealt(Order(p), BinsOf(p), |Order(p)|, s)
  }

  /** Sorting a shard rearranges it. */
  lemma ShardHoldsTheDealt(p: Plan, s: nat)
    requires p.maxShards > 0
    ensures multiset(Shard(p, s)) == multiset(DealtTo(p, s))
  {
    var dealt := DealtTo(p, s);
    var entries := EntriesOf(p.available, dealt);
    SortPermutes(entries, ByIndex);
    MapPermuted(Sort(entries, ByIndex), entries, (e: Entry) => e.testPath);
    assert Map(entries, (e: Entry) => e.testPath) == dealt;
  }

  /** The copies of a test in all shards together are its copies among the available tests. */
  lemma CopiesInShards(p: Plan, t: Test)
    requires p.maxShards > 0 && ListsEachProgramOnce(p)
    ensures SumBelow(CopiesIn(Order(p), BinsOf(p), |Order(p)|, t), p.maxShards) == multiset(p.available)[t]
  {
    var order := Order(p);
    PackingIsPacking(Costs(order), p.maxShards);
    PackingAssigns(Costs(order), BinsOf(p), p.maxShards);
    CopiesAreKept(order, BinsOf(p), |order|, p.maxShards, t);
    assert order[..|order|] == order;
    ItemsHoldTheTests(p);
  }

  /** The shards partition the available tests: each test is in exactly one shard, exactly once. */
  lemma ShardsPartitionTheTests(p: Plan, t: Test)
    requires p.maxShards > 0 && Distinct(p.available) && ListsEachProgramOnce(p)
    ensures t in p.available <==> exists s: nat :: s < p.maxShards && t in Shard(p, s)
    ensures forall s: nat, s': nat :: s < p.maxShards && s' < p.maxShards && t in Shard(p, s) && t in Shard(p, s') ==> s == s'
    ensures forall s: nat :: s < p.maxShards ==> multiset(Shard(p, s))[t] <= 1
  {
    var copies, m := CopiesIn(Order(p), BinsOf(p), |Order(p)|, t), p.maxShards;
    CopiesInShards(p, t);
    DistinctCount(p.available, t);
    forall s: nat | s < m ensures multiset(Shard(p, s)) == multiset(DealtTo(p, s)) {
      ShardHoldsTheDealt(p, s);
    }
    forall s: nat, s': nat | s < m && s' < m
      ensures multiset(Shard(p, s))[t] <= 1
      ensures multiset(Shard(p, s))[t] > 0 ==> t in p.available
      ensures s != s' ==> multiset(Shard(p, s))[t] + multiset(Shard(p, s'))[t] <= 1
    {
      OneTerm(copies, m, s);
      if s < s' { TwoTerms(copies, m, s, s'); }
      if s' < s { TwoTerms(copies, m, s', s); }
    }
    forall s: nat, s': nat | s < m && s' < m && t in Shard(p, s) && t in Shard(p, s') ensures s == s' {
      assert multiset(Shard(p, s))[t] > 0 && multiset(Shard(p, s'))[t] > 0;
    }
    if t in p.available {
      var s := SomeTerm(copies, m);
      assert t in multiset(Shard(p, s));
    }
    if s: nat :| s < m && t in Shard(p, s) {
      assert multiset(Shard(p, s))[t] > 0;
    }
  }

  lemma ShardIsDistinct(p: Plan, s: nat)
    requires s < p.maxShards && Distinct(p.available) && ListsEachProgramOnce(p)
    ensures Distinct(Shard(p, s))
  {
    forall t ensures multiset(Shard(p, s))[t] <= 1 { ShardsPartitionTheTests(p, t); }
    CountDistinct(Shard(p, s));
  }

  ghost function SortedEntries(p: Plan, s: nat): (r: seq<Entry>)
    requires p.maxShards > 0
    ensures Shard(p, s) == Map(r, (e: Entry) => e.testPath)
  {
    Sort(EntriesOf(p.available, DealtTo(p, s)), ByIndex)
  }

  lemma ShardEntry(p: Plan, s: nat, i: nat)
    requires s < p.maxShards && Distinct(p.available) && ListsEachProgramOnce(p) && i < |Shard(p, s)|
    ensures var t := Shard(p, s)[i];
            t in p.available && SortedEntries(p, s)[i] == Entry(t, IndexOf(p.available, t))
  {
    var entries := EntriesOf(p.available, DealtTo(p, s));
    SortPermutes(entries, ByIndex);
    SameMembers(SortedEntries(p, s), entries);
    assert SortedEntries(p, s)[i] in entries;
    ShardsPartitionTheTests(p, Shard(p, s)[i]);
  }

  lemma EntriesAreOrdered(p: Plan, s: nat)
    requires s < p.maxShards && Distinct(p.available) && ListsEachProgramOnce(p)
    ensures SortedBy(SortedEntries(p, s), ByIndex)
  {
    var entries := EntriesOf(p.available, DealtTo(p, s));
    forall e | e in entries ensures e.originalIndex.Some? {
      ShardHoldsTheDealt(p, s);
      SameMembers(Shard(p, s), DealtTo(p, s));
      ShardsPartitionTheTests(p, e.testPath);
    }
    SortSorts(entries, ByIndex);
  }

  lemma StrictlyBefore(tests: seq<Test>, t: Test, u: Test)
    requires t in tests && u in tests && t != u
    requires ByIndex(Entry(t, IndexOf(tests, t)), Entry(u, IndexOf(tests, u)))
    ensures IndexOf(tests, t).value < IndexOf(tests, u).value
  {}

  /** A shard runs its tests in the order in which they were found. */
  lemma ShardKeepsTheOrder(p: Plan, s: nat, i: nat, j: nat)
    requires s < p.maxShards && Distinct(p.available) && ListsEachProgramOnce(p)
    requires i < j < |Shard(p, s)|
    ensures var (x, y) := (IndexOf(p.available, Shard(p, s)[i]), IndexOf(p.available, Shard(p, s)[j]));
            x.Some? && y.Some? && x.value < y.value
  {
    var t, u := Shard(p, s)[i], Shard(p, s)[j];
    assert t != u by { ShardIsDistinct(p, s); }
    ShardEntry(p, s, i);
    ShardEntry(p, s, j);
    assert ByIndex(SortedEntries(p, s)[i], SortedEntries(p, s)[j]) by { EntriesAreOrdered(p, s); }
    StrictlyBefore(p.available, t, u);
  }

  // ---------- the division is balanced ----------

  ghost predicate Descends(s: seq<Item>) {
    forall i, j :: 0 <= i < j < |s| ==> s[i].cost >= s[j].cost
  }

  /** Insertion by `ByCost` keeps a list descending by cost, whatever the indices are. */
  lemma {:induction false} InsertDescends(s: seq<Item>, x: Item)
    requires Descends(s)
    ensures Descends(Insert(s, x, ByCost))
  {
    if s != [] && !ByCost(s[|s| - 1], x) {
      var init, last := s[..|s| - 1], s[|s| - 1];
      InsertDescends(init, x);
      InsertMembers(init, x, ByCost);
      assert forall y :: y in Insert(init, x, ByCost) ==> y.cost >= last.cost;
    }
  }

  lemma {:induction false} SortDescends(s: seq<Item>)
    ensures Descends(Sort(s, ByCost))
  {
    if s != [] {
      SortDescends(s[..|s| - 1]);
      InsertDescends(Sort(s[..|s| - 1], ByCost), s[|s| - 1]);
    }
  }

  ghost predicate NonNegativeCosts(p: Plan) {
    (forall t :: p.costOf(t) >= 0.0) && (forall b :: b in p.builds ==> b.ms >= 0.0)
  }

  lemma ItemOrigin(p: Plan, x: Item)
    requires x in Items(p)
    ensures (exists t :: x == SingleItem(p)(t)) || (exists b :: b in p.builds && x == BuildItem(p)(b))
  {
    var singles := Filter(p.available, t => !p.isProgram(t));
    var i: nat :| i < |Items(p)| && Items(p)[i] == x;
    if i < |singles| {
      assert x == SingleItem(p)(singles[i]);
    } else {
      assert x == BuildItem(p)(p.builds[i - |singles|]);
    }
  }

  lemma CostsAreNonNegative(p: Plan)
    requires NonNegativeCosts(p)
    ensures NonNegative(Costs(Order(p))) && forall x :: x in Items(p) ==> x.cost >= 0.0
  {
    SortPermutes(Items(p), ByCost);
    SameMembers(Order(p), Items(p));
    forall x | x in Items(p) ensures x.cost >= 0.0 {
      ItemOrigin(p, x);
    }
    assert forall j :: 0 <= j < |Order(p)| ==> Order(p)[j] in Items(p);
  }

  /** The fullest bin takes at most (4/3 - 1/(3m)) times as long as in any other division of the
      same items among the `m` shards. */
  lemma ItemsAreBalanced(p: Plan, other: seq<nat>)
    requires p.maxShards > 0 && NonNegativeCosts(p)
    requires Assigns(other, Costs(Order(p)), p.maxShards)
    ensures Makespan(Costs(Order(p)), BinsOf(p), p.maxShards)
            <= LongestFirstBound(p.maxShards, Makespan(Costs(Order(p)), other, p.maxShards))
  {
    SortDescends(Items(p));
    CostsAreNonNegative(p);
    PackingIsPacking(Costs(Order(p)), p.maxShards);
    LongestFirstIsBounded(Costs(Order(p)), BinsOf(p), other, p.maxShards);
  }
}
