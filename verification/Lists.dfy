/** Lists as the scripts use them: filter, flatten, and the stable sort of `Array.prototype.sort`. */
module Lists {

  datatype Option<+T> = None | Some(value: T)

  predicate Distinct<T(==)>(s: seq<T>) {
    forall i, j :: 0 <= i < j < |s| ==> s[i] != s[j]
  }

  function Filter<T>(s: seq<T>, keep: T -> bool): seq<T> {
    if s == [] then []
    else Filter(s[..|s| - 1], keep) + if keep(s[|s| - 1]) then [s[|s| - 1]] else []
  }

  function Map<T, U>(s: seq<T>, f: T -> U): (r: seq<U>)
    ensures |r| == |s| && forall i :: 0 <= i < |s| ==> r[i] == f(s[i])
  {
    seq(|s|, i requires 0 <= i < |s| => f(s[i]))
  }

  function Flatten<T>(s: seq<seq<T>>): seq<T> {
    if s == [] then [] else Flatten(s[..|s| - 1]) + s[|s| - 1]
  }

  lemma Regroup<T>(a: seq<T>, b: seq<T>, c: seq<T>)
    ensures (a + b) + c == a + (b + c)
    ensures a + [] == a
  {}

  lemma {:induction false} FilterAppend<T>(s: seq<T>, t: seq<T>, keep: T -> bool)
    ensures Filter(s + t, keep) == Filter(s, keep) + Filter(t, keep)
  {
    if t == [] {
      Regroup(s, [], []);
      Regroup(Filter(s, keep), [], []);
    } else {
      var x := t[|t| - 1];
      assert (s + t)[..|s + t| - 1] == s + t[..|t| - 1];
      FilterAppend(s, t[..|t| - 1], keep);
      Regroup(Filter(s, keep), Filter(t[..|t| - 1], keep), if keep(x) then [x] else []);
    }
  }

  lemma {:induction false} FilterIsNoLonger<T>(s: seq<T>, keep: T -> bool)
    ensures |Filter(s, keep)| <= |s|
  {
    if s != [] { FilterIsNoLonger(s[..|s| - 1], keep); }
  }

  /** A filter takes out at least the elements that are known not to stay. */
  lemma {:induction false} FilterShortens<T>(s: seq<T>, keep: T -> bool, dropped: seq<T>)
    requires Distinct(dropped) && forall i :: 0 <= i < |dropped| ==> dropped[i] in s && !keep(dropped[i])
    ensures |Filter(s, keep)| + |dropped| <= |s|
    decreases |dropped|
  {
    if dropped == [] {
      FilterIsNoLonger(s, keep);
    } else {
      var x, rest := dropped[0], dropped[1..];
      var j :| 0 <= j < |s| && s[j] == x;
      var others := s[..j] + s[j + 1..];
      forall i | 0 <= i < |rest| ensures rest[i] in others && !keep(rest[i]) {
        StaysElsewhere(s, j, dropped[i + 1]);
      }
      FilterShortens(others, keep, rest);
      FilterOut(s, j, others, keep);
    }
  }

  lemma StaysElsewhere<T>(s: seq<T>, j: nat, x: T)
    requires j < |s| && x in s && x != s[j]
    ensures x in s[..j] + s[j + 1..]
  {
    var i :| 0 <= i < |s| && s[i] == x;
    assert s[..j] + s[j + 1..] == if i < j then s[..i] + [x] + s[i + 1..j] + s[j + 1..] else s[..j] + s[j + 1..i] + [x] + s[i + 1..];
  }

  lemma {:induction false} FilterMembers<T>(s: seq<T>, keep: T -> bool, x: T)
    ensures x in Filter(s, keep) <==> x in s && keep(x)
  {
    if s != [] {
      assert s == s[..|s| - 1] + [s[|s| - 1]];
      FilterMembers(s[..|s| - 1], keep, x);
    }
  }

  lemma {:induction false} FilterDistinct<T>(s: seq<T>, keep: T -> bool)
    requires Distinct(s)
    ensures Distinct(Filter(s, keep))
  {
    if s != [] {
      FilterDistinct(s[..|s| - 1], keep);
      FilterMembers(s[..|s| - 1], keep, s[|s| - 1]);
    }
  }

  /** A list splits into what a filter keeps and what it drops. */
  lemma {:induction false} FilterSplits<T>(s: seq<T>, keep: T -> bool, drop: T -> bool)
    requires forall x :: x in s ==> drop(x) == !keep(x)
    ensures multiset(Filter(s, keep)) + multiset(Filter(s, drop)) == multiset(s)
  {
    if s != [] {
      assert s == s[..|s| - 1] + [s[|s| - 1]];
      FilterSplits(s[..|s| - 1], keep, drop);
    }
  }

  lemma {:induction false} FlattenAppend<T>(s: seq<seq<T>>, t: seq<seq<T>>)
    ensures Flatten(s + t) == Flatten(s) + Flatten(t)
  {
    if t == [] {
      Regroup(s, [], []);
      Regroup(Flatten(s), [], []);
    } else {
      assert (s + t)[..|s + t| - 1] == s + t[..|t| - 1];
      FlattenAppend(s, t[..|t| - 1]);
      Regroup(Flatten(s), Flatten(t[..|t| - 1]), t[|t| - 1]);
    }
  }

  lemma {:induction false} FlattenMembers<T>(s: seq<seq<T>>, x: T)
    ensures x in Flatten(s) <==> exists i :: 0 <= i < |s| && x in s[i]
  {
    if s != [] {
      FlattenMembers(s[..|s| - 1], x);
      assert forall i :: 0 <= i < |s| - 1 ==> s[..|s| - 1][i] == s[i];
    }
  }

  lemma {:induction false} DistinctCount<T>(s: seq<T>, x: T)
    requires Distinct(s)
    ensures multiset(s)[x] == if x in s then 1 else 0
  {
    if s != [] {
      assert s == s[..|s| - 1] + [s[|s| - 1]];
      DistinctCount(s[..|s| - 1], x);
    }
  }

  lemma {:induction false} CountDistinct<T>(s: seq<T>)
    requires forall x :: multiset(s)[x] <= 1
    ensures Distinct(s)
  {
    forall i, j | 0 <= i < j < |s| ensures s[i] != s[j] {
      assert s == s[..j] + [s[j]] + s[j + 1..];
      assert multiset(s) == multiset(s[..j]) + multiset{s[j]} + multiset(s[j + 1..]);
      assert s[i] == s[..j][i];
      assert multiset(s)[s[j]] <= 1;
    }
  }

  /** Two lists with the same elements, flattened, still have the same elements. */
  lemma {:induction false} FlattenPermuted<T>(s: seq<seq<T>>, t: seq<seq<T>>)
    requires multiset(s) == multiset(t)
    ensures multiset(Flatten(s)) == multiset(Flatten(t))
    decreases |s|
  {
    SameLength(s, t);
    if s != [] {
      var j := Find(s, t);
      WithoutSame(s, t, j);
      FlattenPermuted(s[1..], t[..j] + t[j + 1..]);
      AroundHead(s);
      FlattenOne(s, 0, s[1..]);
      FlattenOne(t, j, t[..j] + t[j + 1..]);
    }
  }

  lemma FlattenAround<T>(s: seq<seq<T>>, j: nat)
    requires j < |s|
    ensures Flatten(s) == (Flatten(s[..j]) + s[j]) + Flatten(s[j + 1..])
  {
    CutAt(s, j + 1);
    FlattenAppend(s[..j + 1], s[j + 1..]);
    FlattenNext(s, j);
  }

  lemma CutAt<T>(s: seq<T>, j: nat)
    requires j <= |s|
    ensures s[..j] + s[j..] == s
  {}

  lemma FlattenNext<T>(s: seq<seq<T>>, j: nat)
    requires j < |s|
    ensures Flatten(s[..j + 1]) == Flatten(s[..j]) + s[j]
  {
    assert s[..j + 1][..j] == s[..j];
  }

  lemma TakeMiddle<T>(a: seq<T>, b: seq<T>, c: seq<T>)
    ensures multiset((a + b) + c) == multiset(a + c) + multiset(b)
  {}

  lemma FlattenOne<T>(s: seq<seq<T>>, j: nat, others: seq<seq<T>>)
    requires j < |s| && others == s[..j] + s[j + 1..]
    ensures multiset(Flatten(s)) == multiset(Flatten(others)) + multiset(s[j])
  {
    FlattenAppend(s[..j], s[j + 1..]);
    FlattenAround(s, j);
    TakeMiddle(Flatten(s[..j]), s[j], Flatten(s[j + 1..]));
  }

  lemma FilterNext<T>(s: seq<T>, j: nat, keep: T -> bool)
    requires j < |s|
    ensures Filter(s[..j + 1], keep) == Filter(s[..j], keep) + if keep(s[j]) then [s[j]] else []
  {
    assert s[..j + 1][..j] == s[..j];
  }

  lemma FilterAround<T>(s: seq<T>, j: nat, keep: T -> bool)
    requires j < |s|
    ensures Filter(s, keep) == (Filter(s[..j], keep) + if keep(s[j]) then [s[j]] else []) + Filter(s[j + 1..], keep)
  {
    CutAt(s, j + 1);
    FilterAppend(s[..j + 1], s[j + 1..], keep);
    FilterNext(s, j, keep);
  }

  /** What one element adds; `others` are the elements around it. */
  lemma FilterOut<T>(s: seq<T>, j: nat, others: seq<T>, keep: T -> bool)
    requires j < |s| && others == s[..j] + s[j + 1..]
    ensures multiset(Filter(s, keep)) == multiset(Filter(others, keep)) + multiset(if keep(s[j]) then [s[j]] else [])
    ensures |Filter(s, keep)| == |Filter(others, keep)| + if keep(s[j]) then 1 else 0
  {
    FilterAppend(s[..j], s[j + 1..], keep);
    FilterAround(s, j, keep);
    TakeMiddle(Filter(s[..j], keep), if keep(s[j]) then [s[j]] else [], Filter(s[j + 1..], keep));
  }

  lemma AroundHead<T>(s: seq<T>)
    requires s != []
    ensures s[..0] + s[1..] == s[1..]
  {}

  lemma {:induction false} FilterPermuted<T>(s: seq<T>, t: seq<T>, keep: T -> bool)
    requires multiset(s) == multiset(t)
    ensures multiset(Filter(s, keep)) == multiset(Filter(t, keep))
    decreases |s|
  {
    SameLength(s, t);
    if s != [] {
      var j := Find(s, t);
      WithoutSame(s, t, j);
      FilterPermuted(s[1..], t[..j] + t[j + 1..], keep);
      AroundHead(s);
      FilterOut(s, 0, s[1..], keep);
      FilterOut(t, j, t[..j] + t[j + 1..], keep);
    }
  }

  lemma MultisetWithout<T>(s: seq<T>, j: nat)
    requires j < |s|
    ensures multiset(s[..j] + s[j + 1..]) == multiset(s) - multiset{s[j]}
  {
    assert s == s[..j] + [s[j]] + s[j + 1..];
  }

  lemma MapOne<T, U>(s: seq<T>, j: nat, f: T -> U)
    requires j < |s|
    ensures multiset(Map(s, f)) == multiset(Map(s[..j] + s[j + 1..], f)) + multiset{f(s[j])}
  {
    var m := Map(s, f);
    assert Map(s[..j] + s[j + 1..], f) == m[..j] + m[j + 1..];
    assert m == m[..j] + [f(s[j])] + m[j + 1..];
  }

  /** Two permuted lists without an element that both have. */
  lemma WithoutSame<T>(s: seq<T>, t: seq<T>, j: nat)
    requires multiset(s) == multiset(t) && s != [] && j < |t| && t[j] == s[0]
    ensures multiset(s[1..]) == multiset(t[..j] + t[j + 1..])
  {
    MultisetWithout(s, 0);
    MultisetWithout(t, j);
    assert s[..0] + s[1..] == s[1..];
  }

  lemma MapHead<T, U>(s: seq<T>, f: T -> U)
    requires s != []
    ensures multiset(Map(s, f)) == multiset(Map(s[1..], f)) + multiset{f(s[0])}
  {
    assert Map(s, f) == [f(s[0])] + Map(s[1..], f);
  }

  lemma Find<T>(s: seq<T>, t: seq<T>) returns (j: nat)
    requires multiset(s) == multiset(t) && s != []
    ensures j < |t| && t[j] == s[0]
  {
    SameMembers(s, t);
    assert s[0] in t;
    j :| 0 <= j < |t| && t[j] == s[0];
  }

  lemma {:induction false} MapPermuted<T, U>(s: seq<T>, t: seq<T>, f: T -> U)
    requires multiset(s) == multiset(t)
    ensures multiset(Map(s, f)) == multiset(Map(t, f))
  {
    SameLength(s, t);
    if s != [] {
      var j := Find(s, t);
      WithoutSame(s, t, j);
      MapPermuted(s[1..], t[..j] + t[j + 1..], f);
      MapHead(s, f);
      MapOne(t, j, f);
    }
  }

  // ---------- sorting ----------

  /** Puts `x` after the last element that may stay before it. */
  function Insert<T>(s: seq<T>, x: T, le: (T, T) -> bool): seq<T> {
    if s == [] || le(s[|s| - 1], x) then s + [x]
    else Insert(s[..|s| - 1], x, le) + [s[|s| - 1]]
  }

  /** A stable sort: equal elements keep the order of the list. */
  function Sort<T>(s: seq<T>, le: (T, T) -> bool): seq<T> {
    if s == [] then [] else Insert(Sort(s[..|s| - 1], le), s[|s| - 1], le)
  }

  lemma InsertAppend<T>(s: seq<T>, last: T, x: T, le: (T, T) -> bool)
    ensures Insert(s + [last], x, le) == if le(last, x) then (s + [last]) + [x] else Insert(s, x, le) + [last]
  {
    assert (s + [last])[..|s|] == s;
  }

  lemma SortAppend<T>(s: seq<T>, x: T, le: (T, T) -> bool)
    ensures Sort(s + [x], le) == Insert(Sort(s, le), x, le)
  {
    assert (s + [x])[..|s|] == s;
  }

  ghost predicate SortedBy<T>(s: seq<T>, le: (T, T) -> bool) {
    forall i, j :: 0 <= i < j < |s| ==> le(s[i], s[j])
  }

  /** `le` orders the elements of `s` totally. */
  ghost predicate Orders<T(!new)>(le: (T, T) -> bool, s: seq<T>) {
    && (forall x, y :: x in s && y in s ==> le(x, y) || le(y, x))
    && (forall x, y, z :: x in s && y in s && z in s && le(x, y) && le(y, z) ==> le(x, z))
  }

  ghost predicate Antisymmetric<T(!new)>(le: (T, T) -> bool, s: seq<T>) {
    forall x, y :: x in s && y in s && le(x, y) && le(y, x) ==> x == y
  }

  lemma {:induction false} InsertPermutes<T>(s: seq<T>, x: T, le: (T, T) -> bool)
    ensures multiset(Insert(s, x, le)) == multiset(s) + multiset{x}
  {
    if s != [] && !le(s[|s| - 1], x) {
      InsertPermutes(s[..|s| - 1], x, le);
      assert s == s[..|s| - 1] + [s[|s| - 1]];
    }
  }

  lemma InsertMembers<T>(s: seq<T>, x: T, le: (T, T) -> bool)
    ensures forall y :: y in Insert(s, x, le) <==> y in s || y == x
  {
    InsertPermutes(s, x, le);
    forall y ensures y in Insert(s, x, le) <==> y in s || y == x {
      assert y in Insert(s, x, le) <==> y in multiset(s) + multiset{x};
    }
  }

  lemma {:induction false} SortPermutes<T>(s: seq<T>, le: (T, T) -> bool)
    ensures multiset(Sort(s, le)) == multiset(s)
  {
    if s != [] {
      SortPermutes(s[..|s| - 1], le);
      InsertPermutes(Sort(s[..|s| - 1], le), s[|s| - 1], le);
      assert s == s[..|s| - 1] + [s[|s| - 1]];
    }
  }

  lemma SameMembers<T>(s: seq<T>, t: seq<T>)
    requires multiset(s) == multiset(t)
    ensures forall x :: x in s <==> x in t
  {
    assert forall x :: x in s <==> x in multiset(s);
  }

  lemma SortedAppend<T(!new)>(s: seq<T>, x: T, le: (T, T) -> bool)
    requires SortedBy(s, le) && forall y :: y in s ==> le(y, x)
    ensures SortedBy(s + [x], le)
  {
    forall i, j | 0 <= i < j < |s + [x]| ensures le((s + [x])[i], (s + [x])[j]) {
      assert i < |s| && (s + [x])[i] == s[i] && s[i] in s;
    }
  }

  /** The last element of a sorted list comes after the others, and after what does not come after it. */
  lemma LastIsLargest<T(!new)>(s: seq<T>, x: T, le: (T, T) -> bool)
    requires s != [] && Orders(le, s + [x]) && SortedBy(s, le)
    ensures forall y :: y in s ==> le(y, s[|s| - 1])
    ensures le(s[|s| - 1], x) ==> forall y :: y in s ==> le(y, x)
    ensures !le(s[|s| - 1], x) ==> le(x, s[|s| - 1])
  {
    var last := s[|s| - 1];
    assert last in s + [x] && x in s + [x];
    forall y | y in s ensures le(y, last) && (le(last, x) ==> le(y, x)) {
      assert y in s + [x];
      var i :| 0 <= i < |s| && s[i] == y;
    }
  }

  lemma {:induction false} InsertSorts<T(!new)>(s: seq<T>, x: T, le: (T, T) -> bool)
    requires Orders(le, s + [x]) && SortedBy(s, le)
    ensures SortedBy(Insert(s, x, le), le)
  {
    if s != [] {
      var init, last := s[..|s| - 1], s[|s| - 1];
      assert s == init + [last];
      LastIsLargest(s, x, le);
      if le(last, x) {
        SortedAppend(s, x, le);
      } else {
        assert forall y :: y in init + [x] ==> y in s + [x];
        InsertSorts(init, x, le);
        InsertPermutes(init, x, le);
        forall y | y in Insert(init, x, le) ensures le(y, last) {
          assert y in multiset(init) + multiset{x};
        }
        SortedAppend(Insert(init, x, le), last, le);
      }
    }
  }

  lemma {:induction false} SortSorts<T(!new)>(s: seq<T>, le: (T, T) -> bool)
    requires Orders(le, s)
    ensures SortedBy(Sort(s, le), le)
  {
    if s != [] {
      var init, x := s[..|s| - 1], s[|s| - 1];
      assert forall y :: y in init ==> y in s;
      SortSorts(init, le);
      SortPermutes(init, le);
      SameMembers(Sort(init, le), init);
      assert forall y :: y in Sort(init, le) + [x] ==> y in s;
      InsertSorts(Sort(init, le), x, le);
    }
  }

  lemma LargestAgree<T(!new)>(s: seq<T>, t: seq<T>, le: (T, T) -> bool)
    requires s != [] && t != [] && (forall x :: x in s <==> x in t)
    requires SortedBy(s, le) && SortedBy(t, le) && Antisymmetric(le, s)
    ensures s[|s| - 1] == t[|t| - 1]
  {
    var x, y := s[|s| - 1], t[|t| - 1];
    assert x in t && y in s;
    var i :| 0 <= i < |t| && t[i] == x;
    var j :| 0 <= j < |s| && s[j] == y;
  }

  lemma WithoutLast<T>(s: seq<T>, t: seq<T>)
    requires s != [] && t != [] && multiset(s) == multiset(t) && s[|s| - 1] == t[|t| - 1]
    ensures multiset(s[..|s| - 1]) == multiset(t[..|t| - 1])
    ensures s[..|s| - 1] == t[..|t| - 1] ==> s == t
  {
    assert s == s[..|s| - 1] + [s[|s| - 1]];
    assert t == t[..|t| - 1] + [t[|t| - 1]];
    assert multiset(s[..|s| - 1]) == multiset(s) - multiset{s[|s| - 1]};
    assert multiset(t[..|t| - 1]) == multiset(t) - multiset{s[|s| - 1]};
  }

  lemma SameLength<T>(s: seq<T>, t: seq<T>)
    requires multiset(s) == multiset(t)
    ensures |s| == |t|
  {
    assert |s| == |multiset(s)| && |t| == |multiset(t)|;
  }

  /** A sorted list is determined by its elements when no two of them tie. */
  lemma {:induction false} SortedIsUnique<T(!new)>(s: seq<T>, t: seq<T>, le: (T, T) -> bool)
    requires multiset(s) == multiset(t) && SortedBy(s, le) && SortedBy(t, le)
    requires Antisymmetric(le, s)
    ensures s == t
  {
    SameLength(s, t);
    if s != [] {
      SameMembers(s, t);
      LargestAgree(s, t, le);
      WithoutLast(s, t);
      SortedIsUnique(s[..|s| - 1], t[..|t| - 1], le);
    }
  }

  /** Sorting forgets the order of the input when no two elements tie. */
  lemma SortForgetsOrder<T(!new)>(s: seq<T>, t: seq<T>, le: (T, T) -> bool)
    requires multiset(s) == multiset(t) && Orders(le, s) && Antisymmetric(le, s)
    ensures Sort(s, le) == Sort(t, le)
  {
    SameMembers(s, t);
    SortSorts(s, le);
    SortSorts(t, le);
    SortPermutes(s, le);
    SortPermutes(t, le);
    SameMembers(Sort(s, le), s);
    SortedIsUnique(Sort(s, le), Sort(t, le), le);
  }
}
