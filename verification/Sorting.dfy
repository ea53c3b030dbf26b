/** Stable sorting (sort.SliceStable) by a comparison that may leave ties, and what it does to parts of a list. */
module Sorting {

  /** A comparison a stable sort accepts: asymmetric, and "not before" is transitive. */
  ghost predicate WeakOrder<T(!new)>(less: (T, T) -> bool) {
    && (forall a, b :: !(less(a, b) && less(b, a)))
    && (forall a, b, c :: !less(a, b) && !less(b, c) ==> !less(a, c))
  }

  ghost predicate Ordered<T>(s: seq<T>, less: (T, T) -> bool) {
    forall i, j :: 0 <= i < j < |s| ==> !less(s[j], s[i])
  }

  function Insert<T>(x: T, s: seq<T>, less: (T, T) -> bool): seq<T> {
    if s == [] || !less(s[0], x) then [x] + s else [s[0]] + Insert(x, s[1..], less)
  }

  /** The stable sort of s: x goes before the first element that is not before it. */
  function Sort<T>(s: seq<T>, less: (T, T) -> bool): seq<T> {
    if s == [] then [] else Insert(s[0], Sort(s[1..], less), less)
  }

  function Filter<T>(s: seq<T>, f: T -> bool): seq<T> {
    if s == [] then [] else if f(s[0]) then [s[0]] + Filter(s[1..], f) else Filter(s[1..], f)
  }

  function Map<T, U>(s: seq<T>, f: T -> U): seq<U> {
    if s == [] then [] else [f(s[0])] + Map(s[1..], f)
  }

  lemma {:induction false} InsertPermutes<T>(x: T, s: seq<T>, less: (T, T) -> bool)
    ensures multiset(Insert(x, s, less)) == multiset(s) + multiset{x}
  {
    if s != [] && less(s[0], x) {
      InsertPermutes(x, s[1..], less);
      assert s == [s[0]] + s[1..];
    }
  }

  lemma {:induction false} SortPermutes<T>(s: seq<T>, less: (T, T) -> bool)
    ensures multiset(Sort(s, less)) == multiset(s)
  {
    if s != [] {
      SortPermutes(s[1..], less);
      InsertPermutes(s[0], Sort(s[1..], less), less);
      assert s == [s[0]] + s[1..];
    }
  }

  lemma SameElements<T>(s: seq<T>, t: seq<T>)
    requires multiset(s) == multiset(t)
    ensures |s| == |t| && forall x :: x in s <==> x in t
  {
    assert |multiset(s)| == |s| && |multiset(t)| == |t|;
    assert forall x :: x in s <==> x in multiset(s);
    assert forall x :: x in t <==> x in multiset(t);
  }

  lemma {:induction false} InsertOrdered<T(!new)>(x: T, s: seq<T>, less: (T, T) -> bool)
    requires WeakOrder(less) && Ordered(s, less)
    ensures Ordered(Insert(x, s, less), less)
  {
    if s == [] {
    } else if !less(s[0], x) {
      forall j | 0 <= j < |s| ensures !less(s[j], x) {
        assert j > 0 ==> !less(s[j], s[0]);
      }
    } else {
      var rest := Insert(x, s[1..], less);
      InsertOrdered(x, s[1..], less);
      InsertPermutes(x, s[1..], less);
      forall j | 0 <= j < |rest| ensures !less(rest[j], s[0]) {
        assert rest[j] in multiset(rest);
        assert rest[j] == x || rest[j] in s[1..];
      }
    }
  }

  lemma {:induction false} SortOrdered<T(!new)>(s: seq<T>, less: (T, T) -> bool)
    requires WeakOrder(less)
    ensures Ordered(Sort(s, less), less)
  {
    if s != [] {
      SortOrdered(s[1..], less);
      InsertOrdered(s[0], Sort(s[1..], less), less);
    }
  }

  /** Only equal elements of s tie. */
  ghost predicate NoTies<T>(s: seq<T>, less: (T, T) -> bool) {
    forall x, y :: x in s && y in s && !less(x, y) && !less(y, x) ==> x == y
  }

  lemma SameHead<T>(s: seq<T>, t: seq<T>, less: (T, T) -> bool)
    requires Ordered(s, less) && Ordered(t, less) && NoTies(s, less) && (forall x :: x in s ==> !less(x, x))
    requires s != [] && t != [] && s[0] in t && t[0] in s
    ensures s[0] == t[0]
  {
    var i :| 0 <= i < |s| && s[i] == t[0];
    var j :| 0 <= j < |t| && t[j] == s[0];
    assert !less(s[i], s[0]) && !less(t[j], t[0]);
  }

  lemma SameTails<T>(s: seq<T>, t: seq<T>)
    requires s != [] && t != [] && s[0] == t[0] && multiset(s) == multiset(t)
    ensures multiset(s[1..]) == multiset(t[1..])
  {
    assert s == [s[0]] + s[1..] && t == [t[0]] + t[1..];
    assert multiset(s[1..]) == multiset(s) - multiset{s[0]};
    assert multiset(t[1..]) == multiset(t) - multiset{t[0]};
  }

  lemma {:induction false} OrderedUnique<T>(s: seq<T>, t: seq<T>, less: (T, T) -> bool)
    requires Ordered(s, less) && Ordered(t, less) && multiset(s) == multiset(t) && NoTies(s, less)
    requires forall x :: x in s ==> !less(x, x)
    ensures s == t
    decreases |s|
  {
    SameElements(s, t);
    if s != [] {
      SameHead(s, t, less);
      SameTails(s, t);
      OrderedUnique(s[1..], t[1..], less);
      assert s == [s[0]] + s[1..] && t == [t[0]] + t[1..];
    }
  }

  /** Without ties, the sorted list does not depend on the order of the input. */
  lemma SortUnique<T(!new)>(s: seq<T>, t: seq<T>, less: (T, T) -> bool)
    requires WeakOrder(less) && multiset(s) == multiset(t) && NoTies(s, less)
    ensures Sort(s, less) == Sort(t, less)
  {
    SortPermutes(s, less);
    SortPermutes(t, less);
    SortOrdered(s, less);
    SortOrdered(t, less);
    SameElements(s, Sort(s, less));
    OrderedUnique(Sort(s, less), Sort(t, less), less);
  }

  lemma {:induction false} FilterConcat<T>(s: seq<T>, t: seq<T>, f: T -> bool)
    ensures Filter(s + t, f) == Filter(s, f) + Filter(t, f)
  {
    if s == [] {
      assert s + t == t;
    } else {
      assert (s + t)[1..] == s[1..] + t;
      FilterConcat(s[1..], t, f);
    }
  }

  lemma {:induction false} FilterCount<T>(s: seq<T>, f: T -> bool, x: T)
    ensures multiset(Filter(s, f))[x] == if f(x) then multiset(s)[x] else 0
  {
    if s != [] {
      FilterCount(s[1..], f, x);
      assert s == [s[0]] + s[1..];
    }
  }

  function Without<T>(t: seq<T>, i: nat): seq<T>
    requires i < |t|
  {
    t[..i] + t[i + 1..]
  }

  lemma WithoutCount<T>(t: seq<T>, i: nat)
    requires i < |t|
    ensures multiset(Without(t, i)) == multiset(t) - multiset{t[i]}
  {
    assert t == t[..i] + ([t[i]] + t[i + 1..]);
  }

  /** The head of s, taken out of a permutation of s. */
  lemma TakeHead<T>(s: seq<T>, t: seq<T>) returns (i: nat)
    requires multiset(s) == multiset(t) && s != []
    ensures i < |t| && t[i] == s[0] && multiset(s[1..]) == multiset(Without(t, i))
  {
    SameElements(s, t);
    assert s[0] in t;
    i :| i < |t| && t[i] == s[0];
    WithoutCount(t, i);
    WithoutCount(s, 0);
    assert Without(s, 0) == s[1..];
  }

  lemma FilterWithout<T>(t: seq<T>, i: nat, f: T -> bool)
    requires i < |t|
    ensures multiset(Filter(t, f)) == multiset(Filter(Without(t, i), f)) + if f(t[i]) then multiset{t[i]} else multiset{}
  {
    var a, b := t[..i], t[i + 1..];
    assert t == a + ([t[i]] + b);
    FilterConcat(a, [t[i]] + b, f);
    FilterConcat(a, b, f);
    assert ([t[i]] + b)[1..] == b;
  }

  lemma {:induction false} FilterPermutes<T>(s: seq<T>, t: seq<T>, f: T -> bool)
    requires multiset(s) == multiset(t)
    ensures multiset(Filter(s, f)) == multiset(Filter(t, f))
    decreases |s|
  {
    SameElements(s, t);
    if s != [] {
      var i := TakeHead(s, t);
      FilterWithout(t, i, f);
      FilterPermutes(s[1..], Without(t, i), f);
    }
  }

  lemma FilterMember<T>(s: seq<T>, f: T -> bool, x: T)
    ensures x in Filter(s, f) <==> x in s && f(x)
  {
    FilterCount(s, f, x);
    assert x in s <==> multiset(s)[x] > 0;
    assert x in Filter(s, f) <==> multiset(Filter(s, f))[x] > 0;
  }

  lemma {:induction false} FilterSame<T>(s: seq<T>, f: T -> bool, g: T -> bool)
    requires forall x :: x in s ==> f(x) == g(x)
    ensures Filter(s, f) == Filter(s, g)
  {
    if s != [] {
      FilterSame(s[1..], f, g);
    }
  }

  lemma {:induction false} FilterInsert<T(!new)>(x: T, s: seq<T>, less: (T, T) -> bool, f: T -> bool)
    requires WeakOrder(less) && Ordered(s, less)
    ensures Filter(Insert(x, s, less), f) == if f(x) then Insert(x, Filter(s, f), less) else Filter(s, f)
  {
    if s == [] {
    } else if !less(s[0], x) {
      assert ([x] + s)[1..] == s;
      var rest := Filter(s, f);
      if rest != [] {
        FilterMember(s, f, rest[0]);
        var i :| 0 <= i < |s| && s[i] == rest[0];
        assert i == 0 || !less(s[i], s[0]);
      }
    } else {
      var rest := Insert(x, s[1..], less);
      assert ([s[0]] + rest)[1..] == rest;
      FilterInsert(x, s[1..], less, f);
      if f(s[0]) {
        assert Filter(s, f)[1..] == Filter(s[1..], f);
      }
    }
  }

  /** Sorting and picking out elements commute. */
  lemma {:induction false} FilterSort<T(!new)>(s: seq<T>, less: (T, T) -> bool, f: T -> bool)
    requires WeakOrder(less)
    ensures Filter(Sort(s, less), f) == Sort(Filter(s, f), less)
  {
    if s != [] {
      SortOrdered(s[1..], less);
      FilterInsert(s[0], Sort(s[1..], less), less, f);
      FilterSort(s[1..], less, f);
      if f(s[0]) {
        assert Filter(s, f)[1..] == Filter(s[1..], f);
      }
    }
  }

  /** A list whose elements all tie stays as it is: with FilterSort, this is stability. */
  lemma {:induction false} TiedSort<T>(s: seq<T>, less: (T, T) -> bool)
    requires forall x, y :: x in s && y in s ==> !less(x, y)
    ensures Sort(s, less) == s
  {
    if s != [] {
      TiedSort(s[1..], less);
    }
  }

  lemma {:induction false} MapAt<T, U>(s: seq<T>, f: T -> U, i: nat)
    requires i < |s|
    ensures |Map(s, f)| == |s| && Map(s, f)[i] == f(s[i])
  {
    if |s| > 1 {
      MapAt(s[1..], f, if i > 0 then i - 1 else 0);
    }
  }

  lemma MapMember<T, U>(s: seq<T>, f: T -> U, y: U)
    requires y in Map(s, f)
    ensures exists x :: x in s && f(x) == y
  {
    MapLength(s, f);
    var i: nat :| i < |Map(s, f)| && Map(s, f)[i] == y;
    MapAt(s, f, i);
    assert s[i] in s;
  }

  lemma {:induction false} MapLength<T, U>(s: seq<T>, f: T -> U)
    ensures |Map(s, f)| == |s|
  {
    if s != [] {
      MapLength(s[1..], f);
    }
  }

  lemma {:induction false} MapConcat<T, U>(s: seq<T>, t: seq<T>, f: T -> U)
    ensures Map(s + t, f) == Map(s, f) + Map(t, f)
  {
    if s == [] {
      assert s + t == t;
    } else {
      assert (s + t)[1..] == s[1..] + t;
      MapConcat(s[1..], t, f);
    }
  }

  lemma MapPrepend<T, U>(x: T, s: seq<T>, f: T -> U)
    ensures Map([x] + s, f) == [f(x)] + Map(s, f)
  {
    assert ([x] + s)[1..] == s;
  }

  lemma MapTwo<T, U>(x: T, y: T, f: T -> U)
    ensures Map([x, y], f) == [f(x), f(y)]
  {
    assert [x, y] == [x] + [y] && [y] == [y] + [];
    MapPrepend(x, [y], f);
    MapPrepend(y, [], f);
  }

  lemma WithoutTail<T>(t: seq<T>, i: nat)
    requires 0 < i < |t|
    ensures Without(t, i) == [t[0]] + Without(t[1..], i - 1)
  {
  }

  lemma {:induction false} MapWithout<T, U>(t: seq<T>, i: nat, f: T -> U)
    requires i < |t|
    ensures multiset(Map(t, f)) == multiset(Map(Without(t, i), f)) + multiset{f(t[i])}
  {
    if i == 0 {
      assert Without(t, 0) == t[1..];
    } else {
      MapWithout(t[1..], i - 1, f);
      WithoutTail(t, i);
      MapPrepend(t[0], Without(t[1..], i - 1), f);
    }
  }

  lemma {:induction false} MapPermutes<T, U>(s: seq<T>, t: seq<T>, f: T -> U)
    requires multiset(s) == multiset(t)
    ensures multiset(Map(s, f)) == multiset(Map(t, f))
    decreases |s|
  {
    SameElements(s, t);
    if s != [] {
      var i := TakeHead(s, t);
      MapWithout(t, i, f);
      MapPermutes(s[1..], Without(t, i), f);
    }
  }

  ghost predicate Distinct<T>(s: seq<T>) {
    forall i, j :: 0 <= i < j < |s| ==> s[i] != s[j]
  }

  lemma {:induction false} DistinctCount<T>(s: seq<T>, x: T)
    requires Distinct(s)
    ensures multiset(s)[x] <= 1
  {
    if s != [] {
      DistinctCount(s[1..], x);
      assert s == [s[0]] + s[1..];
      if x == s[0] {
        assert x !in s[1..];
      }
    }
  }

  lemma RepeatCount<T>(s: seq<T>, i: nat, j: nat)
    requires i < j < |s| && s[i] == s[j]
    ensures multiset(s)[s[i]] >= 2
  {
    assert s == s[..i] + [s[i]] + s[i + 1..j] + [s[j]] + s[j + 1..];
  }

  lemma DistinctPermutes<T>(s: seq<T>, t: seq<T>)
    requires Distinct(s) && multiset(s) == multiset(t)
    ensures Distinct(t)
  {
    forall i, j | 0 <= i < j < |t| ensures t[i] != t[j] {
      if t[i] == t[j] {
        RepeatCount(t, i, j);
        DistinctCount(s, t[i]);
      }
    }
  }

  lemma {:induction false} FilterAll<T>(s: seq<T>, f: T -> bool)
    requires forall x :: x in s ==> f(x)
    ensures Filter(s, f) == s
  {
    if s != [] {
      FilterAll(s[1..], f);
    }
  }

  lemma {:induction false} FilterNone<T>(s: seq<T>, f: T -> bool)
    requires forall x :: x in s ==> !f(x)
    ensures Filter(s, f) == []
  {
    if s != [] {
      FilterNone(s[1..], f);
    }
  }

  // ------------------------------------------------------------- stability

  /** The elements that tie with x. */
  function Tied<T>(x: T, less: (T, T) -> bool): T -> bool { (y: T) => !less(x, y) && !less(y, x) }

  /** Two lists keep their tied elements in the same order. */
  ghost predicate SameTies<T(!new)>(s: seq<T>, t: seq<T>, less: (T, T) -> bool) {
    forall x :: Filter(s, Tied(x, less)) == Filter(t, Tied(x, less))
  }

  /** A stable sort keeps tied elements in order. */
  lemma SortKeepsTies<T(!new)>(s: seq<T>, less: (T, T) -> bool)
    requires WeakOrder(less)
    ensures SameTies(Sort(s, less), s, less)
  {
    forall x ensures Filter(Sort(s, less), Tied(x, less)) == Filter(s, Tied(x, less)) {
      TiesKept(s, less, less, x);
    }
  }

  /** So does a stable sort by any order that ties them too. */
  lemma TiesKept<T(!new)>(s: seq<T>, first: (T, T) -> bool, less: (T, T) -> bool, x: T)
    requires WeakOrder(first) && WeakOrder(less) && forall a, b :: first(a, b) ==> less(a, b) || less(b, a)
    ensures Filter(Sort(s, first), Tied(x, less)) == Filter(s, Tied(x, less))
  {
    var tied := Tied(x, less);
    FilterSort(s, first, tied);
    forall a, b | a in Filter(s, tied) && b in Filter(s, tied) ensures !first(a, b) {
      FilterMember(s, tied, a);
      FilterMember(s, tied, b);
      assert !less(a, x) && !less(x, b) && !less(b, x) && !less(x, a);
    }
    TiedSort(Filter(s, tied), first);
  }

  lemma TiedHead<T(!new)>(s: seq<T>, t: seq<T>, less: (T, T) -> bool)
    requires WeakOrder(less) && Ordered(s, less) && Ordered(t, less) && SameTies(s, t, less) && s != []
    ensures t != [] && s[0] == t[0]
  {
    var tied := Tied(s[0], less);
    assert !less(s[0], s[0]);
    assert Filter(s, tied)[0] == s[0];
    FilterMember(t, tied, s[0]);
    var i :| 0 <= i < |t| && t[i] == s[0];
    var back := Tied(t[0], less);
    assert !less(t[0], t[0]);
    assert Filter(t, back)[0] == t[0];
    FilterMember(s, back, t[0]);
    var j :| 0 <= j < |s| && s[j] == t[0];
    assert i == 0 || !less(t[i], t[0]);
    assert j == 0 || !less(s[j], s[0]);
    assert Filter(t, tied)[0] == t[0];
  }

  lemma TiedTails<T(!new)>(s: seq<T>, t: seq<T>, less: (T, T) -> bool)
    requires SameTies(s, t, less) && s != [] && t != [] && s[0] == t[0]
    ensures SameTies(s[1..], t[1..], less)
  {
    forall x ensures Filter(s[1..], Tied(x, less)) == Filter(t[1..], Tied(x, less)) {
      var tied := Tied(x, less);
      assert Filter(s, tied) == Filter(t, tied);
      if tied(s[0]) {
        assert Filter(s, tied)[1..] == Filter(s[1..], tied);
        assert Filter(t, tied)[1..] == Filter(t[1..], tied);
      }
    }
  }

  /** An ordered list is determined by the order of its tied elements. */
  lemma {:induction false} StableUnique<T(!new)>(s: seq<T>, t: seq<T>, less: (T, T) -> bool)
    requires WeakOrder(less) && Ordered(s, less) && Ordered(t, less) && SameTies(s, t, less)
    ensures s == t
    decreases |s|
  {
    if s != [] {
      TiedHead(s, t, less);
      TiedTails(s, t, less);
      StableUnique(s[1..], t[1..], less);
      assert s == [s[0]] + s[1..] && t == [t[0]] + t[1..];
    } else if t != [] {
      assert SameTies(t, s, less);
      TiedHead(t, s, less);
    }
  }

  /** Sorting forgets all but the order of tied elements. */
  lemma SortByTies<T(!new)>(s: seq<T>, t: seq<T>, less: (T, T) -> bool)
    requires WeakOrder(less) && SameTies(s, t, less)
    ensures Sort(s, less) == Sort(t, less)
  {
    SortOrdered(s, less);
    SortOrdered(t, less);
    SortKeepsTies(s, less);
    SortKeepsTies(t, less);
    forall x ensures Filter(Sort(s, less), Tied(x, less)) == Filter(Sort(t, less), Tied(x, less)) {
      assert Filter(s, Tied(x, less)) == Filter(t, Tied(x, less));
    }
    StableUnique(Sort(s, less), Sort(t, less), less);
  }

  /** Two ordered lists into one, the first's elements before tied ones of the second. */
  function Merge<T>(a: seq<T>, b: seq<T>, less: (T, T) -> bool): seq<T>
    decreases |a| + |b|
  {
    if a == [] then b
    else if b == [] then a
    else if less(b[0], a[0]) then [b[0]] + Merge(a, b[1..], less)
    else [a[0]] + Merge(a[1..], b, less)
  }

  lemma {:induction false} MergePermutes<T>(a: seq<T>, b: seq<T>, less: (T, T) -> bool)
    ensures multiset(Merge(a, b, less)) == multiset(a) + multiset(b)
    decreases |a| + |b|
  {
    if a != [] && b != [] {
      if less(b[0], a[0]) {
        MergePermutes(a, b[1..], less);
        assert b == [b[0]] + b[1..];
      } else {
        MergePermutes(a[1..], b, less);
        assert a == [a[0]] + a[1..];
      }
    }
  }

  lemma MergeMember<T>(a: seq<T>, b: seq<T>, less: (T, T) -> bool, x: T)
    requires x in Merge(a, b, less)
    ensures x in a || x in b
  {
    MergePermutes(a, b, less);
    assert x in multiset(Merge(a, b, less));
  }

  lemma OrderedPrepend<T>(x: T, s: seq<T>, less: (T, T) -> bool)
    requires Ordered(s, less) && forall y :: y in s ==> !less(y, x)
    ensures Ordered([x] + s, less)
  {
  }

  lemma HeadFirst<T>(s: seq<T>, less: (T, T) -> bool, y: T)
    requires Ordered(s, less) && y in s && !less(s[0], s[0])
    ensures !less(y, s[0])
  {
  }

  lemma {:induction false} MergeOrdered<T(!new)>(a: seq<T>, b: seq<T>, less: (T, T) -> bool)
    requires WeakOrder(less) && Ordered(a, less) && Ordered(b, less)
    ensures Ordered(Merge(a, b, less), less)
    decreases |a| + |b|
  {
    if a != [] && b != [] {
      var x, s := if less(b[0], a[0]) then b[0] else a[0],
                  if less(b[0], a[0]) then Merge(a, b[1..], less) else Merge(a[1..], b, less);
      if less(b[0], a[0]) {
        MergeOrdered(a, b[1..], less);
      } else {
        MergeOrdered(a[1..], b, less);
      }
      forall y | y in s ensures !less(y, x) {
        if less(b[0], a[0]) {
          MergeMember(a, b[1..], less, y);
        } else {
          MergeMember(a[1..], b, less, y);
        }
        assert y in a || y in b;
        if y in a {
          HeadFirst(a, less, y);
        } else {
          HeadFirst(b, less, y);
        }
      }
      OrderedPrepend(x, s, less);
    }
  }

  /** No element of an ordered list ties with one strictly before its head. */
  lemma NoneTied<T(!new)>(x: T, s: seq<T>, y: T, less: (T, T) -> bool)
    requires WeakOrder(less) && Ordered(s, less) && s != [] && less(y, s[0]) && Tied(x, less)(y)
    ensures Filter(s, Tied(x, less)) == []
  {
    forall z | z in s ensures !Tied(x, less)(z) {
      HeadFirst(s, less, z);
      assert less(y, z);
    }
    FilterNone(s, Tied(x, less));
  }

  lemma {:induction false} MergeTies<T(!new)>(x: T, a: seq<T>, b: seq<T>, less: (T, T) -> bool)
    requires WeakOrder(less) && Ordered(a, less) && Ordered(b, less)
    ensures Filter(Merge(a, b, less), Tied(x, less)) == Filter(a, Tied(x, less)) + Filter(b, Tied(x, less))
    decreases |a| + |b|
  {
    var tied := Tied(x, less);
    if a != [] && b != [] {
      if less(b[0], a[0]) {
        MergeTies(x, a, b[1..], less);
        if tied(b[0]) {
          NoneTied(x, a, b[0], less);
        }
      } else {
        MergeTies(x, a[1..], b, less);
      }
    }
  }

  /** Sorting a list that starts in order merges it with the sorted rest. */
  lemma SortIsMerge<T(!new)>(a: seq<T>, b: seq<T>, less: (T, T) -> bool)
    requires WeakOrder(less) && Ordered(a, less)
    ensures Sort(a + b, less) == Merge(a, Sort(b, less), less)
  {
    SortOrdered(b, less);
    SortOrdered(a + b, less);
    SortKeepsTies(b, less);
    SortKeepsTies(a + b, less);
    MergeOrdered(a, Sort(b, less), less);
    forall x ensures Filter(Sort(a + b, less), Tied(x, less)) == Filter(Merge(a, Sort(b, less), less), Tied(x, less)) {
      MergeTies(x, a, Sort(b, less), less);
      FilterConcat(a, b, Tied(x, less));
      assert Filter(Sort(b, less), Tied(x, less)) == Filter(b, Tied(x, less));
      assert Filter(Sort(a + b, less), Tied(x, less)) == Filter(a + b, Tied(x, less));
    }
    StableUnique(Sort(a + b, less), Merge(a, Sort(b, less), less), less);
  }

  /** Mapping to things compared alike commutes with sorting. */
  lemma {:induction false} MapSort<T, U>(s: seq<T>, f: T -> U, less: (T, T) -> bool, on: (U, U) -> bool)
    requires forall x, y :: on(f(x), f(y)) == less(x, y)
    ensures Map(Sort(s, less), f) == Sort(Map(s, f), on)
  {
    if s != [] {
      MapSort(s[1..], f, less, on);
      MapInsert(s[0], Sort(s[1..], less), f, less, on);
    }
  }

  lemma {:induction false} MapInsert<T, U>(x: T, s: seq<T>, f: T -> U, less: (T, T) -> bool, on: (U, U) -> bool)
    requires forall x, y :: on(f(x), f(y)) == less(x, y)
    ensures Map(Insert(x, s, less), f) == Insert(f(x), Map(s, f), on)
  {
    if s == [] {
    } else if !less(s[0], x) {
      assert ([x] + s)[1..] == s;
    } else {
      MapInsert(x, s[1..], f, less, on);
      var rest := Insert(x, s[1..], less);
      assert ([s[0]] + rest)[1..] == rest;
      assert Map(s, f)[1..] == Map(s[1..], f);
    }
  }

  /** When nothing of the second comes before anything of the first, merging is concatenating. */
  lemma {:induction false} MergeFront<T>(a: seq<T>, b: seq<T>, less: (T, T) -> bool)
    requires forall x, y :: x in a && y in b ==> !less(y, x)
    ensures Merge(a, b, less) == a + b
  {
    if a != [] && b != [] {
      assert a[0] in a && b[0] in b;
      MergeFront(a[1..], b, less);
    }
  }

  lemma SortTwo<T>(x: T, y: T, less: (T, T) -> bool)
    ensures Sort([x, y], less) == if less(y, x) then [y, x] else [x, y]
  {
    assert [x, y][1..] == [y] && [y][1..] == [];
    assert Sort([y], less) == [y];
    assert Insert(x, [y][1..], less) == [x];
  }
}
