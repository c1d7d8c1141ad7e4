/** std::sort and std::map iteration order, by their guarantees. */
module Sorting {
  import opened Collections

  ghost predicate WeakOrder<T(!new)>(less: (T, T) -> bool) {
    && (forall x, y :: less(x, y) ==> !less(y, x))
    && (forall x, y, z :: !less(x, y) && !less(y, z) ==> !less(x, z))
  }

  /** No element is before an earlier one: all that std::sort promises about order. */
  ghost predicate Sorted<T(!new)>(less: (T, T) -> bool, s: seq<T>) {
    forall i, j :: 0 <= i < j < |s| ==> !less(s[j], s[i])
  }

  ghost predicate StrictlySorted<T(!new)>(less: (T, T) -> bool, s: seq<T>) {
    forall i, j :: 0 <= i < j < |s| ==> less(s[i], s[j])
  }

  /** Any two positions hold elements the order tells apart. */
  ghost predicate Distinct<T(!new)>(less: (T, T) -> bool, s: seq<T>) {
    forall i, j :: 0 <= i < j < |s| ==> less(s[i], s[j]) || less(s[j], s[i])
  }

  function Insert<T>(less: (T, T) -> bool, x: T, s: seq<T>): seq<T> {
    if s == [] then [x]
    else if less(x, s[0]) then [x] + s
    else [s[0]] + Insert(less, x, s[1..])
  }

  function Sort<T>(less: (T, T) -> bool, s: seq<T>): seq<T> {
    if s == [] then [] else Insert(less, s[0], Sort(less, s[1..]))
  }

  lemma {:induction false} InsertKeeps<T(!new)>(less: (T, T) -> bool, x: T, s: seq<T>)
    requires WeakOrder(less) && Sorted(less, s)
    ensures multiset(Insert(less, x, s)) == multiset([x] + s)
    ensures Sorted(less, Insert(less, x, s))
  {
    if s == [] {
    } else if less(x, s[0]) {
      forall j | 0 <= j < |s| ensures !less(s[j], x) {
        assert less(x, s[0]) && !less(s[j], s[0]);
      }
    } else {
      InsertKeeps(less, x, s[1..]);
      var rest := Insert(less, x, s[1..]);
      assert s == [s[0]] + s[1..];
      forall j | 0 <= j < |rest| ensures !less(rest[j], s[0]) {
        assert rest[j] in multiset(rest);
        assert rest[j] in multiset([x] + s[1..]);
      }
    }
  }

  lemma {:induction false} SortSorts<T(!new)>(less: (T, T) -> bool, s: seq<T>)
    requires WeakOrder(less)
    ensures multiset(Sort(less, s)) == multiset(s)
    ensures Sorted(less, Sort(less, s))
  {
    if s != [] {
      SortSorts(less, s[1..]);
      InsertKeeps(less, s[0], Sort(less, s[1..]));
      assert s == [s[0]] + s[1..];
    }
  }

  lemma SplitAt<T>(s: seq<T>, i: nat)
    requires i < |s|
    ensures multiset(s) == multiset(s[..i]) + multiset{s[i]} + multiset(s[i + 1..])
  {
    assert s == s[..i] + [s[i]] + s[i + 1..];
  }

  /** An element the order tells apart from all others occurs once. */
  lemma DistinctMultiset<T(!new)>(less: (T, T) -> bool, s: seq<T>, x: T)
    requires forall y :: !less(y, y)
    requires Distinct(less, s)
    ensures multiset(s)[x] <= 1
  {
    if x in s {
      var i :| 0 <= i < |s| && s[i] == x;
      SplitAt(s, i);
      assert x !in s[..i];
      assert x !in s[i + 1..];
    }
  }

  lemma TwoOccurrences<T>(s: seq<T>, i: nat, j: nat)
    requires i < j < |s| && s[i] == s[j]
    ensures multiset(s)[s[i]] >= 2
  {
    SplitAt(s, j);
    assert s[..j][i] == s[i];
    assert s[i] in multiset(s[..j]);
  }

  lemma SameLength<T>(a: seq<T>, b: seq<T>)
    requires multiset(a) == multiset(b)
    ensures |a| == |b|
  {
    assert |multiset(a)| == |a| && |multiset(b)| == |b|;
  }

  lemma TailMultiset<T>(s: seq<T>)
    requires s != []
    ensures multiset(s[1..]) == multiset(s) - multiset{s[0]}
  {
    assert s == [s[0]] + s[1..];
  }

  lemma SameTails<T>(a: seq<T>, b: seq<T>)
    requires a != [] && b != [] && a[0] == b[0] && multiset(a) == multiset(b)
    ensures multiset(a[1..]) == multiset(b[1..])
  {
    TailMultiset(a);
    TailMultiset(b);
  }

  lemma TailStrict<T(!new)>(less: (T, T) -> bool, s: seq<T>)
    requires s != [] && StrictlySorted(less, s)
    ensures StrictlySorted(less, s[1..])
  {}

  lemma HeadsAgree<T(!new)>(less: (T, T) -> bool, a: seq<T>, b: seq<T>)
    requires forall x, y :: less(x, y) ==> !less(y, x)
    requires a != [] && b != [] && multiset(a) == multiset(b)
    requires StrictlySorted(less, a) && StrictlySorted(less, b)
    ensures a[0] == b[0]
  {
    assert a[0] in multiset(b) && b[0] in multiset(a);
    var i :| 0 <= i < |b| && b[i] == a[0];
    var j :| 0 <= j < |a| && a[j] == b[0];
  }

  lemma HeadAndTail<T>(a: seq<T>, b: seq<T>)
    requires a != [] && b != [] && a[0] == b[0] && a[1..] == b[1..]
    ensures a == b
  {
    assert a == [a[0]] + a[1..] && b == [b[0]] + b[1..];
  }

  /** With no ties an unstable sort has one possible result. */
  lemma {:induction false} SortedUnique<T(!new)>(less: (T, T) -> bool, a: seq<T>, b: seq<T>)
    requires forall x, y :: less(x, y) ==> !less(y, x)
    requires multiset(a) == multiset(b)
    requires StrictlySorted(less, a) && StrictlySorted(less, b)
    ensures a == b
  {
    SameLength(a, b);
    if a != [] {
      HeadsAgree(less, a, b);
      SameTails(a, b);
      TailStrict(less, a);
      TailStrict(less, b);
      SortedUnique(less, a[1..], b[1..]);
      HeadAndTail(a, b);
    }
  }

  lemma SortedDistinctIsStrict<T(!new)>(less: (T, T) -> bool, s: seq<T>, sorted: seq<T>)
    requires forall y :: !less(y, y)
    requires Distinct(less, s) && multiset(sorted) == multiset(s) && Sorted(less, sorted)
    ensures StrictlySorted(less, sorted)
  {
    forall i, j | 0 <= i < j < |sorted| ensures less(sorted[i], sorted[j]) {
      var x, y := sorted[i], sorted[j];
      DistinctMultiset(less, s, x);
      if x == y {
        TwoOccurrences(sorted, i, j);
      }
      assert x in multiset(s) && y in multiset(s);
      var p :| 0 <= p < |s| && s[p] == x;
      var q :| 0 <= q < |s| && s[q] == y;
      assert p < q || q < p;
    }
  }

  // ---- std::map<int, ...> iterates its keys in ascending order ----

  lemma {:induction false} MinExists(s: set<int>)
    requires s != {}
    ensures exists m :: m in s && forall y :: y in s ==> m <= y
  {
    var x := Member(s);
    var rest := s - {x};
    if rest == {} {
      assert s == {x};
    } else {
      MinExists(rest);
      var m :| m in rest && forall y :: y in rest ==> m <= y;
      var least := if m < x then m else x;
      assert least in s && forall y :: y in s ==> least <= y by {
        forall y | y in s ensures least <= y { assert y == x || y in rest; }
      }
    }
  }

  function Min(s: set<int>): (m: int)
    requires s != {}
    ensures m in s && forall y :: y in s ==> m <= y
  {
    MinExists(s);
    var m :| m in s && forall y :: y in s ==> m <= y;
    m
  }

  lemma LeastFirst(m: int, rest: seq<int>)
    requires forall k :: k in rest ==> m < k
    requires forall i, j :: 0 <= i < j < |rest| ==> rest[i] < rest[j]
    ensures var keys := [m] + rest; forall i, j :: 0 <= i < j < |keys| ==> keys[i] < keys[j]
  {
    forall j | 0 <= j < |rest| ensures m < rest[j] { assert rest[j] in rest; }
  }

  function Ascending(s: set<int>): (keys: seq<int>)
    ensures |keys| == |s|
    ensures forall k :: k in keys <==> k in s
    ensures forall i, j :: 0 <= i < j < |keys| ==> keys[i] < keys[j]
  {
    if s == {} then []
    else
      var m := Min(s);
      var rest := Ascending(s - {m});
      LeastFirst(m, rest);
      [m] + rest
  }

  function Reverse(s: seq<int>): (r: seq<int>)
    ensures |r| == |s|
    ensures forall i :: 0 <= i < |s| ==> r[i] == s[|s| - 1 - i]
    ensures forall x :: x in r <==> x in s
  {
    if s == [] then [] else Reverse(s[1..]) + [s[0]]
  }

  /** std::map with std::greater: largest key first. */
  function Descending(s: set<int>): (keys: seq<int>)
    ensures |keys| == |s|
    ensures forall k :: k in keys <==> k in s
    ensures forall i, j :: 0 <= i < j < |keys| ==> keys[i] > keys[j]
  {
    Reverse(Ascending(s))
  }
}
