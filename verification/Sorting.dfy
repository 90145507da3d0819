/** Go's `sort.SliceStable` as a function: the stable sort of a list by a "comes before" relation. */
module Sorting {
  function Insert<T>(x: T, s: seq<T>, before: (T, T) -> bool): seq<T> {
    if s == [] || !before(s[0], x) then [x] + s else [s[0]] + Insert(x, s[1..], before)
  }

  function Sorted<T>(s: seq<T>, before: (T, T) -> bool): seq<T> {
    if s == [] then [] else Insert(s[0], Sorted(s[1..], before), before)
  }

  /** Not coming before is transitive, and nothing comes before what comes before it. */
  ghost predicate WeakOrder<T(!new)>(before: (T, T) -> bool) {
    && (forall a, b, c :: !before(b, a) && !before(c, b) ==> !before(c, a))
    && (forall a, b :: before(a, b) ==> !before(b, a))
  }

  ghost predicate Ordered<T>(s: seq<T>, before: (T, T) -> bool) {
    forall i, j | 0 <= i < j < |s| :: !before(s[j], s[i])
  }

  lemma {:induction false} InsertKeeps<T>(x: T, s: seq<T>, before: (T, T) -> bool)
    ensures multiset(Insert(x, s, before)) == multiset(s) + multiset{x} && |Insert(x, s, before)| == |s| + 1
    decreases |s|
  {
    if !(s == [] || !before(s[0], x)) {
      InsertKeeps(x, s[1..], before);
      assert s == [s[0]] + s[1..];
    }
  }

  lemma {:induction false} SortedKeeps<T>(s: seq<T>, before: (T, T) -> bool)
    ensures multiset(Sorted(s, before)) == multiset(s) && |Sorted(s, before)| == |s|
    decreases |s|
  {
    if s != [] {
      SortedKeeps(s[1..], before);
      InsertKeeps(s[0], Sorted(s[1..], before), before);
      assert s == [s[0]] + s[1..];
    }
  }

  lemma SortedMembers<T(!new)>(s: seq<T>, before: (T, T) -> bool)
    ensures forall x :: x in Sorted(s, before) <==> x in s
  {
    hide Sorted;
    SortedKeeps(s, before);
    assert forall x :: x in Sorted(s, before) <==> x in multiset(Sorted(s, before));
    assert forall x :: x in s <==> x in multiset(s);
  }

  lemma {:induction false} InsertOrders<T(!new)>(x: T, s: seq<T>, before: (T, T) -> bool)
    requires WeakOrder(before) && Ordered(s, before)
    ensures Ordered(Insert(x, s, before), before)
    decreases |s|
  {
    var r := Insert(x, s, before);
    if s == [] {
    } else if before(s[0], x) {
      InsertOrders(x, s[1..], before);
      var rest := Insert(x, s[1..], before);
      InsertKeeps(x, s[1..], before);
      forall j | 0 <= j < |rest|
        ensures !before(rest[j], s[0])
      {
        assert rest[j] in multiset(rest);
        if rest[j] != x {
          assert rest[j] in s[1..];
        }
      }
      assert forall j | 0 < j < |r| :: r[j] == rest[j - 1];
    } else {
      forall j | 0 <= j < |s|
        ensures !before(s[j], x)
      {
        assert j > 0 ==> !before(s[j], s[0]);
      }
    }
  }

  lemma {:induction false} SortedOrders<T(!new)>(s: seq<T>, before: (T, T) -> bool)
    requires WeakOrder(before)
    ensures Ordered(Sorted(s, before), before)
    decreases |s|
  {
    hide WeakOrder;
    if s != [] {
      SortedOrders(s[1..], before);
      InsertOrders(s[0], Sorted(s[1..], before), before);
    }
  }
}
