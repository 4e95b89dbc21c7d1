/**
 * A stable insertion sort over any strict weak order, shared by the task
 * ranking and the product listing.  `ahead(a, b)` means that `a` must come
 * strictly before `b`; elements that are not ahead of one another keep
 * their input order.
 */
module Sorting {

  /** Irreflexive, transitive, and "not ahead" is transitive too. */
  ghost predicate StrictWeakOrder<T(!new)>(ahead: (T, T) -> bool) {
    && (forall a :: !ahead(a, a))
    && (forall a, b, c :: ahead(a, b) && ahead(b, c) ==> ahead(a, c))
    && (forall a, b, c :: ahead(a, c) ==> ahead(a, b) || ahead(b, c))
  }

  /** No element is ahead of an element placed before it. */
  ghost predicate Ordered<T>(s: seq<T>, ahead: (T, T) -> bool) {
    forall i, j :: 0 <= i < j < |s| ==> !ahead(s[j], s[i])
  }

  /** Inserts `x` in front of the first element that is not ahead of it. */
  function Insert<T(!new)>(x: T, s: seq<T>, ahead: (T, T) -> bool): (r: seq<T>)
    requires StrictWeakOrder(ahead) && Ordered(s, ahead)
    ensures |r| == |s| + 1
    ensures Ordered(r, ahead)
    ensures multiset(r) == multiset(s) + multiset{x}
    ensures r[0] == x || (s != [] && r[0] == s[0])
  {
    if s == [] || !ahead(s[0], x) then [x] + s
    else
      var rest := Insert(x, s[1..], ahead);
      assert s == [s[0]] + s[1..];
      [s[0]] + rest
  }

  /** The elements of `s`, ordered by `ahead`, ties in input order. */
  function Sort<T(!new)>(s: seq<T>, ahead: (T, T) -> bool): (r: seq<T>)
    requires StrictWeakOrder(ahead)
    ensures |r| == |s|
    ensures Ordered(r, ahead)
    ensures multiset(r) == multiset(s)
  {
    if s == [] then []
    else
      assert s == [s[0]] + s[1..];
      Insert(s[0], Sort(s[1..], ahead), ahead)
  }

  lemma InsertInFront<T(!new)>(x: T, s: seq<T>, ahead: (T, T) -> bool)
    requires StrictWeakOrder(ahead) && Ordered(s, ahead)
    requires s == [] || !ahead(s[0], x)
    ensures Insert(x, s, ahead) == [x] + s
  {
  }

  lemma InsertBehind<T(!new)>(x: T, s: seq<T>, ahead: (T, T) -> bool)
    requires StrictWeakOrder(ahead) && Ordered(s, ahead)
    requires s != [] && ahead(s[0], x)
    ensures Insert(x, s, ahead) == [s[0]] + Insert(x, s[1..], ahead)
  {
  }

  lemma OrderedTail<T>(s: seq<T>, ahead: (T, T) -> bool)
    requires s != [] && Ordered(s, ahead)
    ensures Ordered(s[1..], ahead)
  {
    var tail := s[1..];
    forall i, j | 0 <= i < j < |tail| ensures !ahead(tail[j], tail[i]) {
      assert tail[j] == s[j + 1] && tail[i] == s[i + 1];
    }
  }

  lemma SplitAfterHead<T>(x: T, s: seq<T>, k: nat)
    requires 0 < k <= |s|
    ensures s[..k] + [x] + s[k..] == [s[0]] + (s[1..][..k - 1] + [x] + s[1..][k - 1..])
  {
    assert s[..k] == [s[0]] + s[1..][..k - 1];
    assert s[k..] == s[1..][k - 1..];
  }

  /** `x` lands right after the `k` leading elements that are ahead of it. */
  lemma {:induction false} InsertAt<T(!new)>(x: T, s: seq<T>, ahead: (T, T) -> bool, k: nat)
    requires StrictWeakOrder(ahead) && Ordered(s, ahead) && k <= |s|
    requires forall i :: 0 <= i < k ==> ahead(s[i], x)
    requires k == |s| || !ahead(s[k], x)
    ensures Insert(x, s, ahead) == s[..k] + [x] + s[k..]
  {
    if k == 0 {
      InsertInFront(x, s, ahead);
      assert s[..0] + [x] + s[0..] == [x] + s;
    } else {
      var tail := s[1..];
      OrderedTail(s, ahead);
      assert forall i :: 0 <= i < k - 1 ==> ahead(tail[i], x) by {
        forall i | 0 <= i < k - 1 ensures ahead(tail[i], x) {
          assert tail[i] == s[i + 1];
        }
      }
      assert k - 1 == |tail| || tail[k - 1] == s[k];
      InsertBehind(x, s, ahead);
      InsertAt(x, tail, ahead, k - 1);
      SplitAfterHead(x, s, k);
    }
  }

  lemma SortCons<T(!new)>(x: T, s: seq<T>, ahead: (T, T) -> bool)
    requires StrictWeakOrder(ahead)
    ensures Sort([x] + s, ahead) == Insert(x, Sort(s, ahead), ahead)
  {
    assert ([x] + s)[1..] == s;
  }

  /** The elements of `s` that are tied with `p` (neither is ahead of the other), in order. */
  ghost function Tied<T>(s: seq<T>, p: T, ahead: (T, T) -> bool): seq<T> {
    if s == [] then []
    else (if !ahead(s[0], p) && !ahead(p, s[0]) then [s[0]] else []) + Tied(s[1..], p, ahead)
  }

  lemma {:induction false} InsertTied<T(!new)>(x: T, s: seq<T>, p: T, ahead: (T, T) -> bool)
    requires StrictWeakOrder(ahead) && Ordered(s, ahead)
    ensures Tied(Insert(x, s, ahead), p, ahead)
         == (if !ahead(x, p) && !ahead(p, x) then [x] else []) + Tied(s, p, ahead)
  {
    if s == [] || !ahead(s[0], x) {
      assert Insert(x, s, ahead) == [x] + s;
      TiedCons(x, s, p, ahead);
    } else {
      var rest := Insert(x, s[1..], ahead);
      assert Insert(x, s, ahead) == [s[0]] + rest;
      InsertTied(x, s[1..], p, ahead);
      AheadOfTied(s[0], x, p, ahead);
      TiedCons(s[0], rest, p, ahead);
      assert s == [s[0]] + s[1..];
      TiedCons(s[0], s[1..], p, ahead);
      TiedSwap(if !ahead(s[0], p) && !ahead(p, s[0]) then [s[0]] else [],
               if !ahead(x, p) && !ahead(p, x) then [x] else [], Tied(s[1..], p, ahead));
    }
  }

  lemma TiedCons<T>(a: T, r: seq<T>, p: T, ahead: (T, T) -> bool)
    ensures Tied([a] + r, p, ahead) == (if !ahead(a, p) && !ahead(p, a) then [a] else []) + Tied(r, p, ahead)
  {
    assert ([a] + r)[1..] == r;
  }

  /** Two pieces of which at least one is empty can be swapped. */
  lemma TiedSwap<T>(a: seq<T>, x: seq<T>, t: seq<T>)
    requires a == [] || x == []
    ensures a + (x + t) == x + (a + t)
  {
    if a == [] {
      assert a + (x + t) == x + t == x + (a + t);
    } else {
      assert a + (x + t) == a + t == x + (a + t);
    }
  }

  /** Whatever is ahead of `x` is not tied with anything tied with `x`. */
  lemma AheadOfTied<T(!new)>(a: T, x: T, p: T, ahead: (T, T) -> bool)
    requires StrictWeakOrder(ahead) && ahead(a, x)
    ensures !ahead(x, p) && !ahead(p, x) ==> ahead(a, p) || ahead(p, a)
  {
    assert ahead(a, p) || ahead(p, x);
  }

  /** Stability: the elements tied with any `p` come out in the order they went in. */
  lemma {:induction false} SortIsStable<T(!new)>(s: seq<T>, p: T, ahead: (T, T) -> bool)
    requires StrictWeakOrder(ahead)
    ensures Tied(Sort(s, ahead), p, ahead) == Tied(s, p, ahead)
  {
    if s != [] {
      SortIsStable(s[1..], p, ahead);
      InsertTied(s[0], Sort(s[1..], ahead), p, ahead);
    }
  }

  // ---------------------------------------------------------------------------
  // Sorting by an integer key, highest key first

  /** `a` goes ahead of `b` when its key is strictly larger. */
  function ByKey<T>(key: T -> int): (T, T) -> bool {
    (a: T, b: T) => key(a) > key(b)
  }

  lemma ByKeyIsStrictWeakOrder<T(!new)>(key: T -> int)
    ensures StrictWeakOrder(ByKey(key))
  {
  }

  /** Keys never increase along `s`. */
  ghost predicate Descending<T>(s: seq<T>, key: T -> int) {
    forall i, j :: 0 <= i < j < |s| ==> key(s[i]) >= key(s[j])
  }

  /** The elements of `s`, highest key first, equal keys in input order. */
  function SortByKey<T(!new)>(s: seq<T>, key: T -> int): (r: seq<T>)
    ensures |r| == |s|
    ensures multiset(r) == multiset(s)
    ensures Descending(r, key)
  {
    ByKeyIsStrictWeakOrder(key);
    var r := Sort(s, ByKey(key));
    assert Ordered(r, ByKey(key));
    r
  }

  /** One insertion step of SortByKey, with the ordering axioms left out of the caller's view. */
  lemma SortByKeyStep<T(!new)>(x: T, s: seq<T>, sorted: seq<T>, key: T -> int, k: nat)
    requires SortByKey(s, key) == sorted && k <= |sorted|
    requires forall i :: 0 <= i < k ==> key(sorted[i]) > key(x)
    requires k == |sorted| || key(sorted[k]) <= key(x)
    ensures SortByKey([x] + s, key) == sorted[..k] + [x] + sorted[k..]
  {
    ByKeyIsStrictWeakOrder(key);
    SortCons(x, s, ByKey(key));
    InsertAt(x, sorted, ByKey(key), k);
  }

  /** The elements of `s` whose key is exactly `k`, in order. */
  ghost function WithKey<T>(s: seq<T>, k: int, key: T -> int): seq<T> {
    if s == [] then []
    else (if key(s[0]) == k then [s[0]] else []) + WithKey(s[1..], k, key)
  }

  lemma {:induction false} WithKeyIsTied<T>(s: seq<T>, p: T, key: T -> int)
    ensures WithKey(s, key(p), key) == Tied(s, p, ByKey(key))
  {
    if s != [] {
      WithKeyIsTied(s[1..], p, key);
    }
  }

  /** Stability: the elements with any one key come out in the order they went in. */
  lemma SortByKeyIsStable<T(!new)>(s: seq<T>, k: int, key: T -> int)
    ensures WithKey(SortByKey(s, key), k, key) == WithKey(s, k, key)
  {
    var r := SortByKey(s, key);
    if x :| x in s && key(x) == k {
      ByKeyIsStrictWeakOrder(key);
      SortIsStable(s, x, ByKey(key));
      WithKeyIsTied(s, x, key);
      WithKeyIsTied(r, x, key);
    } else {
      NoneWithKey(s, k, key);
      forall x | x in r ensures key(x) != k {
        assert x in multiset(r);
      }
      NoneWithKey(r, k, key);
    }
  }

  lemma {:induction false} NoneWithKey<T>(s: seq<T>, k: int, key: T -> int)
    requires forall x :: x in s ==> key(x) != k
    ensures WithKey(s, k, key) == []
  {
    if s != [] {
      assert forall x :: x in s[1..] ==> x in s;
      NoneWithKey(s[1..], k, key);
    }
  }

  /** The number of elements of `s` whose key is strictly above `k`. */
  function CountAbove<T>(s: seq<T>, k: int, key: T -> int): (n: nat)
    ensures n <= |s|
  {
    if s == [] then 0 else (if key(s[0]) > k then 1 else 0) + CountAbove(s[1..], k, key)
  }

  lemma CountAboveCons<T>(x: T, s: seq<T>, k: int, key: T -> int)
    ensures CountAbove([x] + s, k, key) == (if key(x) > k then 1 else 0) + CountAbove(s, k, key)
  {
    assert ([x] + s)[1..] == s;
  }

  lemma {:induction false} CountAboveInsert<T(!new)>(x: T, s: seq<T>, k: int, key: T -> int)
    requires StrictWeakOrder(ByKey(key)) && Ordered(s, ByKey(key))
    ensures CountAbove(Insert(x, s, ByKey(key)), k, key) == CountAbove(s, k, key) + (if key(x) > k then 1 else 0)
  {
    var r := Insert(x, s, ByKey(key));
    if s == [] || !ByKey(key)(s[0], x) {
      assert r == [x] + s;
      CountAboveCons(x, s, k, key);
    } else {
      OrderedTail(s, ByKey(key));
      CountAboveInsert(x, s[1..], k, key);
      InsertBehind(x, s, ByKey(key));
      CountAboveCons(s[0], Insert(x, s[1..], ByKey(key)), k, key);
      CountAboveCons(s[0], s[1..], k, key);
      assert [s[0]] + s[1..] == s;
    }
  }

  /** Sorting keeps the number of elements above any key. */
  lemma {:induction false} CountAboveSortByKey<T(!new)>(s: seq<T>, k: int, key: T -> int)
    ensures CountAbove(SortByKey(s, key), k, key) == CountAbove(s, k, key)
  {
    ByKeyIsStrictWeakOrder(key);
    if s != [] {
      CountAboveSortByKey(s[1..], k, key);
      SortCons(s[0], s[1..], ByKey(key));
      assert [s[0]] + s[1..] == s;
      CountAboveInsert(s[0], Sort(s[1..], ByKey(key)), k, key);
      CountAboveCons(s[0], s[1..], k, key);
    }
  }

  /** In a descending list the elements above `k` are exactly its first CountAbove ones. */
  lemma {:induction false} DescendingSplitsAt<T>(r: seq<T>, k: int, key: T -> int)
    requires Descending(r, key)
    ensures forall j :: 0 <= j < |r| ==> (key(r[j]) > k <==> j < CountAbove(r, k, key))
  {
    if r != [] {
      var tail := r[1..];
      assert Descending(tail, key) by {
        forall i, j | 0 <= i < j < |tail| ensures key(tail[i]) >= key(tail[j]) {
          assert tail[i] == r[i + 1] && tail[j] == r[j + 1];
        }
      }
      DescendingSplitsAt(tail, k, key);
      forall j | 0 < j < |r| ensures r[j] == tail[j - 1] { }
    }
  }

  /**
   * The place of an element in the sorted list: position `j` holds an element
   * whose key is above `k` exactly when `j` is below the number of input
   * elements whose key is above `k`.
   */
  lemma SortByKeyPosition<T(!new)>(s: seq<T>, k: int, key: T -> int)
    ensures var r := SortByKey(s, key);
            forall j :: 0 <= j < |r| ==> (key(r[j]) > k <==> j < CountAbove(s, k, key))
  {
    CountAboveSortByKey(s, k, key);
    DescendingSplitsAt(SortByKey(s, key), k, key);
  }

  lemma {:induction false} CountAboveAntitone<T>(s: seq<T>, k1: int, k2: int, key: T -> int)
    requires k1 <= k2
    ensures CountAbove(s, k1, key) >= CountAbove(s, k2, key)
  {
    if s != [] {
      CountAboveAntitone(s[1..], k1, k2, key);
    }
  }

  /** An element with key `k` adds one to the count above `k - 1` that the count above `k` lacks. */
  lemma {:induction false} KeyPresent<T>(s: seq<T>, x: T, key: T -> int)
    requires x in s
    ensures CountAbove(s, key(x) - 1, key) >= CountAbove(s, key(x), key) + 1
  {
    CountAboveAntitone(s[1..], key(x) - 1, key(x), key);
    if s[0] != x {
      KeyPresent(s[1..], x, key);
    }
  }

  /** Two different elements with key `k` add two. */
  lemma {:induction false} KeyShared<T>(s: seq<T>, x: T, y: T, key: T -> int)
    requires x in s && y in s && x != y && key(x) == key(y)
    ensures CountAbove(s, key(x) - 1, key) >= CountAbove(s, key(x), key) + 2
  {
    if s[0] == x {
      KeyPresent(s[1..], y, key);
    } else if s[0] == y {
      KeyPresent(s[1..], x, key);
    } else {
      KeyShared(s[1..], x, y, key);
    }
  }

  /** The element at position CountAbove(s, k) of the sorted list has key exactly `k` when some element does. */
  lemma KeyAtCount<T(!new)>(s: seq<T>, k: int, key: T -> int)
    requires CountAbove(s, k - 1, key) > CountAbove(s, k, key)
    ensures CountAbove(s, k, key) < |s|
    ensures key(SortByKey(s, key)[CountAbove(s, k, key)]) == k
  {
    SortByKeyPosition(s, k, key);
    SortByKeyPosition(s, k - 1, key);
  }

  /**
   * An element whose key no other element shares lands at the position given
   * by the number of elements with a larger key.  The key is unshared exactly
   * when one element lies between the counts above `key(x) - 1` and `key(x)`.
   */
  lemma SortByKeyPlace<T(!new)>(s: seq<T>, x: T, key: T -> int)
    requires x in s
    requires CountAbove(s, key(x) - 1, key) == CountAbove(s, key(x), key) + 1
    ensures CountAbove(s, key(x), key) < |s|
    ensures SortByKey(s, key)[CountAbove(s, key(x), key)] == x
  {
    KeyAtCount(s, key(x), key);
    var r, i := SortByKey(s, key), CountAbove(s, key(x), key);
    var y := r[i];
    assert y in multiset(r);
    assert y in s;
    assert key(y) == key(x);
    OnlyHolder(s, x, y, key);
  }

  /** When the counts differ by one, `x` is the only element with its key. */
  lemma OnlyHolder<T>(s: seq<T>, x: T, y: T, key: T -> int)
    requires x in s && y in s && key(y) == key(x)
    requires CountAbove(s, key(x) - 1, key) == CountAbove(s, key(x), key) + 1
    ensures y == x
  {
    if y != x {
      KeyShared(s, x, y, key);
      assert false;
    }
  }
}
