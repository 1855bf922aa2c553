/** The list and string operations the routes use on stored records. */
module Lists {
  import opened Wrappers

  /** No element occurs twice. */
  predicate NoDup<T(==)>(s: seq<T>)
  {
    forall i, j :: 0 <= i < j < |s| ==> s[i] != s[j]
  }

  /** Number of occurrences of `x` in `s`. */
  function Count<T(==)>(s: seq<T>, x: T): nat
  {
    if s == [] then 0 else (if s[0] == x then 1 else 0) + Count(s[1..], x)
  }

  lemma {:induction false} CountUnique<T>(s: seq<T>, x: T)
    requires NoDup(s)
    ensures Count(s, x) == if x in s then 1 else 0
  {
    if s != [] {
      CountUnique(s[1..], x);
      if s[0] == x {
        assert x !in s[1..];
      }
    }
  }

  /** A duplicate-free list holds each element at most once. */
  lemma {:induction false} NoDupMultiset<T>(s: seq<T>, x: T)
    requires NoDup(s)
    ensures multiset(s)[x] <= 1
  {
    if s != [] {
      assert s == [s[0]] + s[1..];
      NoDupMultiset(s[1..], x);
      if s[0] == x {
        assert x !in s[1..];
      }
    }
  }

  /** A sub-multiset of a duplicate-free list is duplicate-free. */
  lemma SubNoDup<T>(s: seq<T>, t: seq<T>)
    requires NoDup(t) && multiset(s) <= multiset(t)
    ensures NoDup(s)
  {
    forall i, j | 0 <= i < j < |s| ensures s[i] != s[j] {
      NoDupMultiset(t, s[i]);
      assert s == s[..i] + [s[i]] + s[i + 1..j] + [s[j]] + s[j + 1..];
    }
  }

  /** `if x not in s: s.append(x)`: the guarded append the routes use for every edge list. */
  function AppendIfAbsent<T(==,!new)>(s: seq<T>, x: T): (r: seq<T>)
    ensures x in r
    ensures |s| <= |r| <= |s| + 1 && r[..|s|] == s
    ensures forall y :: y in r <==> y in s || y == x
    ensures NoDup(s) ==> NoDup(r)
  {
    if x in s then s else s + [x]
  }

  /** `if x in s: s.remove(x)`: Python's `remove` drops the first occurrence only. */
  function RemoveFirst<T(==)>(s: seq<T>, x: T): (r: seq<T>)
    ensures x !in s ==> r == s
    ensures x in s ==> |r| == |s| - 1
  {
    if s == [] then []
    else if s[0] == x then s[1..]
    else [s[0]] + RemoveFirst(s[1..], x)
  }

  lemma {:induction false} RemoveFirstMultiset<T>(s: seq<T>, x: T)
    ensures multiset(RemoveFirst(s, x)) == multiset(s) - multiset{x}
  {
    if s != [] {
      assert multiset(s) == multiset{s[0]} + multiset(s[1..]) by {
        assert s == [s[0]] + s[1..];
      }
      if s[0] != x {
        RemoveFirstMultiset(s[1..], x);
        assert multiset(RemoveFirst(s, x)) == multiset{s[0]} + multiset(RemoveFirst(s[1..], x));
      }
    }
  }

  lemma {:induction false} RemoveFirstMembers<T>(s: seq<T>, x: T)
    ensures multiset(RemoveFirst(s, x)) == multiset(s) - multiset{x}
    ensures forall y :: y != x ==> (y in RemoveFirst(s, x) <==> y in s)
    ensures NoDup(s) ==> NoDup(RemoveFirst(s, x)) && x !in RemoveFirst(s, x)
  {
    RemoveFirstMultiset(s, x);
    var r := RemoveFirst(s, x);
    forall y | y != x ensures y in r <==> y in s {
      assert y in r <==> y in multiset(r);
      assert y in s <==> y in multiset(s);
    }
    if NoDup(s) {
      RemoveFirstNoDup(s, x);
    }
  }

  lemma {:induction false} RemoveFirstNoDup<T>(s: seq<T>, x: T)
    requires NoDup(s)
    ensures NoDup(RemoveFirst(s, x)) && x !in RemoveFirst(s, x)
  {
    if s != [] {
      RemoveFirstNoDup(s[1..], x);
      RemoveFirstMultiset(s[1..], x);
      if s[0] != x {
        assert s[0] !in s[1..];
        assert s[0] !in multiset(s[1..]);
        assert s[0] !in RemoveFirst(s[1..], x) by {
          assert s[0] !in multiset(RemoveFirst(s[1..], x));
        }
      } else {
        assert x !in s[1..];
      }
    }
  }

  /** Appending an absent element and removing it again gives back the list. */
  lemma {:induction false} RemoveFirstAppended<T>(s: seq<T>, x: T)
    requires x !in s
    ensures RemoveFirst(s + [x], x) == s
  {
    if s != [] {
      assert (s + [x])[1..] == s[1..] + [x];
      RemoveFirstAppended(s[1..], x);
    }
  }

  /** Index of the first element satisfying `p`: `next((x for x in s if p(x)), None)`. */
  function FindFirst<T>(s: seq<T>, p: T -> bool): (r: Option<nat>)
    ensures r.Some? ==> r.value < |s| && p(s[r.value])
    ensures r.Some? ==> forall j :: 0 <= j < r.value ==> !p(s[j])
    ensures r.None? <==> forall j :: 0 <= j < |s| ==> !p(s[j])
  {
    if s == [] then None
    else if p(s[0]) then Some(0)
    else match FindFirst(s[1..], p)
      case None => assert forall j :: 1 <= j < |s| ==> s[j] == s[1..][j - 1]; None
      case Some(k) => Some(k + 1)
  }

  /** `max(ids, default=0)`. */
  function MaxOrZero(ids: seq<int>): (m: int)
    ensures forall i :: 0 <= i < |ids| ==> ids[i] <= m
    ensures ids == [] ==> m == 0
    ensures ids != [] ==> m in ids
  {
    if ids == [] then 0
    else if |ids| == 1 then ids[0]
    else
      var rest := MaxOrZero(ids[1..]);
      if ids[0] >= rest then ids[0] else rest
  }

  /** `max([r["id"] for r in table], default=0) + 1`: the id every create route allocates. */
  function NextId(ids: seq<int>): (n: int)
    ensures forall i :: 0 <= i < |ids| ==> ids[i] < n
    ensures ids == [] ==> n == 1
    ensures ids != [] ==> n - 1 in ids
  {
    MaxOrZero(ids) + 1
  }

  /** `if x not in s: s.append(x)` when adding, `if x in s: s.remove(x)` when removing. */
  function AddOrRemove<T(==,!new)>(s: seq<T>, x: T, add: bool): (r: seq<T>)
    ensures add ==> x in r && |r| == |s| + (if x in s then 0 else 1)
    ensures !add ==> |r| == |s| - (if x in s then 1 else 0)
    ensures forall y :: y != x ==> (y in r <==> y in s)
    ensures NoDup(s) ==> NoDup(r) && (!add ==> x !in r)
  {
    RemoveFirstMembers(s, x);
    if add then AppendIfAbsent(s, x) else if x in s then RemoveFirst(s, x) else s
  }

  /** Adding an absent element and removing it again gives back the list. */
  lemma AddThenRemove<T(!new)>(s: seq<T>, x: T)
    requires x !in s
    ensures AddOrRemove(AddOrRemove(s, x, true), x, false) == s
  {
    RemoveFirstAppended(s, x);
  }

  /** The elements of a duplicate-free list are as many as its length. */
  lemma {:induction false} NoDupCard<T>(s: seq<T>)
    requires NoDup(s)
    ensures |set x | x in s| == |s|
  {
    if s != [] {
      NoDupCard(s[1..]);
      assert (set x | x in s) == {s[0]} + (set x | x in s[1..]);
      assert s[0] !in s[1..] by {
        forall j | 1 <= j < |s| ensures s[j] != s[0] {}
      }
    }
  }

  /** Elements of `s` satisfying `p`, in their original order (a list comprehension with a filter). */
  function Filter<T(!new)>(s: seq<T>, p: T -> bool): (r: seq<T>)
    ensures |r| <= |s|
    ensures forall x :: x in r <==> x in s && p(x)
  {
    if s == [] then []
    else
      assert s == [s[0]] + s[1..];
      if p(s[0]) then [s[0]] + Filter(s[1..], p)
      else Filter(s[1..], p)
  }

  lemma {:induction false} FilterCount<T(!new)>(s: seq<T>, p: T -> bool, x: T)
    ensures multiset(Filter(s, p))[x] == if p(x) then multiset(s)[x] else 0
  {
    if s != [] {
      FilterCount(s[1..], p, x);
      assert s == [s[0]] + s[1..];
    }
  }

  lemma {:induction false} FilterSnoc<T(!new)>(s: seq<T>, x: T, p: T -> bool)
    ensures Filter(s + [x], p) == Filter(s, p) + (if p(x) then [x] else [])
  {
    if s == [] {
      assert s + [x] == [x];
    } else {
      var t := s + [x];
      assert t[0] == s[0];
      assert t[1..] == s[1..] + [x];
      FilterSnoc(s[1..], x, p);
    }
  }

  lemma {:induction false} FilterAll<T(!new)>(s: seq<T>, p: T -> bool)
    requires forall i :: 0 <= i < |s| ==> p(s[i])
    ensures Filter(s, p) == s
  {
    if s != [] {
      FilterAll(s[1..], p);
      assert s == [s[0]] + s[1..];
    }
  }

  /** Filters with pointwise equal predicates agree. */
  lemma {:induction false} FilterExt<T(!new)>(s: seq<T>, p: T -> bool, q: T -> bool)
    requires forall x :: p(x) == q(x)
    ensures Filter(s, p) == Filter(s, q)
  {
    if s != [] {
      FilterExt(s[1..], p, q);
    }
  }

  /** Two successive filters are one filter by the conjunction. */
  lemma {:induction false} FilterFilter<T(!new)>(s: seq<T>, p: T -> bool, q: T -> bool, pq: T -> bool)
    requires forall x :: pq(x) == (p(x) && q(x))
    ensures Filter(Filter(s, p), q) == Filter(s, pq)
  {
    if s != [] {
      FilterFilter(s[1..], p, q, pq);
    }
  }

  /** A filter applied only under a condition `b` is a filter by `b ==> p`. */
  lemma FilterIf<T(!new)>(s: seq<T>, b: bool, p: T -> bool, bp: T -> bool)
    requires forall x :: bp(x) == (b ==> p(x))
    ensures (if b then Filter(s, p) else s) == Filter(s, bp)
  {
    if b {
      FilterExt(s, p, bp);
    } else {
      FilterAll(s, bp);
    }
  }

  /** A three-way `if`/`elif` choice of filters is one filter. */
  lemma FilterIf2<T(!new)>(s: seq<T>, b1: bool, p1: T -> bool, b2: bool, p2: T -> bool, c: T -> bool)
    requires !(b1 && b2)
    requires forall x :: c(x) == ((b1 ==> p1(x)) && (b2 ==> p2(x)))
    ensures (if b1 then Filter(s, p1) else if b2 then Filter(s, p2) else s) == Filter(s, c)
  {
    if b1 {
      FilterExt(s, p1, c);
    } else if b2 {
      FilterExt(s, p2, c);
    } else {
      FilterAll(s, c);
    }
  }

  /** `[f(x) for x in s]`. */
  function Map<T, U>(s: seq<T>, f: T -> U): (r: seq<U>)
    ensures |r| == |s|
    ensures forall i :: 0 <= i < |s| ==> r[i] == f(s[i])
  {
    seq(|s|, i requires 0 <= i < |s| => f(s[i]))
  }

  lemma MapSnoc<T, U>(s: seq<T>, x: T, f: T -> U)
    ensures Map(s + [x], f) == Map(s, f) + [f(x)]
  {
  }

  /** Keys are non-increasing along `s`. */
  predicate SortedDesc<T>(s: seq<T>, key: T -> int)
  {
    forall i, j :: 0 <= i < j < |s| ==> key(s[i]) >= key(s[j])
  }

  /** Inserts `x` in front of the first element whose key is not larger: keeps a
      descending list descending and keeps equal keys in arrival order. */
  function Insert<T>(x: T, s: seq<T>, key: T -> int): (r: seq<T>)
    requires SortedDesc(s, key)
    ensures SortedDesc(r, key)
    ensures multiset(r) == multiset(s) + multiset{x}
    ensures |r| == |s| + 1
    ensures r[0] == x || (s != [] && r[0] == s[0])
  {
    if s == [] then [x]
    else if key(x) >= key(s[0]) then
      ConsSorted(x, s, key);
      [x] + s
    else
      var rest := Insert(x, s[1..], key);
      ConsSorted(s[0], rest, key);
      assert multiset(s) == multiset{s[0]} + multiset(s[1..]) by {
        assert s == [s[0]] + s[1..];
      }
      [s[0]] + rest
  }

  /** A head no smaller than the head of a descending list keeps it descending. */
  lemma ConsSorted<T>(a: T, s: seq<T>, key: T -> int)
    requires SortedDesc(s, key) && (s != [] ==> key(s[0]) <= key(a))
    ensures SortedDesc([a] + s, key)
  {
  }

  /** `sorted(s, key=key, reverse=True)` on integer keys (an insertion sort). */
  function SortDesc<T>(s: seq<T>, key: T -> int): (r: seq<T>)
    ensures SortedDesc(r, key)
    ensures multiset(r) == multiset(s)
    ensures |r| == |s|
  {
    if s == [] then []
    else
      assert s == [s[0]] + s[1..];
      Insert(s[0], SortDesc(s[1..], key), key)
  }

  /** Sorting keeps exactly the elements it was given. */
  lemma SortedMembers<T>(s: seq<T>, key: T -> int)
    ensures forall x :: x in SortDesc(s, key) <==> x in s
  {
    var r := SortDesc(s, key);
    forall x ensures x in r <==> x in s {
      assert x in r <==> x in multiset(r);
      assert x in s <==> x in multiset(s);
    }
  }

  /** `s[:k]`. */
  function Take<T>(s: seq<T>, k: nat): (r: seq<T>)
    ensures |r| == if |s| <= k then |s| else k
    ensures forall i :: 0 <= i < |r| ==> r[i] == s[i]
  {
    if |s| <= k then s else s[..k]
  }

  /** The first `k` of a sorted copy come from the original list. */
  lemma TopMembers<T>(s: seq<T>, key: T -> int, k: nat)
    ensures forall i :: 0 <= i < |Take(SortDesc(s, key), k)| ==> Take(SortDesc(s, key), k)[i] in s
  {
    var ranked := SortDesc(s, key);
    forall i | 0 <= i < |Take(ranked, k)| ensures Take(ranked, k)[i] in s {
      assert ranked[i] in multiset(ranked);
    }
  }

  /** Mapping a list drawn from `s` gives a list drawn from the mapped `s`. */
  lemma MapMembers<T, U>(s: seq<T>, t: seq<T>, f: T -> U)
    requires forall i :: 0 <= i < |t| ==> t[i] in s
    ensures forall i :: 0 <= i < |t| ==> Map(t, f)[i] in Map(s, f)
  {
    forall i | 0 <= i < |t| ensures Map(t, f)[i] in Map(s, f) {
      var j :| 0 <= j < |s| && s[j] == t[i];
      assert Map(s, f)[j] == f(t[i]);
    }
  }

  /** A map that keeps every key keeps a descending list descending. */
  lemma MapKeepsSorted<T, U>(s: seq<T>, f: T -> U, key: T -> int, key': U -> int)
    requires SortedDesc(s, key)
    requires forall i :: 0 <= i < |s| ==> key'(f(s[i])) == key(s[i])
    ensures SortedDesc(Map(s, f), key')
  {
  }

  /** In a list sorted by descending key, an element outside the first `k` has a key no
      larger than any of them: taking the first `k` selects a top `k`. */
  lemma TopTake<T>(s: seq<T>, key: T -> int, k: nat, x: T)
    requires SortedDesc(s, key) && x in s && k > 0
    ensures x in Take(s, k) || (|Take(s, k)| == k && forall j :: 0 <= j < k ==> key(x) <= key(Take(s, k)[j]))
  {
    var i :| 0 <= i < |s| && s[i] == x;
    if i < k {
      assert Take(s, k)[i] == x;
    }
  }
  /** The same through a map that keeps the key: an element whose image is not listed has a
      key no larger than any listed image. */
  lemma TopTakeMapped<T, U>(s: seq<T>, key: T -> int, k: nat, f: T -> U, key': U -> int, x: T)
    requires x in s && k > 0
    requires forall y :: key'(f(y)) == key(y)
    ensures var r := Map(Take(SortDesc(s, key), k), f);
      f(x) in r || (|r| == k && forall i :: 0 <= i < |r| ==> key(x) <= key'(r[i]))
  {
    var ranked := SortDesc(s, key);
    assert x in multiset(ranked);
    TopTake(ranked, key, k, x);
    var top := Take(ranked, k);
    if x in top {
      var i :| 0 <= i < |top| && top[i] == x;
      assert Map(top, f)[i] == f(x);
    }
  }


  /** The elements whose key is `c`. */
  function KeyIs<T>(key: T -> int, c: int): T -> bool
  {
    (x: T) => key(x) == c
  }

  lemma {:induction false} FilterAppend<T(!new)>(s: seq<T>, t: seq<T>, p: T -> bool)
    ensures Filter(s + t, p) == Filter(s, p) + Filter(t, p)
  {
    if s == [] {
      assert s + t == t;
    } else {
      var u := s + t;
      assert u[0] == s[0];
      assert u[1..] == s[1..] + t;
      FilterAppend(s[1..], t, p);
    }
  }

  lemma FilterCons<T(!new)>(a: T, s: seq<T>, p: T -> bool)
    ensures Filter([a] + s, p) == (if p(a) then [a] else []) + Filter(s, p)
  {
    assert ([a] + s)[1..] == s;
  }

  /** Inserting `x` puts it ahead of every element with the same key, since it stops at the
      first element whose key is not larger. */
  lemma {:induction false} InsertTies<T(!new)>(x: T, s: seq<T>, key: T -> int, c: int)
    requires SortedDesc(s, key)
    ensures Filter(Insert(x, s, key), KeyIs(key, c))
         == (if key(x) == c then [x] else []) + Filter(s, KeyIs(key, c))
  {
    var p := KeyIs(key, c);
    if s == [] {
      FilterCons(x, [], p);
      assert [x] + [] == [x];
    } else if key(x) >= key(s[0]) {
      FilterCons(x, s, p);
    } else {
      InsertTies(x, s[1..], key, c);
      FilterCons(s[0], Insert(x, s[1..], key), p);
      FilterCons(s[0], s[1..], p);
      assert s == [s[0]] + s[1..];
    }
  }

  /** The sort is stable, as Python's `sorted` is: the elements sharing a key keep their
      original relative order. */
  lemma {:induction false} SortStable<T(!new)>(s: seq<T>, key: T -> int, c: int)
    ensures Filter(SortDesc(s, key), KeyIs(key, c)) == Filter(s, KeyIs(key, c))
  {
    if s != [] {
      SortStable(s[1..], key, c);
      InsertTies(s[0], SortDesc(s[1..], key), key, c);
    }
  }

  lemma {:induction false} MapAppend<T, U>(s: seq<T>, t: seq<T>, f: T -> U)
    ensures Map(s + t, f) == Map(s, f) + Map(t, f)
  {
  }

  /** Reordering a list reorders its image the same way. */
  lemma {:induction false} MapPerm<T, U>(s: seq<T>, t: seq<T>, f: T -> U)
    requires multiset(s) == multiset(t)
    ensures multiset(Map(s, f)) == multiset(Map(t, f))
  {
    if s == [] {
      assert |t| == |multiset(t)| == 0;
    } else {
      var x, rest := s[0], s[1..];
      assert s == [x] + rest;
      assert x in multiset(t);
      var i :| 0 <= i < |t| && t[i] == x;
      var t' := t[..i] + t[i + 1..];
      RemoveAt(t, i);
      assert multiset(s) == multiset(rest) + multiset{x};
      forall y ensures multiset(rest)[y] == multiset(t')[y] {
        assert multiset(s)[y] == multiset(rest)[y] + multiset{x}[y];
        assert multiset(t)[y] == multiset(t')[y] + multiset{x}[y];
      }
      MapPerm(rest, t', f);
      MapRemoveAt(t, i, f);
      MapAppend([x], rest, f);
      assert Map([x], f) == [f(x)];
    }
  }

  /** Taking out the element at `i` takes it out of the multiset. */
  lemma RemoveAt<T>(t: seq<T>, i: nat)
    requires i < |t|
    ensures multiset(t) == multiset(t[..i] + t[i + 1..]) + multiset{t[i]}
  {
    assert t == t[..i] + [t[i]] + t[i + 1..];
  }

  /** Taking out the element at `i` takes its image out of the mapped list. */
  lemma MapRemoveAt<T, U>(t: seq<T>, i: nat, f: T -> U)
    requires i < |t|
    ensures multiset(Map(t, f)) == multiset(Map(t[..i] + t[i + 1..], f)) + multiset{f(t[i])}
  {
    var a, b := t[..i], t[i + 1..];
    assert t == a + ([t[i]] + b);
    MapAppend(a, [t[i]] + b, f);
    MapAppend([t[i]], b, f);
    MapAppend(a, b, f);
    assert Map([t[i]], f) == [f(t[i])];
  }

  /** The first `k` of a sorted copy, mapped, are a sub-multiset of the mapped original. */
  lemma TopSub<T, U>(s: seq<T>, key: T -> int, k: nat, f: T -> U)
    ensures multiset(Map(Take(SortDesc(s, key), k), f)) <= multiset(Map(s, f))
  {
    var ranked := SortDesc(s, key);
    var top := Take(ranked, k);
    assert ranked == top + ranked[|top|..];
    MapAppend(top, ranked[|top|..], f);
    MapPerm(ranked, s, f);
  }

  /** The first `k` of a sorted copy are a sub-multiset of the original. */
  lemma TopSubPlain<T>(s: seq<T>, key: T -> int, k: nat)
    ensures multiset(Take(SortDesc(s, key), k)) <= multiset(s)
  {
    var ranked := SortDesc(s, key);
    assert ranked == Take(ranked, k) + ranked[|Take(ranked, k)|..];
  }

  /** Ties in the first `k` of a sorted copy: the listed elements with key `c` are the first
      few elements with key `c` of the original, in their original order. */
  lemma TopTiesPlain<T(!new)>(s: seq<T>, key: T -> int, k: nat, c: int)
    ensures Filter(Take(SortDesc(s, key), k), KeyIs(key, c)) <= Filter(s, KeyIs(key, c))
  {
    var ranked := SortDesc(s, key);
    var top := Take(ranked, k);
    assert ranked == top + ranked[|top|..];
    FilterAppend(top, ranked[|top|..], KeyIs(key, c));
    SortStable(s, key, c);
  }

  /** Keeping the elements that pass `q` commutes with a map that `q` sees through. */
  lemma {:induction false} FilterMap<T(!new), U(!new)>(s: seq<T>, f: T -> U, q: U -> bool, p: T -> bool)
    requires forall x :: q(f(x)) == p(x)
    ensures Filter(Map(s, f), q) == Map(Filter(s, p), f)
  {
    if s != [] {
      FilterMap(s[1..], f, q, p);
      assert Map(s, f) == [f(s[0])] + Map(s[1..], f);
    }
  }

  /** Ties in the first `k` of a sorted copy: the listed elements with key `c` are the first
      few elements with key `c` of the original, in their original order. */
  lemma TopTies<T(!new), U(!new)>(s: seq<T>, key: T -> int, k: nat, f: T -> U, key': U -> int, c: int)
    requires forall y :: key'(f(y)) == key(y)
    ensures Filter(Map(Take(SortDesc(s, key), k), f), KeyIs(key', c)) <= Map(Filter(s, KeyIs(key, c)), f)
  {
    var ranked := SortDesc(s, key);
    var top := Take(ranked, k);
    assert ranked == top + ranked[|top|..];
    FilterAppend(top, ranked[|top|..], KeyIs(key, c));
    SortStable(s, key, c);
    FilterMap(top, f, KeyIs(key', c), KeyIs(key, c));
    MapAppend(Filter(top, KeyIs(key, c)), Filter(ranked[|top|..], KeyIs(key, c)), f);
  }

  /** Number of occurrences grows by one exactly when the appended element is `x`. */
  lemma {:induction false} CountSnoc<T>(s: seq<T>, y: T, x: T)
    ensures Count(s + [y], x) == Count(s, x) + (if y == x then 1 else 0)
  {
    if s == [] {
      assert [] + [y] == [y];
    } else {
      assert (s + [y])[1..] == s[1..] + [y];
      CountSnoc(s[1..], y, x);
    }
  }

  lemma {:induction false} CountPositive<T>(s: seq<T>, x: T)
    ensures Count(s, x) > 0 <==> x in s
  {
    if s != [] {
      CountPositive(s[1..], x);
      assert x in s <==> s[0] == x || x in s[1..];
    }
  }

  /** The distinct elements of `s` in order of first appearance (dictionary insertion order). */
  function Dedup<T(==,!new)>(s: seq<T>): (r: seq<T>)
    ensures NoDup(r)
    ensures forall x :: x in r <==> x in s
  {
    if s == [] then []
    else
      var d := Dedup(s[..|s| - 1]);
      var x := s[|s| - 1];
      assert s == s[..|s| - 1] + [x];
      if x in d then d else d + [x]
  }

  /** ASCII lower-casing of one character. */
  function LowerChar(c: char): char
  {
    if 'A' <= c <= 'Z' then (c as int + 32) as char else c
  }

  /** `s.lower()` (ASCII letters only). */
  function Lower(s: string): (r: string)
    ensures |r| == |s|
    ensures forall i :: 0 <= i < |s| ==> r[i] == LowerChar(s[i])
  {
    seq(|s|, i requires 0 <= i < |s| => LowerChar(s[i]))
  }

  /** `sub in s` on strings: `sub` occurs in `s` at some position (the empty string always does). */
  predicate Contains(s: string, sub: string)
  {
    sub <= s || (s != [] && Contains(s[1..], sub))
  }

  lemma {:induction false} ContainsAt(s: string, sub: string, i: nat)
    requires i + |sub| <= |s| && s[i..i + |sub|] == sub
    ensures Contains(s, sub)
  {
    if i > 0 {
      assert s[1..][i - 1..i - 1 + |sub|] == sub;
      ContainsAt(s[1..], sub, i - 1);
    }
  }

  lemma {:induction false} ContainsWitness(s: string, sub: string) returns (i: nat)
    requires Contains(s, sub)
    ensures i + |sub| <= |s| && s[i..i + |sub|] == sub
  {
    if sub <= s {
      i := 0;
    } else {
      var k := ContainsWitness(s[1..], sub);
      i := k + 1;
      assert s[i..i + |sub|] == s[1..][k..k + |sub|];
    }
  }
}
