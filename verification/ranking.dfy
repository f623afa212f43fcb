/** Hot-comment ranking: a stable sort of comments by descending `star`,
    cut to the first `HotLimit` entries. */
module Ranking {
  import opened Channels

  /** How many comments `hotComments` keeps. */
  const HotLimit := 3

  function Min(a: int, b: int): int {
    if a <= b then a else b
  }

  /** Non-increasing by `star`, the order the comparator of `hotComments`
      asks for. */
  predicate SortedByStarDesc(t: seq<Comment>) {
    forall i, j :: 0 <= i < j < |t| ==> t[i].star >= t[j].star
  }

  /** The subsequence of `t` whose comments have exactly `k` stars. A sort
      is stable when it keeps each of these subsequences as it was. */
  function WithStar(t: seq<Comment>, k: int): seq<Comment> {
    if t == [] then []
    else (if t[0].star == k then [t[0]] else []) + WithStar(t[1..], k)
  }

  /** `t` lists, for every rating, the comments of `s` with that rating in
      the order `s` has them. */
  ghost predicate SameOrderPerRating(t: seq<Comment>, s: seq<Comment>) {
    forall k :: WithStar(t, k) == WithStar(s, k)
  }

  predicate IsPrefix<T(==)>(a: seq<T>, b: seq<T>) {
    |a| <= |b| && a == b[..|a|]
  }

  /** Every comment of `top` has at least as many stars as every comment
      of `rest`. */
  predicate Dominates(top: seq<Comment>, rest: multiset<Comment>) {
    forall i, c :: 0 <= i < |top| && c in rest ==> top[i].star >= c.star
  }

  /** Places `c` in front of the first comment with no more stars than it,
      so it lands before every comment of equal rating that came after it
      in the input. */
  function Insert(c: Comment, t: seq<Comment>): (r: seq<Comment>)
    ensures multiset(r) == multiset(t) + multiset{c}
    ensures |r| == |t| + 1
  {
    if t == [] || t[0].star <= c.star then [c] + t
    else
      assert t == [t[0]] + t[1..];
      [t[0]] + Insert(c, t[1..])
  }

  /** The order `List.sort` produces with the descending comparator of
      `hotComments`: `List.sort` is stable, so comments of equal rating
      keep their relative order. */
  function StableSortByStarDesc(s: seq<Comment>): (r: seq<Comment>)
    ensures multiset(r) == multiset(s)
    ensures |r| == |s|
    ensures SortedByStarDesc(r)
  {
    if s == [] then []
    else
      assert s == [s[0]] + s[1..];
      var rest := StableSortByStarDesc(s[1..]);
      InsertSorted(s[0], rest);
      Insert(s[0], rest)
  }

  /** The hot comments of a comment list: the sorted list if it has at
      most `HotLimit` entries, otherwise its first `HotLimit`. */
  function HotRank(s: seq<Comment>): (r: seq<Comment>)
    ensures |r| == Min(HotLimit, |s|)
    ensures SortedByStarDesc(r)
    ensures multiset(r) <= multiset(s)
    ensures Dominates(r, multiset(s) - multiset(r))
    ensures IsPrefix(r, StableSortByStarDesc(s))
  {
    var sorted := StableSortByStarDesc(s);
    var n := Min(HotLimit, |sorted|);
    PrefixDominates(sorted, n);
    sorted[..n]
  }

  // ---------------------------------------------------------------------
  // Sortedness and permutation

  lemma {:induction false} InsertSorted(c: Comment, t: seq<Comment>)
    requires SortedByStarDesc(t)
    ensures SortedByStarDesc(Insert(c, t))
    decreases |t|
  {
    if t == [] || t[0].star <= c.star {
    } else {
      var r := Insert(c, t);
      var tail := Insert(c, t[1..]);
      InsertSorted(c, t[1..]);
      forall j | 0 <= j < |tail|
        ensures t[0].star >= tail[j].star
      {
        assert tail[j] in multiset(tail);
        assert tail[j] in multiset(t[1..]) + multiset{c};
        if tail[j] != c {
          assert tail[j] in t[1..];
        }
      }
      assert r == [t[0]] + tail;
    }
  }

  /** A prefix of a sorted permutation of `s` outranks everything of `s`
      it leaves out. */
  lemma PrefixDominates(sorted: seq<Comment>, n: nat)
    requires SortedByStarDesc(sorted)
    requires n <= |sorted|
    ensures SortedByStarDesc(sorted[..n])
    ensures multiset(sorted[..n]) <= multiset(sorted)
    ensures multiset(sorted) - multiset(sorted[..n]) == multiset(sorted[n..])
    ensures Dominates(sorted[..n], multiset(sorted) - multiset(sorted[..n]))
  {
    assert sorted == sorted[..n] + sorted[n..];
    assert multiset(sorted) == multiset(sorted[..n]) + multiset(sorted[n..]);
    forall i, c | 0 <= i < n && c in multiset(sorted[n..])
      ensures sorted[..n][i].star >= c.star
    {
      var j :| 0 <= j < |sorted[n..]| && sorted[n..][j] == c;
      assert sorted[n + j] == c;
    }
  }

  // ---------------------------------------------------------------------
  // Stability

  lemma {:induction false} WithStarConcat(a: seq<Comment>, b: seq<Comment>, k: int)
    ensures WithStar(a + b, k) == WithStar(a, k) + WithStar(b, k)
  {
    if a == [] {
      assert a + b == b;
    } else {
      assert (a + b)[1..] == a[1..] + b;
      WithStarConcat(a[1..], b, k);
    }
  }

  lemma {:induction false} WithStarMember(t: seq<Comment>, k: int, x: Comment)
    requires x in WithStar(t, k)
    ensures x in t && x.star == k
  {
    if t != [] {
      if x != t[0] || t[0].star != k {
        WithStarMember(t[1..], k, x);
      }
    }
  }

  lemma {:induction false} InsertWithStar(c: Comment, t: seq<Comment>, k: int)
    requires SortedByStarDesc(t)
    ensures WithStar(Insert(c, t), k)
      == if c.star == k then [c] + WithStar(t, k) else WithStar(t, k)
    decreases |t|
  {
    if t == [] || t[0].star <= c.star {
      assert ([c] + t)[1..] == t;
    } else {
      var r := Insert(c, t);
      assert r[1..] == Insert(c, t[1..]);
      InsertWithStar(c, t[1..], k);
    }
  }

  /** The sort keeps, for every rating, the order of the comments that
      carry it. */
  lemma {:induction false} SortIsStable(s: seq<Comment>, k: int)
    ensures WithStar(StableSortByStarDesc(s), k) == WithStar(s, k)
  {
    if s != [] {
      SortIsStable(s[1..], k);
      InsertWithStar(s[0], StableSortByStarDesc(s[1..]), k);
    }
  }

  lemma HeadOfSortedIsMax(t: seq<Comment>, x: Comment)
    requires SortedByStarDesc(t)
    requires x in t
    ensures t[0].star >= x.star
  {
    var j :| 0 <= j < |t| && t[j] == x;
    if j > 0 {
      assert t[0].star >= t[j].star;
    }
  }

  /** Two sorted lists that agree on every per-rating subsequence are
      equal: sortedness fixes the order across ratings and the
      subsequences fix it within one. */
  lemma {:induction false} StableOrderUnique(t1: seq<Comment>, t2: seq<Comment>)
    requires SortedByStarDesc(t1) && SortedByStarDesc(t2)
    requires SameOrderPerRating(t1, t2)
    ensures t1 == t2
    decreases |t1|
  {
    if t1 == [] || t2 == [] {
      if t1 != [] {
        assert WithStar(t1, t1[0].star) != WithStar(t2, t1[0].star);
      } else if t2 != [] {
        assert WithStar(t1, t2[0].star) != WithStar(t2, t2[0].star);
      }
    } else {
      var a, b := t1[0], t2[0];
      assert WithStar(t2, a.star)[0] == a by {
        assert WithStar(t1, a.star)[0] == a;
      }
      WithStarMember(t2, a.star, a);
      HeadOfSortedIsMax(t2, a);
      assert WithStar(t1, b.star)[0] == b by {
        assert WithStar(t2, b.star)[0] == b;
      }
      WithStarMember(t1, b.star, b);
      HeadOfSortedIsMax(t1, b);
      assert a.star == b.star;
      forall k
        ensures WithStar(t1[1..], k) == WithStar(t2[1..], k)
      {
        assert WithStar(t1, k) == WithStar(t2, k);
        if k == a.star {
          assert WithStar(t1, k) == [a] + WithStar(t1[1..], k);
          assert WithStar(t2, k) == [b] + WithStar(t2[1..], k);
          assert WithStar(t1[1..], k) == WithStar(t1, k)[1..];
          assert WithStar(t2[1..], k) == WithStar(t2, k)[1..];
        } else {
          assert WithStar(t1, k) == WithStar(t1[1..], k);
          assert WithStar(t2, k) == WithStar(t2[1..], k);
        }
      }
      StableOrderUnique(t1[1..], t2[1..]);
      assert t1 == [a] + t1[1..];
      assert t2 == [b] + t2[1..];
    }
  }

  /** An independent characterisation of the ranking order: a list is the
      stable descending sort of `s` exactly when it is sorted by
      descending rating and keeps the input order within each rating. */
  lemma StableSortCharacterization(s: seq<Comment>, t: seq<Comment>)
    ensures t == StableSortByStarDesc(s)
      <==> SortedByStarDesc(t) && SameOrderPerRating(t, s)
  {
    var sorted := StableSortByStarDesc(s);
    forall k ensures WithStar(sorted, k) == WithStar(s, k) {
      SortIsStable(s, k);
    }
    assert SameOrderPerRating(sorted, s);
    if SortedByStarDesc(t) && SameOrderPerRating(t, s) {
      assert SameOrderPerRating(t, sorted);
      StableOrderUnique(t, sorted);
    }
  }

  /** The ranking is fixed by the independent description: whatever list
      is sorted by descending rating and keeps the input order within each
      rating, its first `HotLimit` entries are the hot comments. */
  lemma HotRankOfStableOrder(s: seq<Comment>, t: seq<Comment>)
    requires SortedByStarDesc(t) && SameOrderPerRating(t, s)
    ensures HotRank(s) == t[..Min(HotLimit, |t|)]
  {
    StableSortCharacterization(s, t);
  }

  lemma WithStarCons(x: Comment, t: seq<Comment>, k: int)
    ensures WithStar([x] + t, k) == (if x.star == k then [x] else []) + WithStar(t, k)
  {
    assert ([x] + t)[1..] == t;
  }

  /** A comment rated above every comment of `s`, appended to it, heads
      the ranking. */
  lemma TopRatedLeads(s: seq<Comment>, c: Comment)
    requires forall i :: 0 <= i < |s| ==> s[i].star < c.star
    ensures HotRank(s + [c])[0] == c
  {
    var sorted := StableSortByStarDesc(s + [c]);
    assert HotRank(s + [c])[0] == sorted[0];
    assert (s + [c])[|s|] == c;
    assert c in multiset(sorted);
    HeadOfSortedIsMax(sorted, c);
    assert sorted[0] in multiset(s + [c]);
    if sorted[0] != c {
      assert false;
    }
  }

  /** Among tied comments, the ones the ranking keeps are the earliest in
      the input, in input order. */
  lemma HotRankKeepsEarliestTies(s: seq<Comment>, k: int)
    ensures IsPrefix(WithStar(HotRank(s), k), WithStar(s, k))
  {
    var sorted := StableSortByStarDesc(s);
    var r := HotRank(s);
    assert sorted == r + sorted[|r|..];
    WithStarConcat(r, sorted[|r|..], k);
    SortIsStable(s, k);
  }
}
