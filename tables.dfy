/** Sequence helpers for the relational views: a table is a sequence of
    records, `SELECT DISTINCT` keeps first appearances, and a key lookup
    returns the first matching row. */
module Tables {

  /** No element occurs twice. */
  predicate NoDup<T(==)>(xs: seq<T>) {
    forall i, j :: 0 <= i < j < |xs| ==> xs[i] != xs[j]
  }

  /** The distinct elements of xs, in order of first appearance. */
  function Distinct<T(==)>(xs: seq<T>): seq<T>
    decreases |xs|
  {
    if xs == [] then []
    else
      var d := Distinct(xs[..|xs| - 1]);
      if xs[|xs| - 1] in d then d else d + [xs[|xs| - 1]]
  }

  /** Distinct drops repetitions and nothing else. */
  lemma {:induction false} DistinctSpec<T>(xs: seq<T>)
    ensures NoDup(Distinct(xs))
    ensures forall x :: x in Distinct(xs) <==> x in xs
    decreases |xs|
  {
    if xs != [] {
      var init := xs[..|xs| - 1];
      DistinctSpec(init);
      assert xs == init + [xs[|xs| - 1]];
      forall x ensures x in xs <==> x in init || x == xs[|xs| - 1] {
        if x in xs {
          var k :| 0 <= k < |xs| && xs[k] == x;
          if k < |xs| - 1 { assert init[k] == x; }
        }
      }
    }
  }

  /** In a list without repetitions every element occurs at most once. */
  lemma {:induction false} NoDupCount<T>(xs: seq<T>, x: T)
    requires NoDup(xs)
    ensures multiset(xs)[x] <= 1
  {
    if xs != [] {
      var t := xs[1..];
      assert xs == [xs[0]] + t;
      assert NoDup(t) by {
        forall i, j | 0 <= i < j < |t| ensures t[i] != t[j] {
          assert t[i] == xs[i + 1] && t[j] == xs[j + 1];
        }
      }
      NoDupCount(t, x);
      if xs[0] == x {
        assert x !in t by {
          forall j | 0 <= j < |t| ensures t[j] != x {
            assert t[j] == xs[j + 1];
          }
        }
      }
    }
  }

  /** An element at two positions occurs at least twice. */
  lemma TwiceCount<T>(ys: seq<T>, i: nat, j: nat)
    requires i < j < |ys| && ys[i] == ys[j]
    ensures multiset(ys)[ys[i]] >= 2
  {
    var a, b := ys[..j], ys[j..];
    assert ys == a + b;
    assert ys[i] == a[i] && ys[j] == b[0];
    assert multiset(ys) == multiset(a) + multiset(b);
  }

  /** A reordering of a list without repetitions has none either. */
  lemma NoDupPerm<T>(xs: seq<T>, ys: seq<T>)
    requires NoDup(xs) && multiset(xs) == multiset(ys)
    ensures NoDup(ys)
  {
    forall i, j | 0 <= i < j < |ys| ensures ys[i] != ys[j] {
      if ys[i] == ys[j] {
        TwiceCount(ys, i, j);
        NoDupCount(xs, ys[i]);
      }
    }
  }

  /** A non-empty sequence of copies of x has the single distinct element x. */
  lemma {:induction false} DistinctConst<T>(xs: seq<T>, x: T)
    requires xs != [] && forall i :: 0 <= i < |xs| ==> xs[i] == x
    ensures Distinct(xs) == [x]
    decreases |xs|
  {
    var init := xs[..|xs| - 1];
    if init != [] {
      DistinctConst(init, x);
    }
  }

  /** Number of occurrences of x. */
  function Count<T(==)>(xs: seq<T>, x: T): (n: nat)
    ensures n <= |xs|
    ensures x !in xs ==> n == 0
  {
    if xs == [] then 0 else (if xs[0] == x then 1 else 0) + Count(xs[1..], x)
  }

  lemma {:induction false} CountAppend<T>(a: seq<T>, b: seq<T>, x: T)
    ensures Count(a + b, x) == Count(a, x) + Count(b, x)
  {
    if a != [] {
      assert (a + b)[1..] == a[1..] + b;
      CountAppend(a[1..], b, x);
    } else {
      assert a + b == b;
    }
  }

  /** Every element of a duplicate-free sequence occurs exactly once. */
  lemma {:induction false} CountNoDup<T>(xs: seq<T>, x: T)
    requires NoDup(xs) && x in xs
    ensures Count(xs, x) == 1
  {
    if xs[0] == x {
      forall k | 0 <= k < |xs[1..]| ensures xs[1..][k] != x {
        assert xs[1..][k] == xs[k + 1];
      }
      assert x !in xs[1..];
    } else {
      assert NoDup(xs[1..]) by {
        forall i, j | 0 <= i < j < |xs[1..]| ensures xs[1..][i] != xs[1..][j] {
          assert xs[1..][i] == xs[i + 1] && xs[1..][j] == xs[j + 1];
        }
      }
      CountNoDup(xs[1..], x);
    }
  }

  /** The elements satisfying p, in order (a WHERE clause). */
  function Where<T>(xs: seq<T>, p: T -> bool): (r: seq<T>)
    ensures |r| <= |xs|
  {
    if xs == [] then [] else (if p(xs[0]) then [xs[0]] else []) + Where(xs[1..], p)
  }

  /** Where keeps exactly the elements satisfying p. */
  lemma {:induction false} WhereSpec<T>(xs: seq<T>, p: T -> bool)
    ensures forall x :: x in Where(xs, p) <==> x in xs && p(x)
  {
    if xs != [] {
      WhereSpec(xs[1..], p);
      assert xs == [xs[0]] + xs[1..];
    }
  }

  /** A filter no element passes is empty. */
  lemma {:induction false} WhereNone<T>(xs: seq<T>, p: T -> bool)
    requires forall x :: x in xs ==> !p(x)
    ensures Where(xs, p) == []
  {
    if xs != [] {
      assert xs[0] in xs;
      forall x | x in xs[1..] ensures !p(x) {
        assert x in xs;
      }
      WhereNone(xs[1..], p);
    }
  }

  /** A WHERE clause distributes over concatenation (UNION ALL). */
  lemma {:induction false} WhereAppend<T>(a: seq<T>, b: seq<T>, p: T -> bool)
    ensures Where(a + b, p) == Where(a, p) + Where(b, p)
  {
    if a == [] {
      assert a + b == b;
    } else {
      var h := if p(a[0]) then [a[0]] else [];
      assert (a + b)[0] == a[0];
      assert (a + b)[1..] == a[1..] + b;
      assert Where(a + b, p) == h + Where(a[1..] + b, p);
      WhereAppend(a[1..], b, p);
      assert Where(a, p) == h + Where(a[1..], p);
      assert h + (Where(a[1..], p) + Where(b, p)) == (h + Where(a[1..], p)) + Where(b, p);
    }
  }

  /** A filter every element passes keeps the whole sequence. */
  lemma {:induction false} WhereAll<T>(xs: seq<T>, p: T -> bool)
    requires forall x :: x in xs ==> p(x)
    ensures Where(xs, p) == xs
  {
    if xs != [] {
      assert xs[0] in xs;
      forall x | x in xs[1..] ensures p(x) {
        assert x in xs;
      }
      WhereAll(xs[1..], p);
      assert xs == [xs[0]] + xs[1..];
    }
  }

  /** Applies f to every element (a SELECT list). */
  function MapSeq<T, U>(xs: seq<T>, f: T -> U): (r: seq<U>)
    ensures |r| == |xs|
    ensures forall i :: 0 <= i < |xs| ==> r[i] == f(xs[i])
  {
    if xs == [] then [] else [f(xs[0])] + MapSeq(xs[1..], f)
  }

  /** Head lines followed by one line per row of a prefix of rows. */
  lemma HeadThenRows<T, U>(ls: seq<U>, head: seq<U>, xs: seq<T>, rows: seq<T>, f: T -> U)
    requires |xs| <= |rows| && xs == rows[..|xs|] && ls == head + MapSeq(xs, f)
    ensures |ls| == |head| + |xs|
    ensures forall i :: 0 <= i < |xs| ==> ls[|head| + i] == f(rows[i])
  {
    forall i | 0 <= i < |xs| ensures ls[|head| + i] == f(rows[i]) {
      assert ls[|head| + i] == MapSeq(xs, f)[i];
      assert xs[i] == rows[i];
    }
  }

  /** The distinct group keys of a table, in order of first appearance (GROUP BY). */
  function GroupKeys<T, K(==)>(xs: seq<T>, key: T -> K): seq<K> {
    Distinct(MapSeq(xs, key))
  }

  /** The rows of one group. */
  function GroupOf<T, K(==)>(xs: seq<T>, key: T -> K, k: K): seq<T> {
    Where(xs, x => key(x) == k)
  }

  /** GROUP BY yields each key once and exactly the keys of the rows. */
  lemma GroupKeysDistinct<T, K>(xs: seq<T>, key: T -> K)
    ensures NoDup(GroupKeys(xs, key))
    ensures forall k :: k in GroupKeys(xs, key) <==> exists i :: 0 <= i < |xs| && key(xs[i]) == k
  {
    DistinctSpec(MapSeq(xs, key));
    forall k ensures k in MapSeq(xs, key) <==> exists i :: 0 <= i < |xs| && key(xs[i]) == k {
      if k in MapSeq(xs, key) {
        var i :| 0 <= i < |xs| && MapSeq(xs, key)[i] == k;
      }
    }
  }

  /** GROUP BY yields each key once, exactly the keys of the rows, and each
      group is non-empty and holds the rows with that key. */
  lemma GroupKeysSpec<T, K>(xs: seq<T>, key: T -> K)
    ensures NoDup(GroupKeys(xs, key))
    ensures forall k :: k in GroupKeys(xs, key) <==> exists i :: 0 <= i < |xs| && key(xs[i]) == k
    ensures forall k :: k in GroupKeys(xs, key) ==>
              GroupOf(xs, key, k) != [] && forall x :: x in GroupOf(xs, key, k) <==> x in xs && key(x) == k
  {
    GroupKeysDistinct(xs, key);
    forall k | k in GroupKeys(xs, key)
      ensures GroupOf(xs, key, k) != [] && forall x :: x in GroupOf(xs, key, k) <==> x in xs && key(x) == k
    {
      GroupOfSpec(xs, key, k);
      var i := GroupKeyWitness(xs, key, k);
      assert xs[i] in GroupOf(xs, key, k);
    }
  }

  /** A row carrying a given group key. */
  lemma GroupKeyWitness<T, K>(xs: seq<T>, key: T -> K, k: K) returns (i: nat)
    requires k in GroupKeys(xs, key)
    ensures i < |xs| && key(xs[i]) == k
  {
    DistinctSpec(MapSeq(xs, key));
    i :| i < |xs| && MapSeq(xs, key)[i] == k;
  }

  lemma GroupOfSpec<T, K>(xs: seq<T>, key: T -> K, k: K)
    ensures forall x :: x in GroupOf(xs, key, k) <==> x in xs && key(x) == k
  {
    WhereSpec(xs, x => key(x) == k);
  }

  lemma GroupOfAppend<T, K>(a: seq<T>, b: seq<T>, key: T -> K, k: K)
    ensures GroupOf(a + b, key, k) == GroupOf(a, key, k) + GroupOf(b, key, k)
  {
    WhereAppend(a, b, x => key(x) == k);
  }

  lemma GroupOfNone<T, K>(xs: seq<T>, key: T -> K, k: K)
    requires forall x :: x in xs ==> key(x) != k
    ensures GroupOf(xs, key, k) == []
  {
    WhereNone(xs, x => key(x) == k);
  }

  lemma GroupOfAll<T, K>(xs: seq<T>, key: T -> K, k: K)
    requires forall x :: x in xs ==> key(x) == k
    ensures GroupOf(xs, key, k) == xs
  {
    WhereAll(xs, x => key(x) == k);
  }
}
