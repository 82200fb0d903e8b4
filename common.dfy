/** Shared value types and the Python string built-ins the pipeline relies on
    (str.strip, str.lower, str.isdigit, str.replace, str.split, str.join,
    str.zfill, str(int)), written out character by character. */
module Common {

  /** SQL NULL / Python None. */
  datatype Option<T> = None | Some(value: T) {
    function GetOr(default: T): T {
      match this
      case Some(v) => v
      case None => default
    }
  }

  /** A Python exception (with its message) or a value. */
  datatype Result<T> = Ok(value: T) | Err(msg: string)

  const NBSP: char := '\U{00A0}'
  const FULLWIDTH_SPACE: char := '\U{3000}'

  /** Python's str.isspace, which is also what `\s` matches in a str pattern. */
  predicate IsSpace(c: char) {
    c == ' ' || ('\t' <= c <= '\r') || ('\U{001C}' <= c <= '\U{001F}')
    || c == '\U{0085}' || c == NBSP || c == '\U{1680}'
    || ('\U{2000}' <= c <= '\U{200A}') || c == '\U{2028}' || c == '\U{2029}'
    || c == '\U{202F}' || c == '\U{205F}' || c == FULLWIDTH_SPACE
  }

  predicate IsDigit(c: char) { '0' <= c <= '9' }

  /** Python str.isdigit: non-empty and every character a digit. */
  predicate IsDigits(s: string) {
    |s| > 0 && forall k :: 0 <= k < |s| ==> IsDigit(s[k])
  }

  predicate IsUpper(c: char) { 'A' <= c <= 'Z' }

  function LowerChar(c: char): (d: char)
    ensures !IsUpper(d)
    ensures !IsUpper(c) ==> d == c
  {
    if IsUpper(c) then (c as int + 32) as char else c
  }

  /** str.lower() on the ASCII letters. */
  function Lower(s: string): (r: string)
    ensures |r| == |s|
    ensures forall k :: 0 <= k < |s| ==> r[k] == LowerChar(s[k])
  {
    if s == [] then [] else [LowerChar(s[0])] + Lower(s[1..])
  }

  /** str.lstrip(chars) for an explicit character set. */
  function LStripSet(s: string, chars: set<char>): (r: string)
    ensures |r| <= |s| && r == s[|s| - |r|..]
    ensures forall k :: 0 <= k < |s| - |r| ==> s[k] in chars
    ensures r == [] || r[0] !in chars
  {
    if s != [] && s[0] in chars then LStripSet(s[1..], chars) else s
  }

  /** str.lstrip() with no argument. */
  function LStrip(s: string): (r: string)
    ensures |r| <= |s|
    ensures forall k :: 0 <= k < |s| - |r| ==> IsSpace(s[k])
    ensures r == [] || !IsSpace(r[0])
  {
    if s != [] && IsSpace(s[0]) then LStrip(s[1..]) else s
  }

  /** What lstrip leaves is a suffix of its input. */
  lemma {:induction false} LStripSuffix(s: string)
    ensures LStrip(s) == s[|s| - |LStrip(s)|..]
    decreases |s|
  {
    if s != [] && IsSpace(s[0]) {
      LStripSuffix(s[1..]);
    }
  }

  /** str.rstrip() with no argument. */
  function RStrip(s: string): (r: string)
    ensures |r| <= |s| && r == s[..|r|]
    ensures forall k :: |r| <= k < |s| ==> IsSpace(s[k])
    ensures r == [] || !IsSpace(r[|r| - 1])
  {
    if s != [] && IsSpace(s[|s| - 1]) then RStrip(s[..|s| - 1]) else s
  }

  /** str.strip() with no argument. */
  function Strip(s: string): (r: string)
    ensures r == [] || (!IsSpace(r[0]) && !IsSpace(r[|r| - 1]))
    ensures |r| <= |s|
  {
    RStrip(LStrip(s))
  }

  /** Strip keeps a slice of its input. */
  lemma StripIsSlice(s: string) returns (a: nat, b: nat)
    ensures a <= b <= |s| && Strip(s) == s[a..b]
  {
    var l := LStrip(s);
    a := |s| - |l|;
    LStripSuffix(s);
    b := a + |RStrip(l)|;
    assert l[..|RStrip(l)|] == s[a..b];
  }

  /** A string with no whitespace at either end is its own strip. */
  lemma StripOfStripped(s: string)
    requires s == [] || (!IsSpace(s[0]) && !IsSpace(s[|s| - 1]))
    ensures Strip(s) == s
  {
  }

  /** An all-whitespace string strips to "". */
  lemma {:induction false} StripAllSpace(s: string)
    requires forall k :: 0 <= k < |s| ==> IsSpace(s[k])
    ensures Strip(s) == []
  {
    if s != [] {
      StripAllSpace(s[1..]);
      assert LStrip(s) == LStrip(s[1..]);
    }
  }

  predicate StartsWith(s: string, p: string) {
    |p| <= |s| && s[..|p|] == p
  }

  predicate EndsWith(s: string, p: string) {
    |p| <= |s| && s[|s| - |p|..] == p
  }

  /** `sub in s` (substring containment). */
  predicate Contains(s: string, sub: string)
    decreases |s|
  {
    StartsWith(s, sub) || (s != [] && Contains(s[1..], sub))
  }

  /** Removes every occurrence of one character (str.replace(c, "")). */
  function RemoveChar(s: string, c: char): (r: string)
    ensures |r| <= |s|
  {
    if s == [] then [] else (if s[0] == c then [] else [s[0]]) + RemoveChar(s[1..], c)
  }

  /** Nothing is removed from a string without c. */
  lemma {:induction false} RemoveCharAbsent(s: string, c: char)
    requires forall k :: 0 <= k < |s| ==> s[k] != c
    ensures RemoveChar(s, c) == s
  {
    if s != [] {
      RemoveCharAbsent(s[1..], c);
      assert s == [s[0]] + s[1..];
    }
  }

  /** Every occurrence of c is gone. */
  lemma {:induction false} RemoveCharGone(s: string, c: char)
    ensures forall k :: 0 <= k < |RemoveChar(s, c)| ==> RemoveChar(s, c)[k] != c
  {
    if s != [] {
      RemoveCharGone(s[1..], c);
      var h := if s[0] == c then [] else [s[0]];
      var r := RemoveChar(s, c);
      assert r == h + RemoveChar(s[1..], c);
      assert forall k :: |h| <= k < |r| ==> r[k] == RemoveChar(s[1..], c)[k - |h|];
    }
  }

  /** str.replace(pat, rep): leftmost, non-overlapping, left to right. */
  function Replace(s: string, pat: string, rep: string): (r: string)
    requires |pat| > 0
    ensures !Contains(s, pat) ==> r == s
    decreases |s|
  {
    if |s| < |pat| then s
    else if s[..|pat|] == pat then
      rep + Replace(s[|pat|..], pat, rep)
    else
      [s[0]] + Replace(s[1..], pat, rep)
  }

  /** sep.join(parts). */
  function Join(parts: seq<string>, sep: string): (r: string)
    ensures parts == [] ==> r == []
    ensures |parts| == 1 ==> r == parts[0]
  {
    if parts == [] then []
    else if |parts| == 1 then parts[0]
    else parts[0] + sep + Join(parts[1..], sep)
  }

  /** The joined string begins with the first part. */
  lemma JoinStartsWith(parts: seq<string>, sep: string)
    requires parts != []
    ensures StartsWith(Join(parts, sep), parts[0])
  {
    if |parts| > 1 {
      assert Join(parts, sep) == parts[0] + (sep + Join(parts[1..], sep));
    }
  }

  /** The joined string ends with the last part. */
  lemma {:induction false} JoinEndsWith(parts: seq<string>, sep: string)
    requires parts != []
    ensures EndsWith(Join(parts, sep), parts[|parts| - 1])
  {
    if |parts| > 1 {
      JoinEndsWith(parts[1..], sep);
      var rest := Join(parts[1..], sep);
      var j := parts[0] + sep + rest;
      assert j[|j| - |rest|..] == rest;
      var last := parts[|parts| - 1];
      assert j[|j| - |last|..] == rest[|rest| - |last|..];
    }
  }

  /** The strip of a string that starts with p keeps p when p begins and
      ends with non-space characters. */
  lemma StripKeepsPrefix(s: string, p: string)
    requires StartsWith(s, p) && p != [] && !IsSpace(p[0]) && !IsSpace(p[|p| - 1])
    ensures StartsWith(Strip(s), p)
  {
    assert s[0] == p[0];
    assert LStrip(s) == s;
    var r := RStrip(s);
    assert !IsSpace(s[|p| - 1]);
    assert |p| <= |r|;
    assert r[..|p|] == s[..|p|];
  }

  function Reverse<T>(xs: seq<T>): (r: seq<T>)
    ensures |r| == |xs|
    ensures forall i :: 0 <= i < |xs| ==> r[i] == xs[|xs| - 1 - i]
  {
    if xs == [] then [] else Reverse(xs[1..]) + [xs[0]]
  }

  /** Splits on every occurrence of c (str.split(c)); never empty. */
  function Split(s: string, c: char): (r: seq<string>)
    ensures |r| >= 1
    ensures forall k :: 0 <= k < |r| ==> c !in r[k]
    ensures c !in s ==> r == [s]
  {
    if s == [] then [[]]
    else
      var rest := Split(s[1..], c);
      assert s == [s[0]] + s[1..];
      if s[0] == c then [[]] + rest else [[s[0]] + rest[0]] + rest[1..]
  }

  /** Digit character to its value. */
  function DigitValue(c: char): (v: nat)
    requires IsDigit(c)
    ensures v < 10
  {
    c as int - '0' as int
  }

  /** int(s) for a string of ASCII digits. */
  function DigitsValue(s: string): (v: nat)
    requires forall k :: 0 <= k < |s| ==> IsDigit(s[k])
  {
    if s == [] then 0 else DigitsValue(s[..|s| - 1]) * 10 + DigitValue(s[|s| - 1])
  }

  /** str(n) for a natural number. */
  function NatToString(n: nat): (r: string)
    ensures IsDigits(r)
    ensures DigitsValue(r) == n
    decreases n
  {
    if n < 10 then ['0' + n as char]
    else
      var r := NatToString(n / 10) + ['0' + (n % 10) as char];
      assert r[..|r| - 1] == NatToString(n / 10);
      r
  }

  /** str(i) for any integer. */
  function IntToString(i: int): string {
    if i < 0 then "-" + NatToString(-i) else NatToString(i)
  }

  /** str.zfill(width) for a string without a sign: left-pad with '0', never truncate. */
  function ZFill(s: string, width: nat): (r: string)
    ensures |r| == if |s| >= width then |s| else width
    ensures r[|r| - |s|..] == s
    ensures forall k :: 0 <= k < |r| - |s| ==> r[k] == '0'
  {
    if |s| >= width then s else seq(width - |s|, _ => '0') + s
  }

  /** Keeps the digits of s, in order (re.sub(r"\D", "", s)). */
  function DigitsOnly(s: string): (r: string)
    ensures forall k :: 0 <= k < |r| ==> IsDigit(r[k])
    ensures |r| <= |s|
    ensures (forall k :: 0 <= k < |s| ==> IsDigit(s[k])) ==> r == s
  {
    if s == [] then [] else (if IsDigit(s[0]) then [s[0]] else []) + DigitsOnly(s[1..])
  }

  function Min(a: int, b: int): int { if a <= b then a else b }
  function Max(a: int, b: int): int { if a >= b then a else b }

  function Abs(x: real): (r: real)
    ensures r >= 0.0 && (r == x || r == -x)
  {
    if x < 0.0 then -x else x
  }

  /** The first n elements, or all of them when there are fewer (Python xs[:n]). */
  function Take<T>(xs: seq<T>, n: int): (r: seq<T>)
    ensures |r| == if n <= 0 then 0 else Min(n, |xs|)
    ensures r == xs[..|r|]
  {
    if n <= 0 then [] else if n >= |xs| then xs else xs[..n]
  }

  /** xs[:n] with Python's reading of a negative stop. */
  function SliceTo<T>(xs: seq<T>, n: int): (r: seq<T>)
    ensures |r| <= |xs| && r == xs[..|r|]
    ensures n >= 0 ==> |r| == Min(n, |xs|)
  {
    if n >= 0 then Take(xs, n) else xs[..Max(0, |xs| + n)]
  }

  /** A slice of a slice is a slice of the whole. */
  lemma SliceOfSlice<T>(s: seq<T>, lo: nat, hi: nat, a: nat, b: nat)
    requires lo <= hi <= |s| && a <= b <= hi - lo
    ensures s[lo..hi][a..b] == s[lo + a..lo + b]
  {
    var x := s[lo..hi][a..b];
    var y := s[lo + a..lo + b];
    forall k | 0 <= k < |x|
      ensures x[k] == y[k]
    {
    }
  }

  lemma ConcatAssoc<T>(a: seq<T>, b: seq<T>, c: seq<T>)
    ensures (a + b) + c == a + (b + c)
  {
  }

  /** Python's string order: code points, a proper prefix first. */
  predicate LexLess(a: string, b: string)
    decreases |a|
  {
    if a == [] then b != []
    else if b == [] then false
    else if a[0] != b[0] then a[0] < b[0]
    else LexLess(a[1..], b[1..])
  }

  lemma {:induction false} LexLessTransitive(a: string, b: string, c: string)
    requires LexLess(a, b) && LexLess(b, c)
    ensures LexLess(a, c)
    decreases |a|
  {
    if a != [] && b != [] && c != [] && a[0] == b[0] && b[0] == c[0] {
      LexLessTransitive(a[1..], b[1..], c[1..]);
    }
  }

  lemma {:induction false} LexLessTotal(a: string, b: string)
    ensures LexLess(a, b) || LexLess(b, a) || a == b
    ensures !(LexLess(a, b) && LexLess(b, a))
    decreases |a|
  {
    if a != [] && b != [] && a[0] == b[0] {
      LexLessTotal(a[1..], b[1..]);
      assert a == [a[0]] + a[1..] && b == [b[0]] + b[1..];
    }
  }

  /** The report kind ("business report") both receipt lookups search for. */
  const BUSINESS_REPORT := "사업보고서"

  /** The rows of xs satisfying p, in order (a WHERE clause). */
  function Filter<T>(xs: seq<T>, p: T -> bool): (r: seq<T>)
    ensures forall i :: 0 <= i < |r| ==> p(r[i]) && r[i] in xs
    ensures forall x :: x in xs && p(x) ==> x in r
    ensures |r| <= |xs|
  {
    if xs == [] then []
    else
      var rest := Filter(xs[1..], p);
      assert forall x :: x in xs[1..] ==> x in xs;
      if p(xs[0]) then [xs[0]] + rest else rest
  }

  /** le is total and transitive (an ORDER BY over one or more columns). */
  ghost predicate TotalPreorder<T(!new)>(le: (T, T) -> bool) {
    (forall a, b :: le(a, b) || le(b, a))
    && (forall a, b, c :: le(a, b) && le(b, c) ==> le(a, c))
  }

  predicate SortedBy<T>(xs: seq<T>, le: (T, T) -> bool) {
    forall i, j :: 0 <= i < j < |xs| ==> le(xs[i], xs[j])
  }

  /** x placed before the first element it may precede. */
  function InsertBy<T>(x: T, xs: seq<T>, le: (T, T) -> bool): (r: seq<T>)
    ensures multiset(r) == multiset(xs) + multiset{x}
  {
    if xs == [] || le(x, xs[0]) then [x] + xs
    else
      assert xs == [xs[0]] + xs[1..];
      [xs[0]] + InsertBy(x, xs[1..], le)
  }

  /** ORDER BY: an insertion sort; among rows that compare equal the order
      is one of those SQL allows. */
  function SortBy<T>(xs: seq<T>, le: (T, T) -> bool): (r: seq<T>)
    ensures multiset(r) == multiset(xs)
  {
    if xs == [] then []
    else
      assert xs == [xs[0]] + xs[1..];
      InsertBy(xs[0], SortBy(xs[1..], le), le)
  }

  lemma {:induction false} InsertBySorted<T(!new)>(x: T, xs: seq<T>, le: (T, T) -> bool)
    requires TotalPreorder(le) && SortedBy(xs, le)
    ensures SortedBy(InsertBy(x, xs, le), le)
  {
    if xs == [] || le(x, xs[0]) {
      var r := [x] + xs;
      forall i, j | 0 <= i < j < |r| ensures le(r[i], r[j]) {
        if i == 0 && j > 1 { assert le(x, xs[0]) && le(xs[0], xs[j - 1]); }
      }
    } else {
      var tail := InsertBy(x, xs[1..], le);
      InsertBySorted(x, xs[1..], le);
      assert le(xs[0], x);
      var r := [xs[0]] + tail;
      forall j | 0 <= j < |tail| ensures le(xs[0], tail[j]) {
        assert tail[j] in multiset(tail);
        assert tail[j] in multiset(xs[1..]) + multiset{x};
        if tail[j] != x {
          assert tail[j] in xs[1..];
          var k :| 0 <= k < |xs[1..]| && xs[1..][k] == tail[j];
          assert xs[k + 1] == tail[j];
        }
      }
      forall i, j | 0 <= i < j < |r| ensures le(r[i], r[j]) {
        if i == 0 { assert r[j] == tail[j - 1]; }
      }
    }
  }

  lemma {:induction false} SortBySorted<T(!new)>(xs: seq<T>, le: (T, T) -> bool)
    requires TotalPreorder(le)
    ensures SortedBy(SortBy(xs, le), le)
  {
    if xs != [] {
      SortBySorted(xs[1..], le);
      InsertBySorted(xs[0], SortBy(xs[1..], le), le);
    }
  }

  /** A sorted list has the elements of its input and no others. */
  lemma SortByMembers<T>(xs: seq<T>, le: (T, T) -> bool)
    ensures |SortBy(xs, le)| == |xs|
    ensures forall x :: x in SortBy(xs, le) <==> x in xs
  {
    var r := SortBy(xs, le);
    assert |multiset(r)| == |multiset(xs)|;
    forall x ensures x in r <==> x in xs {
      assert x in r <==> x in multiset(r);
      assert x in xs <==> x in multiset(xs);
    }
  }

  /** ORDER BY … LIMIT k keeps a sorted prefix: every row it drops sorts no
      earlier than the rows it keeps. */
  lemma TakeSortedBy<T>(xs: seq<T>, le: (T, T) -> bool, k: int)
    requires SortedBy(xs, le)
    ensures SortedBy(Take(xs, k), le)
    ensures forall c :: c in Take(xs, k) ==> c in xs
    ensures forall c :: c in xs && c !in Take(xs, k) ==> forall i :: 0 <= i < |Take(xs, k)| ==> le(Take(xs, k)[i], c)
  {
    var r := Take(xs, k);
    assert r == xs[..|r|];
    forall c | c in xs && c !in r ensures forall i :: 0 <= i < |r| ==> le(r[i], c) {
      var j :| 0 <= j < |xs| && xs[j] == c;
      assert j >= |r|;
    }
  }

  /** The first element of least key (ORDER BY key ASC LIMIT 1), None for
      an empty list. */
  function FirstMin<T>(xs: seq<T>, key: T -> nat): (r: Option<T>)
    ensures r.None? <==> xs == []
    ensures r.Some? ==> r.value in xs && forall x :: x in xs ==> key(r.value) <= key(x)
  {
    if xs == [] then None
    else
      var rest := FirstMin(xs[1..], key);
      assert forall x :: x in xs ==> x == xs[0] || x in xs[1..];
      if rest.Some? && key(rest.value) < key(xs[0]) then rest else Some(xs[0])
  }

  /** The position of the first element satisfying p (a LIMIT 1 scan, a
      `next(x for x in xs if p(x))`), or None. */
  function FirstIndex<T>(xs: seq<T>, p: T -> bool): (r: Option<nat>)
    ensures r.Some? ==> r.value < |xs| && p(xs[r.value])
    ensures r.Some? ==> forall j :: 0 <= j < r.value ==> !p(xs[j])
    ensures r.None? ==> forall j :: 0 <= j < |xs| ==> !p(xs[j])
  {
    if xs == [] then None
    else if p(xs[0]) then Some(0)
    else match FirstIndex(xs[1..], p)
      case None => None
      case Some(k) => Some(k + 1)
  }

  /** [f(i, xs[i]) for i, x in enumerate(xs)] */
  function MapIndexed<T, U>(xs: seq<T>, f: (nat, T) -> U): (r: seq<U>)
    ensures |r| == |xs|
    ensures forall i :: 0 <= i < |xs| ==> r[i] == f(i, xs[i])
  {
    if xs == [] then [] else MapIndexed(xs[..|xs| - 1], f) + [f(|xs| - 1, xs[|xs| - 1])]
  }

  lemma MapIndexedSnoc<T, U>(xs: seq<T>, x: T, f: (nat, T) -> U)
    ensures MapIndexed(xs + [x], f) == MapIndexed(xs, f) + [f(|xs|, x)]
  {
    assert (xs + [x])[..|xs|] == xs;
  }

  /** The concatenation of f(x) over xs, in order (a loop that appends
      zero or more items per element). */
  function FlatMap<T, U>(xs: seq<T>, f: T -> seq<U>): seq<U> {
    if xs == [] then [] else FlatMap(xs[..|xs| - 1], f) + f(xs[|xs| - 1])
  }

  lemma FlatMapSnoc<T, U>(xs: seq<T>, x: T, f: T -> seq<U>)
    ensures FlatMap(xs + [x], f) == FlatMap(xs, f) + f(x)
  {
    assert (xs + [x])[..|xs|] == xs;
  }

  lemma FlatMapPrefix<T, U>(xs: seq<T>, k: nat, f: T -> seq<U>)
    requires k < |xs|
    ensures FlatMap(xs[..k + 1], f) == FlatMap(xs[..k], f) + f(xs[k])
  {
    assert xs[..k + 1][..k] == xs[..k];
  }

  /** An element of a FlatMap comes from the image of some input element. */
  lemma {:induction false} FlatMapMember<T, U>(xs: seq<T>, f: T -> seq<U>, u: U)
    ensures u in FlatMap(xs, f) <==> exists x :: x in xs && u in f(x)
  {
    if xs != [] {
      var init := xs[..|xs| - 1];
      var last := xs[|xs| - 1];
      assert xs == init + [last];
      FlatMapMember(init, f, u);
      if u in f(last) {
        assert last in xs;
      } else if u in FlatMap(init, f) {
        var x :| x in init && u in f(x);
        assert x in xs;
      } else {
        forall x | x in xs ensures u !in f(x) {
          if x != last { assert x in init; }
        }
      }
    }
  }

  lemma {:induction false} FlatMapAppend<T, U>(a: seq<T>, b: seq<T>, f: T -> seq<U>)
    ensures FlatMap(a + b, f) == FlatMap(a, f) + FlatMap(b, f)
    decreases |b|
  {
    if b == [] {
      assert a + b == a;
    } else {
      var n := |b| - 1;
      var init := b[..n];
      var x := b[n];
      assert b == init + [x];
      assert a + b == (a + init) + [x];
      FlatMapAppend(a, init, f);
      calc {
        FlatMap(a + b, f);
        FlatMap((a + init) + [x], f);
        { FlatMapSnoc(a + init, x, f); }
        FlatMap(a + init, f) + f(x);
        FlatMap(a, f) + FlatMap(init, f) + f(x);
        { FlatMapSnoc(init, x, f); }
        FlatMap(a, f) + FlatMap(b, f);
      }
    }
  }

  /** Ordered by key, largest first. */
  predicate SortedDesc<T>(xs: seq<T>, key: T -> real) {
    forall i, j :: 0 <= i < j < |xs| ==> key(xs[i]) >= key(xs[j])
  }

  /** Puts x after every element whose key is at least key(x). */
  function InsertDesc<T>(x: T, ys: seq<T>, key: T -> real): (r: seq<T>)
    ensures multiset(r) == multiset(ys) + multiset{x}
  {
    if ys == [] || key(ys[|ys| - 1]) >= key(x) then ys + [x]
    else
      var n := |ys| - 1;
      assert ys == ys[..n] + [ys[n]];
      InsertDesc(x, ys[..n], key) + [ys[n]]
  }

  /** ORDER BY key DESC (insertion sort; equal keys keep their order). */
  function SortDesc<T>(xs: seq<T>, key: T -> real): (r: seq<T>)
    ensures multiset(r) == multiset(xs)
  {
    if xs == [] then []
    else
      var n := |xs| - 1;
      assert xs == xs[..n] + [xs[n]];
      InsertDesc(xs[n], SortDesc(xs[..n], key), key)
  }

  lemma InsertDescMembers<T>(x: T, ys: seq<T>, key: T -> real)
    ensures forall z :: z in InsertDesc(x, ys, key) ==> z == x || z in ys
  {
    forall z | z in InsertDesc(x, ys, key) ensures z == x || z in ys {
      assert z in multiset(InsertDesc(x, ys, key));
    }
  }

  lemma {:induction false} InsertDescSorted<T>(x: T, ys: seq<T>, key: T -> real)
    requires SortedDesc(ys, key)
    ensures SortedDesc(InsertDesc(x, ys, key), key)
  {
    if ys == [] || key(ys[|ys| - 1]) >= key(x) {
    } else {
      var n := |ys| - 1;
      var init := ys[..n];
      InsertDescSorted(x, init, key);
      var r0 := InsertDesc(x, init, key);
      InsertDescMembers(x, init, key);
      forall z | z in r0
        ensures key(z) >= key(ys[n])
      {
        if z != x {
          var i :| 0 <= i < |init| && init[i] == z;
          assert ys[i] == z;
        }
      }
      var r := r0 + [ys[n]];
      forall i, j | 0 <= i < j < |r|
        ensures key(r[i]) >= key(r[j])
      {
        if j == |r0| {
          assert r[i] in r0;
        } else {
          assert r[i] == r0[i] && r[j] == r0[j];
        }
      }
    }
  }

  /** SortDesc sorts. */
  lemma {:induction false} SortDescSorted<T>(xs: seq<T>, key: T -> real)
    ensures SortedDesc(SortDesc(xs, key), key)
  {
    if xs != [] {
      var n := |xs| - 1;
      SortDescSorted(xs[..n], key);
      InsertDescSorted(xs[n], SortDesc(xs[..n], key), key);
    }
  }

  lemma FirstIndexAt<T>(xs: seq<T>, p: T -> bool, i: nat)
    requires i < |xs| && p(xs[i]) && forall j :: 0 <= j < i ==> !p(xs[j])
    ensures FirstIndex(xs, p) == Some(i)
  {
  }

  lemma FirstIndexNone<T>(xs: seq<T>, p: T -> bool)
    requires forall j :: 0 <= j < |xs| ==> !p(xs[j])
    ensures FirstIndex(xs, p) == None
  {
  }

  /** The keys of xs. */
  function KeysOf<T, K>(xs: seq<T>, key: T -> K): (r: set<K>)
    ensures forall k :: 0 <= k < |xs| ==> key(xs[k]) in r
    ensures forall y :: y in r ==> exists k :: 0 <= k < |xs| && key(xs[k]) == y
  {
    if xs == [] then {} else KeysOf(xs[..|xs| - 1], key) + {key(xs[|xs| - 1])}
  }

  /** No earlier element has the key of xs[k]. */
  predicate FirstOfKey<T, K(==)>(xs: seq<T>, key: T -> K, k: int)
    requires 0 <= k < |xs|
  {
    forall j :: 0 <= j < k ==> key(xs[j]) != key(xs[k])
  }

  /** No later element has the key of xs[k]. */
  predicate LastOfKey<T, K(==)>(xs: seq<T>, key: T -> K, k: int)
    requires 0 <= k < |xs|
  {
    forall j :: k < j < |xs| ==> key(xs[j]) != key(xs[k])
  }

  predicate KeysDistinct<T, K(==)>(xs: seq<T>, key: T -> K) {
    forall i, j :: 0 <= i < j < |xs| ==> key(xs[i]) != key(xs[j])
  }

  /** drop_duplicates(keep="first"): the first element of each key, in order. */
  function DedupFirst<T, K(==)>(xs: seq<T>, key: T -> K): seq<T> {
    if xs == [] then []
    else
      var init := xs[..|xs| - 1];
      if key(xs[|xs| - 1]) in KeysOf(init, key) then DedupFirst(init, key)
      else DedupFirst(init, key) + [xs[|xs| - 1]]
  }

  /** drop_duplicates(keep="last"): the last element of each key, in order. */
  function DedupLast<T, K(==)>(xs: seq<T>, key: T -> K): seq<T> {
    if xs == [] then []
    else if key(xs[0]) in KeysOf(xs[1..], key) then DedupLast(xs[1..], key)
    else [xs[0]] + DedupLast(xs[1..], key)
  }

  /** Keep-first keeps one element per key, and every key. */
  lemma {:induction false} DedupFirstKeys<T, K>(xs: seq<T>, key: T -> K)
    ensures KeysDistinct(DedupFirst(xs, key), key)
    ensures KeysOf(DedupFirst(xs, key), key) == KeysOf(xs, key)
  {
    if xs != [] {
      var n := |xs| - 1;
      var init := xs[..n];
      DedupFirstKeys(init, key);
      var r0 := DedupFirst(init, key);
      if key(xs[n]) !in KeysOf(init, key) {
        forall i | 0 <= i < |r0| ensures key(r0[i]) != key(xs[n]) {
          assert key(r0[i]) in KeysOf(r0, key);
        }
        assert DedupFirst(xs, key) == r0 + [xs[n]];
        assert KeysOf(r0 + [xs[n]], key) == KeysOf(r0, key) + {key(xs[n])} by {
          assert (r0 + [xs[n]])[..|r0|] == r0;
        }
      }
      assert KeysOf(xs, key) == KeysOf(init, key) + {key(xs[n])};
    }
  }

  /** Keep-first keeps only first occurrences. */
  lemma {:induction false} DedupFirstOnlyFirst<T, K>(xs: seq<T>, key: T -> K)
    ensures forall x :: x in DedupFirst(xs, key) ==>
      exists k :: 0 <= k < |xs| && xs[k] == x && FirstOfKey(xs, key, k)
  {
    if xs != [] {
      var n := |xs| - 1;
      var init := xs[..n];
      DedupFirstOnlyFirst(init, key);
      var r0 := DedupFirst(init, key);
      forall x | x in DedupFirst(xs, key)
        ensures exists k :: 0 <= k < |xs| && xs[k] == x && FirstOfKey(xs, key, k)
      {
        if x in r0 {
          var k :| 0 <= k < n && init[k] == x && FirstOfKey(init, key, k);
          assert forall j :: 0 <= j < k ==> init[j] == xs[j];
          assert FirstOfKey(xs, key, k);
        } else {
          assert x == xs[n];
          forall j | 0 <= j < n ensures key(xs[j]) != key(xs[n]) {
            assert init[j] == xs[j];
          }
        }
      }
    }
  }

  /** Keep-first keeps every first occurrence. */
  lemma DedupFirstAllFirst<T, K>(xs: seq<T>, key: T -> K)
    ensures forall k :: 0 <= k < |xs| && FirstOfKey(xs, key, k) ==> xs[k] in DedupFirst(xs, key)
  {
    forall k | 0 <= k < |xs| && FirstOfKey(xs, key, k) ensures xs[k] in DedupFirst(xs, key) {
      DedupFirstKeepsFirst(xs, key, k);
    }
  }

  lemma {:induction false} DedupFirstKeepsFirst<T, K>(xs: seq<T>, key: T -> K, k: int)
    requires 0 <= k < |xs| && FirstOfKey(xs, key, k)
    ensures xs[k] in DedupFirst(xs, key)
    decreases |xs|
  {
    var n := |xs| - 1;
    var init := xs[..n];
    if k < n {
      assert init[k] == xs[k];
      assert FirstOfKey(init, key, k) by {
        forall j | 0 <= j < k ensures key(init[j]) != key(init[k]) {
          assert init[j] == xs[j];
        }
      }
      DedupFirstKeepsFirst(init, key, k);
      assert DedupFirst(init, key) <= DedupFirst(xs, key);
    } else {
      assert DedupFirst(xs, key) == DedupFirst(init, key) + [xs[n]];
    }
  }

  /** Keep-last keeps one element per key, and every key. */
  lemma {:induction false} DedupLastKeys<T, K>(xs: seq<T>, key: T -> K)
    ensures KeysDistinct(DedupLast(xs, key), key)
    ensures KeysOf(DedupLast(xs, key), key) == KeysOf(xs, key)
  {
    if xs != [] {
      var tail := xs[1..];
      DedupLastKeys(tail, key);
      var r0 := DedupLast(tail, key);
      KeysOfCons(xs, key);
      if key(xs[0]) !in KeysOf(tail, key) {
        assert DedupLast(xs, key) == [xs[0]] + r0;
        ConsDistinct(xs[0], r0, key);
      }
    }
  }

  lemma ConsDistinct<T, K>(x: T, r0: seq<T>, key: T -> K)
    requires KeysDistinct(r0, key) && key(x) !in KeysOf(r0, key)
    ensures KeysDistinct([x] + r0, key)
    ensures KeysOf([x] + r0, key) == {key(x)} + KeysOf(r0, key)
  {
    var r := [x] + r0;
    forall i | 0 <= i < |r0| ensures key(r0[i]) != key(x) {
      assert key(r0[i]) in KeysOf(r0, key);
    }
    ConsDistinctPairs(x, r0, key);
    assert r[1..] == r0;
    KeysOfCons(r, key);
  }

  lemma ConsDistinctPairs<T, K>(x: T, r0: seq<T>, key: T -> K)
    requires KeysDistinct(r0, key)
    requires forall i :: 0 <= i < |r0| ==> key(r0[i]) != key(x)
    ensures KeysDistinct([x] + r0, key)
  {
    var r := [x] + r0;
    forall i, j | 0 <= i < j < |r| ensures key(r[i]) != key(r[j]) {
      assert r[j] == r0[j - 1];
      if i > 0 {
        assert r[i] == r0[i - 1];
      }
    }
  }

  lemma KeysOfCons<T, K>(xs: seq<T>, key: T -> K)
    requires xs != []
    ensures KeysOf(xs, key) == {key(xs[0])} + KeysOf(xs[1..], key)
  {
    var a, b := KeysOf(xs, key), {key(xs[0])} + KeysOf(xs[1..], key);
    forall y | y in a ensures y in b {
      var k :| 0 <= k < |xs| && key(xs[k]) == y;
      if k > 0 {
        assert xs[1..][k - 1] == xs[k];
      }
    }
    forall y | y in b ensures y in a {
      if y != key(xs[0]) {
        var k :| 0 <= k < |xs[1..]| && key(xs[1..][k]) == y;
        assert xs[k + 1] == xs[1..][k];
      }
    }
  }

  /** Keep-last keeps elements of its input only. */
  lemma {:induction false} DedupLastIn<T, K>(xs: seq<T>, key: T -> K)
    ensures forall x :: x in DedupLast(xs, key) ==> x in xs
  {
    if xs != [] {
      DedupLastIn(xs[1..], key);
    }
  }

  /** Keep-last keeps only last occurrences. */
  lemma {:induction false} DedupLastOnlyLast<T, K>(xs: seq<T>, key: T -> K)
    ensures forall x :: x in DedupLast(xs, key) ==>
      exists k :: 0 <= k < |xs| && xs[k] == x && LastOfKey(xs, key, k)
  {
    if xs != [] {
      var tail := xs[1..];
      DedupLastOnlyLast(tail, key);
      var r0 := DedupLast(tail, key);
      forall x | x in DedupLast(xs, key)
        ensures exists k :: 0 <= k < |xs| && xs[k] == x && LastOfKey(xs, key, k)
      {
        if x in r0 {
          var k :| 0 <= k < |tail| && tail[k] == x && LastOfKey(tail, key, k);
          assert forall j :: k < j < |tail| ==> tail[j] == xs[j + 1];
          assert xs[k + 1] == x;
          assert LastOfKey(xs, key, k + 1);
        } else {
          assert x == xs[0];
          forall j | 0 < j < |xs| ensures key(xs[j]) != key(xs[0]) {
            assert tail[j - 1] == xs[j];
          }
        }
      }
    }
  }

  /** Keep-last keeps every last occurrence. */
  lemma {:induction false} DedupLastAllLast<T, K>(xs: seq<T>, key: T -> K)
    ensures forall k :: 0 <= k < |xs| && LastOfKey(xs, key, k) ==> xs[k] in DedupLast(xs, key)
  {
    if xs != [] {
      var tail := xs[1..];
      DedupLastAllLast(tail, key);
      forall k | 0 <= k < |xs| && LastOfKey(xs, key, k) ensures xs[k] in DedupLast(xs, key) {
        if k > 0 {
          assert forall j :: k - 1 <= j < |tail| ==> tail[j] == xs[j + 1];
          assert LastOfKey(tail, key, k - 1);
        } else {
          forall j | 0 <= j < |tail| ensures key(tail[j]) != key(xs[0]) {
            assert tail[j] == xs[j + 1];
          }
        }
      }
    }
  }
}
