/** Small sequence vocabulary shared by every screen: the JavaScript array
    operations the pages use (`filter`, `find`, `slice(0, n)`, spreading a
    `Set` to drop duplicates) written as pure functions over `seq`. */
module Seqs {

  datatype Option<+T> = None | Some(value: T)

  /** A JavaScript truthiness test on an optional string: absent, or
      present but empty, counts as false. */
  predicate Truthy(s: Option<string>) {
    s.Some? && s.value != ""
  }

  /** No element occurs twice. */
  predicate NoDup<T(==)>(s: seq<T>) {
    forall i, j | 0 <= i < j < |s| :: s[i] != s[j]
  }

  /** No element of `a` occurs in `b`. */
  predicate Disjoint<T(==)>(a: seq<T>, b: seq<T>) {
    forall i, j | 0 <= i < |a| && 0 <= j < |b| :: a[i] != b[j]
  }

  /** Two duplicate-free lists with nothing in common concatenate to a
      duplicate-free list. */
  lemma NoDupAppend<T>(a: seq<T>, b: seq<T>)
    requires NoDup(a) && NoDup(b) && Disjoint(a, b)
    ensures NoDup(a + b)
  {
    forall i, j | 0 <= i < j < |a + b|
      ensures (a + b)[i] != (a + b)[j]
    {
      assert j >= |a| ==> (a + b)[j] == b[j - |a|];
      assert i >= |a| ==> (a + b)[i] == b[i - |a|];
    }
  }

  /** `a` can be obtained from `b` by deleting elements, keeping order. */
  predicate SubseqOf<T(==)>(a: seq<T>, b: seq<T>)
    decreases |b|
  {
    if |a| == 0 then true
    else if |b| == 0 then false
    else if a[0] == b[0] then SubseqOf(a[1..], b[1..])
    else SubseqOf(a, b[1..])
  }

  /** `Array.prototype.filter`: the elements satisfying `f`, in order. */
  function Filter<T(==,!new)>(f: T -> bool, s: seq<T>): (r: seq<T>)
    ensures |r| <= |s|
    ensures forall x :: x in r <==> x in s && f(x)
    decreases |s|
  {
    if |s| == 0 then []
    else (if f(s[0]) then [s[0]] else []) + Filter(f, s[1..])
  }

  /** `slice(0, n)`: the first `n` elements, or all of them when fewer. */
  function TakeAtMost<T>(s: seq<T>, n: nat): (r: seq<T>)
    ensures |r| == if |s| < n then |s| else n
    ensures r <= s
    ensures forall i | 0 <= i < |r| :: r[i] in s
  {
    if |s| <= n then s else s[..n]
  }

  /** `[...new Set(s)]`: duplicates removed, the first occurrence of each
      value kept in its place. */
  function Dedupe<T(==,!new)>(s: seq<T>): (r: seq<T>)
    ensures NoDup(r)
    ensures forall x :: x in r <==> x in s
    ensures |r| <= |s|
    decreases |s|
  {
    if |s| == 0 then []
    else
      var d := Dedupe(s[..|s| - 1]);
      if s[|s| - 1] in d then d else d + [s[|s| - 1]]
  }

  /** `Array.prototype.find`: the first element satisfying `f`. */
  function FindFirst<T>(f: T -> bool, s: seq<T>): (r: Option<T>)
    ensures r.None? <==> forall i | 0 <= i < |s| :: !f(s[i])
    ensures r.Some? ==> exists i | 0 <= i < |s| :: s[i] == r.value && f(s[i]) && forall j | 0 <= j < i :: !f(s[j])
    decreases |s|
  {
    if |s| == 0 then None
    else if f(s[0]) then Some(s[0])
    else
      var r := FindFirst(f, s[1..]);
      assert r.Some? ==> exists i | 0 <= i < |s| - 1 :: s[1..][i] == r.value && f(s[1..][i]) && forall j | 0 <= j < i :: !f(s[1..][j]);
      r
  }

  lemma {:induction false} FilterAppend<T(!new)>(f: T -> bool, a: seq<T>, b: seq<T>)
    ensures Filter(f, a + b) == Filter(f, a) + Filter(f, b)
    decreases |a|
  {
    if |a| == 0 {
      assert a + b == b;
    } else {
      assert (a + b)[1..] == a[1..] + b;
      FilterAppend(f, a[1..], b);
    }
  }

  /** Filtering keeps exactly the satisfying elements and their order. */
  lemma {:induction false} FilterIsSubseq<T(!new)>(f: T -> bool, s: seq<T>)
    ensures SubseqOf(Filter(f, s), s)
    decreases |s|
  {
    if |s| > 0 {
      FilterIsSubseq(f, s[1..]);
      if f(s[0]) {
        assert Filter(f, s)[1..] == Filter(f, s[1..]);
      } else {
        assert Filter(f, s) == Filter(f, s[1..]);
        SubseqDropHead(Filter(f, s), s);
      }
    }
  }

  /** Helper: a subsequence of `s[1..]` is a subsequence of `s`. */
  lemma {:induction false} SubseqDropHead<T(!new)>(a: seq<T>, s: seq<T>)
    requires |s| > 0 && SubseqOf(a, s[1..])
    ensures SubseqOf(a, s)
    decreases |s|, 0
  {
    if |a| > 0 && a[0] == s[0] {
      SubseqTail(a, s[1..]);
    }
  }

  /** Helper: dropping the head of a subsequence keeps it a subsequence. */
  lemma {:induction false} SubseqTail<T(!new)>(a: seq<T>, s: seq<T>)
    requires |a| > 0 && SubseqOf(a, s)
    ensures SubseqOf(a[1..], s)
    decreases |s|, 1
  {
    if a[0] != s[0] {
      SubseqTail(a, s[1..]);
    }
    SubseqDropHead(a[1..], s);
  }

  /** When every element passes, filtering is the identity. */
  lemma {:induction false} FilterAll<T(!new)>(f: T -> bool, s: seq<T>)
    requires forall i | 0 <= i < |s| :: f(s[i])
    ensures Filter(f, s) == s
    decreases |s|
  {
    if |s| > 0 {
      FilterAll(f, s[1..]);
    }
  }

  /** Two predicates that agree on the elements give the same filter. */
  lemma {:induction false} FilterCongruent<T(!new)>(f: T -> bool, g: T -> bool, s: seq<T>)
    requires forall i | 0 <= i < |s| :: f(s[i]) == g(s[i])
    ensures Filter(f, s) == Filter(g, s)
    decreases |s|
  {
    if |s| > 0 {
      FilterCongruent(f, g, s[1..]);
    }
  }

  lemma {:induction false} FilterNoDup<T(!new)>(f: T -> bool, s: seq<T>)
    requires NoDup(s)
    ensures NoDup(Filter(f, s))
    decreases |s|
  {
    if |s| > 0 {
      FilterNoDup(f, s[1..]);
      assert s[0] !in s[1..];
    }
  }

  /** The test "fails `f`". */
  function Not<T>(f: T -> bool): T -> bool {
    x => !f(x)
  }

  /** A filter and its negation split a list: together they keep every
      element once. */
  lemma {:induction false} FilterPartition<T(!new)>(f: T -> bool, s: seq<T>)
    ensures |Filter(f, s)| + |Filter(Not(f), s)| == |s|
    ensures multiset(Filter(f, s)) + multiset(Filter(Not(f), s)) == multiset(s)
    decreases |s|
  {
    if |s| > 0 {
      FilterPartition(f, s[1..]);
      assert s == [s[0]] + s[1..];
    }
  }

  /** Deduplicating a list without duplicates changes nothing. */
  lemma {:induction false} DedupeNoDup<T(!new)>(s: seq<T>)
    requires NoDup(s)
    ensures Dedupe(s) == s
    decreases |s|
  {
    if |s| > 0 {
      var p := s[..|s| - 1];
      DedupeNoDup(p);
      assert s[|s| - 1] !in p;
      assert p + [s[|s| - 1]] == s;
    }
  }

  /** The test "passes `f` but not `g`". */
  function AndNot<T>(f: T -> bool, g: T -> bool): T -> bool {
    x => f(x) && !g(x)
  }

  /** Among distinct elements, the `g`-elements not already kept by `f` are
      those passing `g` and failing `f`. */
  lemma {:induction false} FilterOutsideFilter<T(!new)>(f: T -> bool, g: T -> bool, s: seq<T>)
    requires NoDup(s)
    ensures Filter(Outside(Filter(f, s)), Filter(g, s)) == Filter(AndNot(g, f), s)
    decreases |s|
  {
    if |s| > 0 {
      var x, rest := s[0], s[1..];
      assert x !in rest;
      FilterOutsideFilter(f, g, rest);
      var kept, keptRest, gRest := Filter(f, s), Filter(f, rest), Filter(g, rest);
      assert kept == (if f(x) then [x] else []) + keptRest;
      assert Filter(g, s) == (if g(x) then [x] else []) + gRest;
      forall i | 0 <= i < |gRest|
        ensures Outside(kept)(gRest[i]) == Outside(keptRest)(gRest[i])
      {
        assert gRest[i] in rest;
      }
      FilterCongruent(Outside(kept), Outside(keptRest), gRest);
      FilterAppend(Outside(kept), if g(x) then [x] else [], gRest);
      assert x in kept <==> f(x);
      assert Filter(AndNot(g, f), s) == (if g(x) && !f(x) then [x] else []) + Filter(AndNot(g, f), rest);
    }
  }

  /** The test "not already among `a`". */
  function Outside<T(==)>(a: seq<T>): T -> bool {
    x => x !in a
  }

  /** `[...new Set([...a, ...b])]` for a duplicate-free `a`: all of `a`, then
      the elements of `b` that are not in `a`, deduplicated. */
  lemma {:induction false} DedupeAppend<T(!new)>(a: seq<T>, b: seq<T>)
    requires NoDup(a)
    ensures Dedupe(a + b) == a + Dedupe(Filter(Outside(a), b))
    decreases |b|
  {
    if |b| == 0 {
      assert a + b == a;
      DedupeNoDup(a);
    } else {
      var b', y := b[..|b| - 1], b[|b| - 1];
      assert b == b' + [y];
      DedupeAppend(a, b');
      DedupeAppendStep(a, b', y);
    }
  }

  /** The inductive step of `DedupeAppend`: one more element at the end. */
  lemma DedupeAppendStep<T(!new)>(a: seq<T>, b: seq<T>, y: T)
    requires Dedupe(a + b) == a + Dedupe(Filter(Outside(a), b))
    ensures Dedupe(a + (b + [y])) == a + Dedupe(Filter(Outside(a), b + [y]))
  {
    AppendAssoc(a, b, [y]);
    DedupeSnoc(a + b, y);
    var fb := Filter(Outside(a), b);
    var d' := Dedupe(fb);
    FilterAppend(Outside(a), b, [y]);
    if y in a {
      assert Filter(Outside(a), [y]) == [];
      assert Filter(Outside(a), b + [y]) == fb;
    } else {
      assert Filter(Outside(a), [y]) == [y];
      DedupeSnoc(fb, y);
      AppendAssoc(a, d', [y]);
    }
  }

  /** One more element at the end is kept exactly when it is new. */
  lemma DedupeSnoc<T(!new)>(s: seq<T>, y: T)
    ensures Dedupe(s + [y]) == if y in Dedupe(s) then Dedupe(s) else Dedupe(s) + [y]
  {
    assert (s + [y])[..|s + [y]| - 1] == s;
  }

  /** Cutting a list keeps a prefix of the cut of any extension. */
  lemma TakeAtMostPrefix<T>(a: seq<T>, b: seq<T>, n: nat)
    ensures TakeAtMost(a, n) <= TakeAtMost(a + b, n)
  {
    if |a| > n {
      assert (a + b)[..n] == a[..n];
    }
  }

  lemma AppendAssoc<T>(a: seq<T>, b: seq<T>, c: seq<T>)
    ensures (a + b) + c == a + (b + c)
  {
  }
}
