/** Sequence operations the components use through JavaScript's Array methods:
    `filter`, `filter(...).length`, `[...new Set(xs)]`, `slice`, `join` and `split`. */
module Seqs {

  /** `xs.filter(p)`: the elements satisfying `p`, in their original order. */
  function Filter<T>(s: seq<T>, p: T -> bool): (r: seq<T>)
    ensures |r| <= |s|
    ensures forall i :: 0 <= i < |r| ==> r[i] in s && p(r[i])
    ensures forall i :: 0 <= i < |s| && p(s[i]) ==> s[i] in r
  {
    if s == [] then [] else (if p(s[0]) then [s[0]] else []) + Filter(s[1..], p)
  }

  /** `xs.filter(p).length` */
  function Count<T>(s: seq<T>, p: T -> bool): nat
  {
    |Filter(s, p)|
  }

  /** `a` can be obtained from `b` by deleting elements: same elements, same relative order. */
  predicate IsSubseq<T(==)>(a: seq<T>, b: seq<T>)
    decreases |b|
  {
    if a == [] then true
    else if b == [] then false
    else (a[0] == b[0] && IsSubseq(a[1..], b[1..])) || IsSubseq(a, b[1..])
  }

  predicate NoDuplicates<T(==)>(s: seq<T>)
  {
    forall i, j :: 0 <= i < j < |s| ==> s[i] != s[j]
  }

  /** `[...new Set(s)]`: a Set keeps the first occurrence of each value, in insertion order. */
  function Dedup<T(==)>(s: seq<T>): (r: seq<T>)
    ensures NoDuplicates(r)
    ensures forall i :: 0 <= i < |r| ==> r[i] in s
    ensures forall i :: 0 <= i < |s| ==> s[i] in r
    ensures |r| <= |s|
  {
    if s == [] then []
    else
      var prefix := Dedup(s[..|s| - 1]);
      if s[|s| - 1] in prefix then prefix else prefix + [s[|s| - 1]]
  }

  /** `xs.slice(0, n)` */
  function Take<T>(s: seq<T>, n: nat): (r: seq<T>)
    ensures |r| == if n < |s| then n else |s|
    ensures r <= s
  {
    if n < |s| then s[..n] else s
  }

  /** `parts.join(sep)` */
  function Join(parts: seq<string>, sep: char): string
  {
    if |parts| == 0 then ""
    else if |parts| == 1 then parts[0]
    else parts[0] + [sep] + Join(parts[1..], sep)
  }

  /** `s.split(sep)` for a one-character separator: always at least one piece. */
  function Split(s: string, sep: char): (r: seq<string>)
    ensures |r| >= 1
  {
    if s == [] then [""]
    else
      var rest := Split(s[1..], sep);
      if s[0] == sep then [""] + rest else [[s[0]] + rest[0]] + rest[1..]
  }

  // ---------------------------------------------------------------------------
  // Filter

  /** A filtered list keeps the order of the list it came from. */
  lemma {:induction false} FilterIsSubseq<T>(s: seq<T>, p: T -> bool)
    ensures IsSubseq(Filter(s, p), s)
  {
    if s != [] {
      FilterIsSubseq(s[1..], p);
      assert Filter(s, p) == (if p(s[0]) then [s[0]] else []) + Filter(s[1..], p);
      if p(s[0]) {
        assert Filter(s, p)[1..] == Filter(s[1..], p);
      } else {
        assert Filter(s, p) == Filter(s[1..], p);
        if Filter(s, p) != [] {
          assert IsSubseq(Filter(s, p), s[1..]);
        }
      }
    }
  }

  /** One step of `Filter` on a suffix of a list. */
  lemma FilterStep<T>(s: seq<T>, k: nat, p: T -> bool)
    requires k < |s|
    ensures Filter(s[k..], p) == (if p(s[k]) then [s[k]] else []) + Filter(s[k + 1..], p)
  {
    assert s[k..][1..] == s[k + 1..];
  }

  /** Filtering with a predicate that holds everywhere returns the list itself. */
  lemma {:induction false} FilterAll<T>(s: seq<T>, p: T -> bool)
    requires forall x :: x in s ==> p(x)
    ensures Filter(s, p) == s
  {
    if s != [] {
      FilterAll(s[1..], p);
      assert s == [s[0]] + s[1..];
    }
  }

  /** Two successive filters are one filter by the conjunction: `xs.filter(p).filter(q)`. */
  lemma {:induction false} FilterFuse<T>(s: seq<T>, p: T -> bool, q: T -> bool, pq: T -> bool)
    requires forall x :: pq(x) == (p(x) && q(x))
    ensures Filter(Filter(s, p), q) == Filter(s, pq)
  {
    if s != [] {
      FilterFuse(s[1..], p, q, pq);
      var head := if p(s[0]) then [s[0]] else [];
      FilterAppend(head, Filter(s[1..], p), q);
      if p(s[0]) {
        assert Filter(head, q) == if q(s[0]) then [s[0]] else [];
      }
    }
  }

  lemma {:induction false} FilterAppend<T>(a: seq<T>, b: seq<T>, p: T -> bool)
    ensures Filter(a + b, p) == Filter(a, p) + Filter(b, p)
  {
    if a != [] {
      FilterAppend(a[1..], b, p);
      assert (a + b)[1..] == a[1..] + b;
      assert Filter(a + b, p) == (if p(a[0]) then [a[0]] else []) + Filter(a[1..] + b, p);
    } else {
      assert a + b == b;
    }
  }

  /** The first filter of a chain that is applied only when `c` holds (`if (c) xs = xs.filter(q)`)
      is one filter by `!c || q`. */
  lemma FilterIfFirst<T>(s: seq<T>, c: bool, q: T -> bool, p: T -> bool)
    requires forall x :: p(x) == (!c || q(x))
    ensures (if c then Filter(s, q) else s) == Filter(s, p)
  {
    if c {
      FilterCongruent(s, q, p);
    } else {
      FilterAll(s, p);
    }
  }

  /** A further conditional filter of the chain adds the conjunct `!c || q`. */
  lemma FilterIfNext<T>(s: seq<T>, c: bool, p0: T -> bool, q: T -> bool, p1: T -> bool)
    requires forall x :: p1(x) == (p0(x) && (!c || q(x)))
    ensures (if c then Filter(Filter(s, p0), q) else Filter(s, p0)) == Filter(s, p1)
  {
    if c {
      FilterFuse(s, p0, q, p1);
    } else {
      FilterCongruent(s, p0, p1);
    }
  }

  /** Two filters that agree on every element of the list give the same result. */
  lemma {:induction false} FilterCongruent<T>(s: seq<T>, p: T -> bool, q: T -> bool)
    requires forall x :: x in s ==> p(x) == q(x)
    ensures Filter(s, p) == Filter(s, q)
  {
    if s != [] {
      FilterCongruent(s[1..], p, q);
    }
  }

  /** The elements kept and the elements dropped add up to the whole list. */
  lemma {:induction false} CountComplement<T>(s: seq<T>, p: T -> bool, notP: T -> bool)
    requires forall x :: notP(x) == !p(x)
    ensures Count(s, p) + Count(s, notP) == |s|
  {
    if s != [] {
      CountComplement(s[1..], p, notP);
    }
  }

  /** Counts of pairwise exclusive predicates never add up to more than the list length. */
  lemma {:induction false} CountExclusive4<T>(s: seq<T>, a: T -> bool, b: T -> bool, c: T -> bool, d: T -> bool)
    requires forall x :: (a(x) ==> !b(x) && !c(x) && !d(x)) && (b(x) ==> !c(x) && !d(x)) && (c(x) ==> !d(x))
    ensures Count(s, a) + Count(s, b) + Count(s, c) + Count(s, d) <= |s|
  {
    if s != [] {
      CountExclusive4(s[1..], a, b, c, d);
    }
  }

  // ---------------------------------------------------------------------------
  // Distinct values

  /** `new Set(xs)` as a mathematical set. */
  function SetOf<T>(s: seq<T>): set<T>
  {
    set i | 0 <= i < |s| :: s[i]
  }

  /** A list without duplicates has as many elements as the set of its elements. */
  lemma {:induction false} DistinctCard<T>(s: seq<T>)
    requires NoDuplicates(s)
    ensures |SetOf(s)| == |s|
  {
    if s != [] {
      var prefix := s[..|s| - 1];
      assert NoDuplicates(prefix);
      DistinctCard(prefix);
      assert SetOf(s) == SetOf(prefix) + {s[|s| - 1]} by {
        forall x ensures x in SetOf(s) <==> x in SetOf(prefix) + {s[|s| - 1]} {
          if x in SetOf(s) {
            var i :| 0 <= i < |s| && s[i] == x;
            if i < |s| - 1 {
              assert prefix[i] == x;
            }
          }
          if x in SetOf(prefix) {
            var i :| 0 <= i < |prefix| && prefix[i] == x;
            assert s[i] == x;
          }
        }
      }
      assert s[|s| - 1] !in SetOf(prefix) by {
        forall i | 0 <= i < |prefix| ensures prefix[i] != s[|s| - 1] {
          assert prefix[i] == s[i];
        }
      }
    }
  }

  /** `new Set(xs).size`: the length of the de-duplicated list is the number of distinct values,
      never more than the length of the list. */
  lemma DedupSize<T>(s: seq<T>)
    ensures |Dedup(s)| == |SetOf(s)|
    ensures |SetOf(s)| <= |s|
  {
    var r := Dedup(s);
    DistinctCard(r);
    assert SetOf(r) == SetOf(s) by {
      forall x ensures x in SetOf(r) <==> x in SetOf(s) {
        if x in SetOf(r) {
          var i :| 0 <= i < |r| && r[i] == x;
          assert r[i] in s;
        }
        if x in SetOf(s) {
          var i :| 0 <= i < |s| && s[i] == x;
          assert s[i] in r;
          var j :| 0 <= j < |r| && r[j] == x;
        }
      }
    }
  }

  // ---------------------------------------------------------------------------
  // Subsequences

  lemma {:induction false} SubseqMembers<T>(a: seq<T>, b: seq<T>)
    requires IsSubseq(a, b)
    ensures forall x :: x in a ==> x in b
    decreases |b|
  {
    if a != [] && b != [] {
      if a[0] == b[0] && IsSubseq(a[1..], b[1..]) {
        SubseqMembers(a[1..], b[1..]);
        assert a == [a[0]] + a[1..];
      } else {
        SubseqMembers(a, b[1..]);
      }
    }
  }

  /** A subsequence of a list sorted by `le` is sorted by `le` too. */
  lemma {:induction false} SubseqKeepsSorted<T>(a: seq<T>, b: seq<T>, le: (T, T) -> bool)
    requires IsSubseq(a, b)
    requires forall i, j :: 0 <= i < j < |b| ==> le(b[i], b[j])
    ensures forall i, j :: 0 <= i < j < |a| ==> le(a[i], a[j])
    decreases |b|
  {
    if a != [] && b != [] {
      if a[0] == b[0] && IsSubseq(a[1..], b[1..]) {
        SubseqKeepsSorted(a[1..], b[1..], le);
        SubseqMembers(a[1..], b[1..]);
        forall i, j | 0 <= i < j < |a| ensures le(a[i], a[j]) {
          if i == 0 {
            assert a[j] == a[1..][j - 1];
            assert a[j] in b[1..];
            var k :| 0 <= k < |b[1..]| && b[1..][k] == a[j];
            assert b[k + 1] == a[j];
          } else {
            assert a[i] == a[1..][i - 1] && a[j] == a[1..][j - 1];
          }
        }
      } else {
        assert forall i, j :: 0 <= i < j < |b[1..]| ==> le(b[1..][i], b[1..][j]) by {
          forall i, j | 0 <= i < j < |b[1..]| ensures le(b[1..][i], b[1..][j]) {
            assert b[1..][i] == b[i + 1] && b[1..][j] == b[j + 1];
          }
        }
        SubseqKeepsSorted(a, b[1..], le);
      }
    }
  }

  // ---------------------------------------------------------------------------
  // Join and split

  lemma {:induction false} SplitNoSep(p: string, sep: char)
    requires sep !in p
    ensures Split(p, sep) == [p]
  {
    if p != [] {
      SplitNoSep(p[1..], sep);
      assert [p[0]] + p[1..] == p;
    }
  }

  lemma {:induction false} SplitAfterPiece(p: string, sep: char, rest: string)
    requires sep !in p
    ensures Split(p + [sep] + rest, sep) == [p] + Split(rest, sep)
  {
    if p == [] {
      assert p + [sep] + rest == [sep] + rest;
      assert ([sep] + rest)[1..] == rest;
    } else {
      SplitAfterPiece(p[1..], sep, rest);
      assert (p + [sep] + rest)[1..] == p[1..] + [sep] + rest;
      assert [p[0]] + p[1..] == p;
    }
  }

  /** Splitting a join gives the pieces back, as long as no piece contains the separator. */
  lemma {:induction false} SplitJoin(parts: seq<string>, sep: char)
    requires |parts| >= 1
    requires forall i :: 0 <= i < |parts| ==> sep !in parts[i]
    ensures Split(Join(parts, sep), sep) == parts
  {
    if |parts| == 1 {
      SplitNoSep(parts[0], sep);
    } else {
      SplitJoin(parts[1..], sep);
      SplitAfterPiece(parts[0], sep, Join(parts[1..], sep));
      assert parts == [parts[0]] + parts[1..];
    }
  }

  /** A join contains the separator only where a piece does or between two pieces. */
  lemma {:induction false} JoinNoSep(parts: seq<string>, sep: char, c: char)
    requires c != sep
    requires forall i :: 0 <= i < |parts| ==> c !in parts[i]
    ensures c !in Join(parts, sep)
  {
    if |parts| > 1 {
      JoinNoSep(parts[1..], sep, c);
    }
  }
}
