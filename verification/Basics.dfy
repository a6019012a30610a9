// Small datatypes and facts about sequences and strings shared by every component.
module Basics {

  datatype Option<+T> = None | Some(value: T)

  // Go's (value, error) return pair: exactly one side is meaningful.
  datatype Result<+T> = Ok(value: T) | Err(error: string)

  predicate Distinct<T(==)>(s: seq<T>) {
    forall i, j :: 0 <= i < j < |s| ==> s[i] != s[j]
  }

  function ToSet<T>(s: seq<T>): set<T> {
    set x | x in s
  }

  // The first n elements, or all of them if there are fewer.
  function Cut<T>(s: seq<T>, n: nat): seq<T> {
    if |s| <= n then s else s[..n]
  }

  function Fold<S, R>(f: (S, R) -> S, s: S, rows: seq<R>): S {
    if rows == [] then s else f(Fold(f, s, rows[..|rows| - 1]), rows[|rows| - 1])
  }

  lemma FoldOne<S, R>(f: (S, R) -> S, s: S, r: R)
    ensures Fold(f, s, [r]) == f(s, r)
  {
    assert [r][..0] == [];
  }

  lemma TwoAreSnoc<R>(a: R, b: R)
    ensures [a, b] == [a] + [b]
  {
  }

  lemma ConcatTwo<R>(s: seq<R>, a: R, b: R)
    ensures s + [a, b] == s + [a] + [b]
  {
  }

  lemma TailOf<R>(a: R, rest: seq<R>)
    ensures ([a] + rest)[0] == a && ([a] + rest)[1..] == rest
  {
  }

  lemma FoldTwo<S, R>(f: (S, R) -> S, s: S, a: R, b: R)
    ensures Fold(f, s, [a, b]) == f(f(s, a), b)
  {
    FoldOne(f, s, a);
    FoldOne(f, f(s, a), b);
    TwoAreSnoc(a, b);
    FoldConcat(f, s, [a], [b]);
  }

  lemma PrefixSnoc<R>(s: seq<R>, n: nat)
    requires n < |s|
    ensures s[..n + 1] == s[..n] + [s[n]]
  {
  }

  lemma {:induction false} FoldConcat<S, R>(f: (S, R) -> S, s: S, a: seq<R>, b: seq<R>)
    ensures Fold(f, s, a + b) == Fold(f, Fold(f, s, a), b)
  {
    if b == [] {
      assert a + b == a;
    } else {
      var n := |b| - 1;
      FoldConcat(f, s, a, b[..n]);
      assert (a + b)[..|a| + n] == a + b[..n];
    }
  }

  // Cutting two equal strings at the k-th separator gives the same two halves.
  lemma SplitUnique(c: char, a: string, b: string, x: string, y: string)
    requires multiset(a)[c] == multiset(x)[c]
    requires a + [c] + b == x + [c] + y
    ensures a == x && b == y
  {
    if |a| == |x| {
      assert a == (a + [c] + b)[..|a|] && x == (x + [c] + y)[..|x|];
      assert b == (a + [c] + b)[|a| + 1..] && y == (x + [c] + y)[|x| + 1..];
    } else if |a| < |x| {
      SplitLonger(c, a, b, x, y);
    } else {
      SplitLonger(c, x, y, a, b);
    }
  }

  lemma SplitLonger(c: char, a: string, b: string, x: string, y: string)
    requires |a| < |x| && a + [c] + b == x + [c] + y
    ensures multiset(a)[c] < multiset(x)[c]
  {
    var w := a + [c] + b;
    assert w[..|x|] == x;
    assert a == w[..|a|] && w[|a|] == c;
    assert x == a + [c] + x[|a| + 1..];
  }

  lemma {:induction false} DistinctCardinality<T>(s: seq<T>)
    requires Distinct(s)
    ensures |ToSet(s)| == |s|
  {
    if s != [] {
      var n := |s| - 1;
      DistinctCardinality(s[..n]);
      assert s == s[..n] + [s[n]];
      assert ToSet(s) == ToSet(s[..n]) + {s[n]};
    }
  }

  lemma {:induction false} AtMostLength<T>(s: seq<T>)
    ensures |ToSet(s)| <= |s|
  {
    if s != [] {
      var n := |s| - 1;
      AtMostLength(s[..n]);
      assert s == s[..n] + [s[n]];
      assert ToSet(s) == ToSet(s[..n]) + {s[n]};
    }
  }

  lemma RepeatShrinks<T>(s: seq<T>)
    requires !Distinct(s)
    ensures |ToSet(s)| < |s|
  {
    var i, j :| 0 <= i < j < |s| && s[i] == s[j];
    var rest := s[..j] + s[j + 1..];
    assert rest[i] == s[j];
    assert ToSet(s) == ToSet(rest) by {
      forall x | x in s ensures x in rest {
        var k :| 0 <= k < |s| && s[k] == x;
        if k < j {
          assert rest[k] == x;
        } else if k > j {
          assert rest[k - 1] == x;
        }
      }
    }
    AtMostLength(rest);
  }

  lemma PutsUndone<K, V>(m: map<K, V>, a: K, x: V, b: K, y: V)
    requires a !in m && b !in m && a != b
    ensures m[a := x][b := y] - {a, b} == m
  {
  }

  predicate SameButOne<K, V(==)>(m: map<K, V>, n: map<K, V>, k: K, x: K) {
    (x in m <==> x in n && x != k) && (x in m ==> m[x] == n[x])
  }

  lemma MapLessOne<K(!new), V>(m: map<K, V>, n: map<K, V>, k: K)
    requires forall x :: SameButOne(m, n, k, x)
    ensures m == n - {k}
  {
    forall x ensures x in m <==> x in n - {k} {
      assert SameButOne(m, n, k, x);
    }
    forall x | x in m ensures m[x] == n[x] {
      assert SameButOne(m, n, k, x);
    }
  }

  lemma RemovedIff<K, V>(m: map<K, V>, k: K)
    ensures m - {k} == m <==> k !in m
  {
    if k in m {
      assert k !in m - {k};
    } else {
      assert m - {k} == m;
    }
  }
}
