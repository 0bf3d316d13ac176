/** First and last elements of a finite set of stamps, as SQL's ORDER BY ... LIMIT picks them. */
module Ranking {
  import opened Prelude
  import opened Text

  /** The order of audit rows: by time, then by id. */
  datatype Stamp = Stamp(at: nat, id: string)

  predicate Less(a: Stamp, b: Stamp) {
    a.at < b.at || (a.at == b.at && StringLess(a.id, b.id))
  }

  /** `up` is ascending order, `!up` descending. */
  predicate Before(up: bool, a: Stamp, b: Stamp) {
    if up then Less(a, b) else Less(b, a)
  }

  lemma BeforeTotal(up: bool, a: Stamp, b: Stamp)
    ensures Before(up, a, b) || a == b || Before(up, b, a)
    ensures !(Before(up, a, b) && Before(up, b, a)) && !Before(up, a, a)
  {
    StringLessTotal(a.id, b.id);
    StringLessTotal(a.id, a.id);
  }

  lemma BeforeTransitive(up: bool, a: Stamp, b: Stamp, c: Stamp)
    requires Before(up, a, b) && Before(up, b, c)
    ensures Before(up, a, c)
  {
    if up && a.at == b.at == c.at {
      StringLessTransitive(a.id, b.id, c.id);
    } else if !up && a.at == b.at == c.at {
      StringLessTransitive(c.id, b.id, a.id);
    }
  }

  function Preceding(up: bool, s: set<Stamp>, x: Stamp): set<Stamp> {
    set y | y in s && Before(up, y, x)
  }

  /** The first `n` elements of `s`. */
  function First(up: bool, s: set<Stamp>, n: nat): set<Stamp> {
    set x | x in s && |Preceding(up, s, x)| < n
  }

  lemma SubsetSize<T>(a: set<T>, b: set<T>)
    requires a <= b
    ensures |a| <= |b| && (|a| == |b| ==> a == b)
  {
    assert b == a + (b - a);
  }

  /** A non-empty set has a last element. */
  lemma {:induction false} HasLast(up: bool, s: set<Stamp>) returns (last: Stamp)
    requires s != {}
    ensures last in s && forall y :: y in s && y != last ==> Before(up, y, last)
    decreases |s|
  {
    var x :| x in s;
    if s == {x} {
      last := x;
    } else {
      var rest := s - {x};
      var m := HasLast(up, rest);
      BeforeTotal(up, x, m);
      if Before(up, x, m) {
        last := m;
      } else {
        last := x;
        forall y | y in s && y != x ensures Before(up, y, x) {
          if y != m {
            BeforeTransitive(up, y, m, x);
          }
        }
      }
    }
  }

  lemma {:induction false} FirstSize(up: bool, s: set<Stamp>, n: nat)
    ensures |First(up, s, n)| == Min(n, |s|)
    decreases |s|
  {
    if s == {} {
      assert First(up, s, n) == {};
    } else {
      var last := HasLast(up, s);
      var rest := s - {last};
      FirstSize(up, rest, n);
      forall x | x in rest ensures Preceding(up, s, x) == Preceding(up, rest, x) {
        BeforeTotal(up, x, last);
      }
      BeforeTotal(up, last, last);
      assert Preceding(up, s, last) == rest;
      assert |rest| == |s| - 1;
      if |rest| < n {
        assert First(up, s, n) == First(up, rest, n) + {last};
      } else {
        assert First(up, s, n) == First(up, rest, n);
      }
    }
  }

  /** What is not among the first `n` comes after all of them. */
  lemma OthersComeAfter(up: bool, s: set<Stamp>, n: nat, x: Stamp)
    requires x in s && x !in First(up, s, n)
    ensures First(up, s, n) <= Preceding(up, s, x) && |First(up, s, n)| == n
  {
    SubsetSize(Preceding(up, s, x), s);
    FirstSize(up, s, n);
    forall y | y in First(up, s, n) ensures Before(up, y, x) {
      BeforeTotal(up, x, y);
      if Before(up, x, y) {
        forall z | z in Preceding(up, s, x) ensures z in Preceding(up, s, y) {
          BeforeTransitive(up, z, x, y);
        }
        SubsetSize(Preceding(up, s, x), Preceding(up, s, y));
      }
    }
  }

  /** Removing elements that are not among the first `n` does not change which are. */
  lemma FirstSqueeze(up: bool, s: set<Stamp>, k: set<Stamp>, n: nat)
    requires First(up, s, n) <= k <= s
    ensures First(up, k, n) == First(up, s, n)
  {
    forall x | x in k ensures x in First(up, k, n) <==> x in First(up, s, n) {
      SubsetSize(Preceding(up, k, x), Preceding(up, s, x));
      if x !in First(up, s, n) {
        OthersComeAfter(up, s, n, x);
        SubsetSize(First(up, s, n), Preceding(up, k, x));
      }
    }
  }

  lemma FirstGrows(up: bool, s: set<Stamp>, n: nat, m: nat)
    requires n <= m
    ensures First(up, s, n) <= First(up, s, m)
  {
  }

  /** Adding one element pushes others back, and never forward. */
  lemma FirstOneMore(up: bool, s: set<Stamp>, x: Stamp, n: nat)
    ensures First(up, s + {x}, n) <= First(up, s, n) + {x}
  {
    forall y | y in First(up, s + {x}, n) && y != x ensures y in First(up, s, n) {
      SubsetSize(Preceding(up, s, y), Preceding(up, s + {x}, y));
    }
  }

  lemma UnionSize<T>(a: set<T>, b: set<T>)
    ensures |a + b| <= |a| + |b|
  {
    assert a + b == a + (b - a);
    SubsetSize(b - a, b);
  }

  lemma RanksAddUp(s: set<Stamp>, x: Stamp)
    requires x in s
    ensures |Preceding(true, s, x)| + 1 + |Preceding(false, s, x)| == |s|
  {
    var low, high := Preceding(true, s, x), Preceding(false, s, x);
    BeforeTotal(true, x, x);
    forall y | y in s ensures y in low || y == x || y in high
    ensures !(y in low && y in high) {
      BeforeTotal(true, y, x);
    }
    assert s == low + {x} + high && low !! high;
  }

  /** The first `a` and the last `b` miss nothing if and only if there are at most `a + b`. */
  lemma BothEndsCover(s: set<Stamp>, a: nat, b: nat)
    ensures First(true, s, a) + First(false, s, b) == s <==> |s| <= a + b
  {
    FirstSize(true, s, a);
    FirstSize(false, s, b);
    var kept := First(true, s, a) + First(false, s, b);
    if |s| <= a + b {
      forall x | x in s ensures x in kept {
        RanksAddUp(s, x);
      }
    } else {
      UnionSize(First(true, s, a), First(false, s, b));
    }
  }
}
