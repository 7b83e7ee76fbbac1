/** `OrderByDescending(x => x.Confidence)`: a stable sort of an enumeration, highest confidence first. */
module Ranking {
  import opened ObjectClasses

  /** Confidences never increase along `s`. */
  predicate SortedDesc(s: seq<ObjectClass>) {
    forall i, j | 0 <= i < j < |s| :: s[j].confidence <= s[i].confidence
  }

  predicate NoDuplicates<T(==)>(s: seq<T>) {
    forall i, j | 0 <= i < j < |s| :: s[i] != s[j]
  }

  /** Places `x` before the first element whose confidence is lower than or equal to its own. `x` therefore
      goes ahead of its ties, which is what makes `OrderByDescending` below stable when it inserts from the back. */
  function Insert(x: ObjectClass, s: seq<ObjectClass>): (r: seq<ObjectClass>)
    requires SortedDesc(s)
    ensures SortedDesc(r)
    ensures multiset(r) == multiset(s) + multiset{x}
  {
    if |s| == 0 || s[0].confidence <= x.confidence then
      [x] + s
    else
      var rest := Insert(x, s[1..]);
      assert s == [s[0]] + s[1..];
      assert forall y | y in rest :: y.confidence <= s[0].confidence by {
        forall y | y in rest
          ensures y.confidence <= s[0].confidence
        {
          assert y in multiset(rest);
          assert y == x || y in multiset(s[1..]);
        }
      }
      [s[0]] + rest
  }

  /** Inserting an absent element into a duplicate-free sequence keeps it duplicate-free. */
  lemma {:induction false} InsertKeepsDistinct(x: ObjectClass, s: seq<ObjectClass>)
    requires SortedDesc(s) && NoDuplicates(s) && x !in s
    ensures NoDuplicates(Insert(x, s))
  {
    if |s| == 0 || s[0].confidence <= x.confidence {
    } else {
      assert s == [s[0]] + s[1..];
      InsertKeepsDistinct(x, s[1..]);
      var rest := Insert(x, s[1..]);
      assert s[0] !in multiset(rest) by {
        assert s[0] != x;
        assert s[0] !in s[1..];
      }
    }
  }

  /** The stable descending sort: a permutation of its input in non-increasing confidence order. */
  function OrderByDescending(s: seq<ObjectClass>): (r: seq<ObjectClass>)
    ensures SortedDesc(r)
    ensures multiset(r) == multiset(s)
  {
    if |s| == 0 then []
    else
      var rest := OrderByDescending(s[1..]);
      assert s == [s[0]] + s[1..];
      Insert(s[0], rest)
  }

  /** Sorting a duplicate-free enumeration yields a duplicate-free sequence. */
  lemma {:induction false} SortKeepsDistinct(s: seq<ObjectClass>)
    requires NoDuplicates(s)
    ensures NoDuplicates(OrderByDescending(s))
  {
    if |s| > 0 {
      assert s == [s[0]] + s[1..];
      SortKeepsDistinct(s[1..]);
      var rest := OrderByDescending(s[1..]);
      assert s[0] !in rest by {
        assert s[0] !in multiset(s[1..]);
      }
      InsertKeepsDistinct(s[0], rest);
    }
  }

  /** A duplicate-free sequence has as many elements as its set. */
  lemma {:induction false} DistinctCardinality<T>(s: seq<T>)
    requires NoDuplicates(s)
    ensures |set x | x in s| == |s|
  {
    if |s| > 0 {
      DistinctCardinality(s[1..]);
      assert (set x | x in s) == (set x | x in s[1..]) + {s[0]};
      assert s[0] !in (set x | x in s[1..]);
    }
  }

  /** `Take(n)` of a sorted duplicate-free sequence: n distinct elements of `s`, still sorted, and
      everything left out ranks no higher than anything kept. */
  lemma TakeOfSorted(s: seq<ObjectClass>, n: nat)
    requires SortedDesc(s) && NoDuplicates(s) && n <= |s|
    ensures |s[..n]| == n && SortedDesc(s[..n]) && NoDuplicates(s[..n])
    ensures forall x | x in s[..n] :: x in s
    ensures forall x, y | x in s && x !in s[..n] && y in s[..n] :: x.confidence <= y.confidence
  {
    forall x, y | x in s && x !in s[..n] && y in s[..n]
      ensures x.confidence <= y.confidence
    {
      var j :| 0 <= j < |s| && s[j] == x;
      var i :| 0 <= i < n && s[..n][i] == y;
      assert j >= n;
    }
  }
}
