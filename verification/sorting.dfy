/** `Array.prototype.sort` with a consistent comparator, as a stable
    insertion sort over sequences. A comparator is given by the relation
    "`a` may come before `b`" (`cmp(a, b) <= 0`), which must be a total
    preorder for the result to be well defined. */
module Sorting {

  /** Every pair is comparable and the relation is transitive. */
  ghost predicate TotalPreorder<T(!new)>(le: (T, T) -> bool)
  {
    && (forall a, b :: le(a, b) || le(b, a))
    && (forall a, b, c :: le(a, b) && le(b, c) ==> le(a, c))
  }

  lemma Reflexive<T(!new)>(a: T, le: (T, T) -> bool)
    requires TotalPreorder(le)
    ensures le(a, a)
  {
  }

  predicate SortedBy<T>(s: seq<T>, le: (T, T) -> bool)
  {
    forall i, j :: 0 <= i < j < |s| ==> le(s[i], s[j])
  }

  /** `x` placed before the first element it may precede. */
  function Insert<T(!new)>(x: T, s: seq<T>, le: (T, T) -> bool): (r: seq<T>)
    requires TotalPreorder(le) && SortedBy(s, le)
    ensures |r| == |s| + 1
    ensures multiset(r) == multiset(s) + multiset{x}
    ensures SortedBy(r, le)
  {
    if |s| == 0 then [x]
    else if le(x, s[0]) then
      InFront(x, s, le);
      [x] + s
    else
      var rest := Insert(x, s[1..], le);
      Behind(x, s, rest, le);
      [s[0]] + rest
  }

  lemma InFront<T(!new)>(x: T, s: seq<T>, le: (T, T) -> bool)
    requires TotalPreorder(le) && SortedBy(s, le) && |s| > 0 && le(x, s[0])
    ensures SortedBy([x] + s, le)
  {
    assert forall j :: 0 < j < |s| ==> le(s[0], s[j]);
  }

  /** `s[0]` may precede everything `x` was inserted among after it. */
  lemma Behind<T(!new)>(x: T, s: seq<T>, rest: seq<T>, le: (T, T) -> bool)
    requires TotalPreorder(le) && SortedBy(s, le) && |s| > 0 && !le(x, s[0])
    requires multiset(rest) == multiset(s[1..]) + multiset{x} && SortedBy(rest, le)
    ensures multiset([s[0]] + rest) == multiset(s) + multiset{x}
    ensures SortedBy([s[0]] + rest, le)
  {
    assert s == [s[0]] + s[1..];
    assert forall e | e in rest :: le(s[0], e) by {
      forall e | e in rest ensures le(s[0], e) {
        assert e in multiset(rest);
        if e != x {
          assert e in multiset(s[1..]);
          var j :| 0 <= j < |s[1..]| && s[1..][j] == e;
          assert s[j + 1] == e;
        }
      }
    }
    var r := [s[0]] + rest;
    forall i, j | 0 <= i < j < |r| ensures le(r[i], r[j]) {
      assert r[j] == rest[j - 1];
      if i > 0 {
        assert r[i] == rest[i - 1];
      } else {
        assert rest[j - 1] in rest;
      }
    }
  }

  /** The sorted arrangement of `s`. */
  function Sort<T(!new)>(s: seq<T>, le: (T, T) -> bool): (r: seq<T>)
    requires TotalPreorder(le)
    ensures |r| == |s|
    ensures multiset(r) == multiset(s)
    ensures SortedBy(r, le)
  {
    if |s| == 0 then []
    else
      assert s == [s[0]] + s[1..];
      Insert(s[0], Sort(s[1..], le), le)
  }

  /** The head of a sorted arrangement may precede every element of the
      input: taking the first element picks a minimum. */
  lemma SortHeadMinimal<T(!new)>(s: seq<T>, le: (T, T) -> bool)
    requires TotalPreorder(le) && |s| > 0
    ensures forall x | x in s :: le(Sort(s, le)[0], x)
  {
    var r := Sort(s, le);
    forall x | x in s ensures le(r[0], x) {
      assert x in multiset(s);
      assert x in multiset(r);
      var k :| 0 <= k < |r| && r[k] == x;
      if k == 0 {
        Reflexive(x, le);
      }
    }
  }

  /** Sorting what is already sorted changes nothing; in particular
      sorting is idempotent. */
  lemma {:induction false} SortSorted<T(!new)>(s: seq<T>, le: (T, T) -> bool)
    requires TotalPreorder(le) && SortedBy(s, le)
    ensures Sort(s, le) == s
  {
    if |s| > 0 {
      assert SortedBy(s[1..], le);
      SortSorted(s[1..], le);
      assert Sort(s[1..], le) == s[1..];
      if |s| > 1 {
        assert le(s[0], s[1]);
      }
      assert s == [s[0]] + s[1..];
    }
  }

  lemma SortIdempotent<T(!new)>(s: seq<T>, le: (T, T) -> bool)
    requires TotalPreorder(le)
    ensures Sort(Sort(s, le), le) == Sort(s, le)
  {
    SortSorted(Sort(s, le), le);
  }

  /** In a sorted sequence each of the first `n` elements may precede every
      element left out of them. */
  lemma PrefixPrecedesRest<T>(s: seq<T>, n: nat, le: (T, T) -> bool)
    requires SortedBy(s, le) && n <= |s|
    ensures multiset(s) == multiset(s[..n]) + multiset(s[n..])
    ensures forall x, i | x in multiset(s) - multiset(s[..n]) && 0 <= i < n :: le(s[i], x)
  {
    assert s == s[..n] + s[n..];
    forall x, i | x in multiset(s) - multiset(s[..n]) && 0 <= i < n ensures le(s[i], x) {
      assert x in multiset(s[n..]);
      var k :| 0 <= k < |s[n..]| && s[n..][k] == x;
      assert s[n + k] == x;
    }
  }

  /** `m` may precede everything in `s`. */
  predicate Least<T>(m: T, s: seq<T>, le: (T, T) -> bool)
  {
    forall j :: 0 <= j < |s| ==> le(m, s[j])
  }

  /** `s[i]` is the earliest element of `s` that may precede all others. */
  predicate FirstLeast<T>(s: seq<T>, i: int, le: (T, T) -> bool)
  {
    && 0 <= i < |s| && Least(s[i], s, le)
    && forall j :: 0 <= j < i ==> !Least(s[j], s, le)
  }

  lemma LeastSplit<T>(m: T, s: seq<T>, le: (T, T) -> bool)
    requires |s| > 0
    ensures Least(m, s, le) <==> le(m, s[0]) && Least(m, s[1..], le)
  {
    if le(m, s[0]) && Least(m, s[1..], le) {
      forall j | 0 < j < |s| ensures le(m, s[j]) {
        assert s[j] == s[1..][j - 1];
      }
    }
  }

  /** Stability at the head: the first element of the sorted arrangement is
      the earliest element of the input that may precede all others. */
  lemma {:induction false} SortHeadFirstLeast<T(!new)>(s: seq<T>, le: (T, T) -> bool)
    requires TotalPreorder(le) && |s| > 0
    ensures exists i :: FirstLeast(s, i, le) && Sort(s, le)[0] == s[i]
  {
    var t := Sort(s[1..], le);
    assert s == [s[0]] + s[1..];
    if Least(s[0], s, le) {
      if |t| > 0 {
        assert t[0] in multiset(s[1..]);
        var k :| 0 <= k < |s[1..]| && s[1..][k] == t[0];
        assert s[k + 1] == t[0];
        assert le(s[0], t[0]);
      }
      assert FirstLeast(s, 0, le);
    } else {
      SortHeadFirstLeast(s[1..], le);
      var i :| FirstLeast(s[1..], i, le) && t[0] == s[1..][i];
      HeadSkipped(s, i, le);
    }
  }

  /** When `s[0]` is not least, the first least element of `s` is the first
      least element of its tail, and the tail's sorted head stays in front. */
  lemma HeadSkipped<T(!new)>(s: seq<T>, i: int, le: (T, T) -> bool)
    requires TotalPreorder(le) && |s| > 1 && !Least(s[0], s, le)
    requires FirstLeast(s[1..], i, le) && Sort(s[1..], le)[0] == s[1..][i]
    ensures FirstLeast(s, i + 1, le) && Sort(s, le)[0] == s[i + 1]
  {
    var m := s[i + 1];
    LeastSplit(s[0], s, le);
    LeastSplit(m, s, le);
    Reflexive(s[0], le);
    var k :| 0 <= k < |s| && !le(s[0], s[k]);
    assert k > 0;
    assert le(m, s[k]) by {
      assert s[k] == s[1..][k - 1];
    }
    assert !le(s[0], m);
    assert le(m, s[0]);
    assert Least(m, s, le);
    forall j | 0 <= j < i + 1 ensures !Least(s[j], s, le) {
      if j > 0 {
        LeastSplit(s[j], s, le);
        assert s[j] == s[1..][j - 1];
      }
    }
    assert s == [s[0]] + s[1..];
  }
}
