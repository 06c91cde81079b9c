/**
 * Stable sorting by a total preorder.
 *
 * The room engine sorts its per-tick rankings and its final results with
 * Python's `list.sort(key=...)`, which is stable: elements whose keys are
 * equal keep their relative order. That sort is a library routine, so the
 * model gives it a reference definition, a functional insertion sort that
 * places each new element after every element whose key is not larger, and
 * proves the three facts that pin a stable sort down: the output is sorted,
 * it is a permutation of the input, and within each class of equal keys the
 * input order survives.
 */
module Sorting {

  /** `le` compares sort keys: it is total and transitive. */
  ghost predicate TotalPreorder<T(!new)>(le: (T, T) -> bool) {
    && (forall a, b :: le(a, b) || le(b, a))
    && (forall a, b, c :: le(a, b) && le(b, c) ==> le(a, c))
  }

  predicate SortedBy<T>(s: seq<T>, le: (T, T) -> bool) {
    forall i, j :: 0 <= i < j < |s| ==> le(s[i], s[j])
  }

  /** `a` and `b` have equal sort keys. */
  predicate Tied<T>(a: T, b: T, le: (T, T) -> bool) {
    le(a, b) && le(b, a)
  }

  /** The elements of `s` whose key equals the key of `x`, in their order in `s`. */
  function TiedWith<T>(s: seq<T>, x: T, le: (T, T) -> bool): seq<T> {
    if s == [] then []
    else TiedWith(s[..|s| - 1], x, le) + (if Tied(s[|s| - 1], x, le) then [s[|s| - 1]] else [])
  }

  /** Insert `x` into sorted `s` after every element whose key is not larger than its own. */
  function Insert<T>(s: seq<T>, x: T, le: (T, T) -> bool): (r: seq<T>)
    ensures |r| == |s| + 1
    ensures multiset(r) == multiset(s) + multiset{x}
  {
    if s == [] then [x]
    else if le(s[|s| - 1], x) then s + [x]
    else
      assert s == s[..|s| - 1] + [s[|s| - 1]];
      Insert(s[..|s| - 1], x, le) + [s[|s| - 1]]
  }

  /** The stable sort of `s` by `le`. */
  function Sort<T>(s: seq<T>, le: (T, T) -> bool): (r: seq<T>)
    ensures |r| == |s|
    ensures multiset(r) == multiset(s)
  {
    if s == [] then []
    else
      assert s == s[..|s| - 1] + [s[|s| - 1]];
      Insert(Sort(s[..|s| - 1], le), s[|s| - 1], le)
  }

  lemma {:induction false} TiedWithAppend<T>(a: seq<T>, b: seq<T>, x: T, le: (T, T) -> bool)
    ensures TiedWith(a + b, x, le) == TiedWith(a, x, le) + TiedWith(b, x, le)
    decreases |b|
  {
    if b == [] {
      assert a + b == a;
    } else {
      var b' := b[..|b| - 1];
      assert (a + b)[..|a + b| - 1] == a + b';
      TiedWithAppend(a, b', x, le);
    }
  }

  lemma {:induction false} InsertSorted<T(!new)>(s: seq<T>, x: T, le: (T, T) -> bool)
    requires TotalPreorder(le)
    requires SortedBy(s, le)
    ensures SortedBy(Insert(s, x, le), le)
    decreases |s|
  {
    if s == [] {
    } else {
      var init, last := s[..|s| - 1], s[|s| - 1];
      if le(last, x) {
        var r := s + [x];
        forall i, j | 0 <= i < j < |r| ensures le(r[i], r[j]) {
          if j == |s| && i < |s| - 1 {
            assert le(s[i], last);
          }
        }
      } else {
        assert le(x, last);
        assert SortedBy(init, le);
        InsertSorted(init, x, le);
        var r' := Insert(init, x, le);
        forall i | 0 <= i < |r'| ensures le(r'[i], last) {
          var e := r'[i];
          assert e in multiset(r');
          if e != x {
            assert e in multiset(init);
            var k :| 0 <= k < |init| && init[k] == e;
            assert s[k] == e;
          }
        }
        var r := r' + [last];
        forall i, j | 0 <= i < j < |r| ensures le(r[i], r[j]) {
          if j < |r'| {
            assert r[i] == r'[i] && r[j] == r'[j];
          }
        }
      }
    }
  }

  lemma TiedWithOne<T>(e: T, y: T, le: (T, T) -> bool)
    ensures TiedWith([e], y, le) == if Tied(e, y, le) then [e] else []
  {
    assert [e][..0] == [];
    assert TiedWith([e], y, le) == TiedWith([], y, le) + (if Tied(e, y, le) then [e] else []);
  }

  lemma TiedWithSnoc<T>(a: seq<T>, e: T, y: T, le: (T, T) -> bool)
    ensures TiedWith(a + [e], y, le) == TiedWith(a, y, le) + TiedWith([e], y, le)
  {
    assert (a + [e])[..|a|] == a;
    TiedWithOne(e, y, le);
  }

  lemma {:induction false} InsertStable<T(!new)>(s: seq<T>, x: T, y: T, le: (T, T) -> bool)
    requires TotalPreorder(le)
    requires SortedBy(s, le)
    ensures TiedWith(Insert(s, x, le), y, le) == TiedWith(s, y, le) + TiedWith([x], y, le)
    decreases |s|
  {
    if s == [] {
      assert Insert(s, x, le) == [x];
      assert TiedWith(s, y, le) == [];
    } else if le(s[|s| - 1], x) {
      assert Insert(s, x, le) == s + [x];
      TiedWithSnoc(s, x, y, le);
    } else {
      var init, last := s[..|s| - 1], s[|s| - 1];
      var r' := Insert(init, x, le);
      assert Insert(s, x, le) == r' + [last];
      assert SortedBy(init, le);
      InsertStable(init, x, y, le);
      TiedWithSnoc(r', last, y, le);
      assert TiedWith(s, y, le) == TiedWith(init, y, le) + TiedWith([last], y, le) by {
        TiedWithOne(last, y, le);
      }
      TiedWithOne(x, y, le);
      TiedWithOne(last, y, le);
      NotBothTied(x, last, y, le);
      SwapEmpty(TiedWith(init, y, le), TiedWith([x], y, le), TiedWith([last], y, le));
    }
  }

  /** An element placed before `last` has a smaller key, so the two cannot share a key class. */
  lemma NotBothTied<T(!new)>(x: T, last: T, y: T, le: (T, T) -> bool)
    requires TotalPreorder(le) && !le(last, x)
    ensures !(Tied(x, y, le) && Tied(last, y, le))
  {
    assert Tied(x, y, le) && Tied(last, y, le) ==> le(last, y) && le(y, x);
  }

  lemma SwapEmpty<T>(a: seq<T>, b: seq<T>, c: seq<T>)
    requires b == [] || c == []
    ensures a + b + c == a + c + b
  {
  }

  /** The output of Sort is ordered by `le`. */
  lemma {:induction false} SortSorted<T(!new)>(s: seq<T>, le: (T, T) -> bool)
    requires TotalPreorder(le)
    ensures SortedBy(Sort(s, le), le)
    decreases |s|
  {
    if s != [] {
      SortSorted(s[..|s| - 1], le);
      InsertSorted(Sort(s[..|s| - 1], le), s[|s| - 1], le);
    }
  }

  /** Sort keeps the input order among elements with equal keys. */
  lemma {:induction false} SortStable<T(!new)>(s: seq<T>, y: T, le: (T, T) -> bool)
    requires TotalPreorder(le)
    ensures TiedWith(Sort(s, le), y, le) == TiedWith(s, y, le)
    decreases |s|
  {
    if s != [] {
      var init, last := s[..|s| - 1], s[|s| - 1];
      var one := TiedWith([last], y, le);
      TiedWithOne(last, y, le);
      assert Sort(s, le) == Insert(Sort(init, le), last, le);
      SortSorted(init, le);
      InsertStable(Sort(init, le), last, y, le);
      SortStable(init, y, le);
      assert TiedWith(s, y, le) == TiedWith(init, y, le) + one;
    }
  }

  /** An element of `s` tied with `x` shows up in TiedWith(s, x, le). */
  lemma {:induction false} TiedWithInto<T>(s: seq<T>, x: T, le: (T, T) -> bool, i: int)
    requires 0 <= i < |s| && Tied(s[i], x, le)
    ensures exists ip :: 0 <= ip < |TiedWith(s, x, le)| && TiedWith(s, x, le)[ip] == s[i]
    decreases |s|
  {
    var init := s[..|s| - 1];
    if i == |s| - 1 {
      assert TiedWith(s, x, le)[|TiedWith(init, x, le)|] == s[i];
    } else {
      TiedWithInto(init, x, le, i);
      var ip :| 0 <= ip < |TiedWith(init, x, le)| && TiedWith(init, x, le)[ip] == init[i];
      assert TiedWith(s, x, le)[ip] == s[i];
    }
  }

  /** Two elements of `s` tied with `x` show up in TiedWith(s, x, le) in the same order. */
  lemma {:induction false} TiedWithOrderInto<T>(s: seq<T>, x: T, le: (T, T) -> bool, i: int, j: int)
    requires 0 <= i < j < |s| && Tied(s[i], x, le) && Tied(s[j], x, le)
    ensures exists ip, jp ::
              && 0 <= ip < jp < |TiedWith(s, x, le)|
              && TiedWith(s, x, le)[ip] == s[i] && TiedWith(s, x, le)[jp] == s[j]
    decreases |s|
  {
    var init := s[..|s| - 1];
    var t, t' := TiedWith(s, x, le), TiedWith(init, x, le);
    if j == |s| - 1 {
      TiedWithInto(init, x, le, i);
      var ip :| 0 <= ip < |t'| && t'[ip] == init[i];
      assert t[ip] == s[i] && t[|t'|] == s[j];
    } else {
      TiedWithOrderInto(init, x, le, i, j);
      var ip, jp :| 0 <= ip < jp < |t'| && t'[ip] == init[i] && t'[jp] == init[j];
      assert t[ip] == s[i] && t[jp] == s[j];
    }
  }

  /** Every element of TiedWith(s, x, le) comes from `s`. */
  lemma {:induction false} TiedWithFrom<T>(s: seq<T>, x: T, le: (T, T) -> bool, ip: int)
    requires 0 <= ip < |TiedWith(s, x, le)|
    ensures exists a :: 0 <= a < |s| && s[a] == TiedWith(s, x, le)[ip]
    decreases |s|
  {
    var init := s[..|s| - 1];
    var t, t' := TiedWith(s, x, le), TiedWith(init, x, le);
    if ip < |t'| {
      TiedWithFrom(init, x, le, ip);
      var a :| 0 <= a < |init| && init[a] == t'[ip];
      assert s[a] == t[ip];
    } else {
      assert s[|s| - 1] == t[ip];
    }
  }

  /** Two elements of TiedWith(s, x, le) come from `s` in the same order. */
  lemma {:induction false} TiedWithOrderFrom<T>(s: seq<T>, x: T, le: (T, T) -> bool, ip: int, jp: int)
    requires 0 <= ip < jp < |TiedWith(s, x, le)|
    ensures exists a, b :: 0 <= a < b < |s| && s[a] == TiedWith(s, x, le)[ip] && s[b] == TiedWith(s, x, le)[jp]
    decreases |s|
  {
    var init := s[..|s| - 1];
    var t, t' := TiedWith(s, x, le), TiedWith(init, x, le);
    if jp < |t'| {
      TiedWithOrderFrom(init, x, le, ip, jp);
      var a, b :| 0 <= a < b < |init| && init[a] == t'[ip] && init[b] == t'[jp];
      assert s[a] == t[ip] && s[b] == t[jp];
    } else {
      TiedWithFrom(init, x, le, ip);
      var a :| 0 <= a < |init| && init[a] == t'[ip];
      assert s[a] == t[ip] && s[|s| - 1] == t[jp];
    }
  }

  /**
   * Stability, pairwise: two elements with equal keys that Sort puts at
   * positions i < j stood in that order in the input.
   */
  lemma SortKeepsTiedOrder<T(!new)>(s: seq<T>, le: (T, T) -> bool, i: int, j: int)
    requires TotalPreorder(le)
    requires 0 <= i < j < |s| && Tied(Sort(s, le)[i], Sort(s, le)[j], le)
    ensures exists a, b :: 0 <= a < b < |s| && s[a] == Sort(s, le)[i] && s[b] == Sort(s, le)[j]
  {
    var r := Sort(s, le);
    var x := r[i];
    assert le(x, x);
    TiedWithOrderInto(r, x, le, i, j);
    var ip, jp :| 0 <= ip < jp < |TiedWith(r, x, le)| && TiedWith(r, x, le)[ip] == r[i] && TiedWith(r, x, le)[jp] == r[j];
    SortStable(s, x, le);
    TiedWithOrderFrom(s, x, le, ip, jp);
  }
}
