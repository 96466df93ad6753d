/**
 * `Array.prototype.filter` over sequences, with the facts about it that the
 * task list relies on: the result is the subsequence of the input made of
 * exactly the elements that pass the test, in their original order.
 */
module Seqs {

  /** `r` can be obtained from `s` by deleting elements, keeping the order of the rest. */
  ghost predicate IsSubsequence<T(!new)>(r: seq<T>, s: seq<T>)
    decreases |s|
  {
    r == [] ||
    (s != [] && ((r[0] == s[0] && IsSubsequence(r[1..], s[1..])) || IsSubsequence(r, s[1..])))
  }

  /** `s.filter(p)`: the elements of `s` that pass `p`. */
  function Filter<T(!new)>(s: seq<T>, p: T -> bool): (r: seq<T>)
    ensures |r| <= |s|
  {
    if s == [] then []
    else if p(s[0]) then [s[0]] + Filter(s[1..], p) else Filter(s[1..], p)
  }

  /** An element is in the filtered list exactly when it is in `s` and passes `p`. */
  lemma {:induction false} FilterMembers<T(!new)>(s: seq<T>, p: T -> bool)
    ensures forall x :: x in Filter(s, p) <==> x in s && p(x)
  {
    if s != [] {
      FilterMembers(s[1..], p);
      assert s == [s[0]] + s[1..];
    }
  }

  /** The filtered list keeps the order of `s`. */
  lemma {:induction false} FilterIsSubsequence<T(!new)>(s: seq<T>, p: T -> bool)
    ensures IsSubsequence(Filter(s, p), s)
  {
    if s != [] {
      FilterIsSubsequence(s[1..], p);
    }
  }

  /** The filtered list holds each passing element as often as `s`, and no failing one. */
  lemma {:induction false} FilterMultiset<T(!new)>(s: seq<T>, p: T -> bool)
    ensures forall x :: multiset(Filter(s, p))[x] == if p(x) then multiset(s)[x] else 0
  {
    if s != [] {
      FilterMultiset(s[1..], p);
      assert s == [s[0]] + s[1..];
    }
  }

  /** A subsequence never holds an element more often than the sequence does. */
  lemma {:induction false} SubsequenceMultiset<T(!new)>(r: seq<T>, s: seq<T>)
    requires IsSubsequence(r, s)
    ensures multiset(r) <= multiset(s)
    decreases |s|
  {
    if r == [] {
    } else if r[0] == s[0] && IsSubsequence(r[1..], s[1..]) {
      SubsequenceMultiset(r[1..], s[1..]);
      assert r == [r[0]] + r[1..];
      assert s == [s[0]] + s[1..];
    } else {
      SubsequenceMultiset(r, s[1..]);
      assert s == [s[0]] + s[1..];
    }
  }

  /** Dropping the first element of a subsequence leaves a subsequence of what follows any of its matches. */
  lemma {:induction false} SubsequenceTail<T(!new)>(r: seq<T>, s: seq<T>)
    requires r != [] && IsSubsequence(r, s)
    ensures IsSubsequence(r[1..], s)
    decreases |s|
  {
    if r[0] == s[0] && IsSubsequence(r[1..], s[1..]) {
      if r[1..] != [] {
        assert IsSubsequence(r[1..], s[1..]);
      }
    } else {
      SubsequenceTail(r, s[1..]);
    }
  }

  /**
   * `Filter` is the only subsequence of `s` that holds each passing element
   * exactly as often as `s` does and no failing element: an independent
   * characterisation of the filtered list.
   */
  lemma {:induction false} FilterUnique<T(!new)>(s: seq<T>, p: T -> bool, r: seq<T>)
    requires IsSubsequence(r, s)
    requires forall x :: multiset(r)[x] == if p(x) then multiset(s)[x] else 0
    ensures r == Filter(s, p)
    decreases |s|
  {
    if s == [] {
      assert r == [];
    } else {
      var a, s' := s[0], s[1..];
      assert s == [a] + s';
      if r == [] {
        forall x ensures !(x in s' && p(x)) {
          if x in s' && p(x) {
            assert false;
          }
        }
        FilterNone(s', p);
        if p(a) {
          assert false;
        }
      } else if p(a) {
        if r[0] != a {
          SubsequenceMultiset(r, s');
          assert false;
        }
        if !IsSubsequence(r[1..], s') {
          SubsequenceTail(r, s');
        }
        assert r == [a] + r[1..];
        FilterUnique(s', p, r[1..]);
      } else {
        if r[0] == a {
          assert false;
        }
        FilterUnique(s', p, r);
      }
    }
  }

  /** Every element fails the test: the filtered list is empty. */
  lemma {:induction false} FilterNone<T(!new)>(s: seq<T>, p: T -> bool)
    requires forall x :: x in s ==> !p(x)
    ensures Filter(s, p) == []
  {
    if s != [] {
      assert s[0] in s;
      FilterNone(s[1..], p);
    }
  }

  /** Every element passes the test: the filtered list is the list itself. */
  lemma {:induction false} FilterAll<T(!new)>(s: seq<T>, p: T -> bool)
    requires forall x :: x in s ==> p(x)
    ensures Filter(s, p) == s
  {
    if s != [] {
      assert s[0] in s;
      FilterAll(s[1..], p);
    }
  }

  /** Two filters commute. */
  lemma {:induction false} FilterCommutes<T(!new)>(s: seq<T>, p: T -> bool, q: T -> bool)
    ensures Filter(Filter(s, p), q) == Filter(Filter(s, q), p)
  {
    if s != [] {
      FilterCommutes(s[1..], p, q);
    }
  }

  /** Filtering distributes over concatenation. */
  lemma {:induction false} FilterAppend<T(!new)>(a: seq<T>, b: seq<T>, p: T -> bool)
    ensures Filter(a + b, p) == Filter(a, p) + Filter(b, p)
  {
    if a == [] {
      assert a + b == b;
    } else {
      var ab := a + b;
      assert ab[0] == a[0] && ab[1..] == a[1..] + b;
      FilterAppend(a[1..], b, p);
    }
  }

  /** Every element passes the test, position by position: the filtered list is the list itself. */
  lemma {:induction false} FilterAllAt<T(!new)>(s: seq<T>, p: T -> bool)
    requires forall j :: 0 <= j < |s| ==> p(s[j])
    ensures Filter(s, p) == s
  {
    if s != [] {
      assert forall j :: 0 <= j < |s| - 1 ==> s[1..][j] == s[j + 1];
      FilterAllAt(s[1..], p);
    }
  }

  /** Filtering skips an element that fails the test. */
  lemma FilterSkip<T(!new)>(a: seq<T>, x: T, b: seq<T>, p: T -> bool)
    requires !p(x)
    ensures Filter(a + [x] + b, p) == Filter(a, p) + Filter(b, p)
  {
    FilterAppend(a + [x], b, p);
    FilterAppend(a, [x], p);
    assert Filter([x], p) == [];
  }

  /** Filtering `s` skips its element at `i` when that element fails the test. */
  lemma FilterSkipAt<T(!new)>(s: seq<T>, p: T -> bool, i: nat)
    requires i < |s| && !p(s[i])
    ensures Filter(s, p) == Filter(s[..i], p) + Filter(s[i + 1..], p)
  {
    assert s == s[..i] + [s[i]] + s[i + 1..];
    FilterSkip(s[..i], s[i], s[i + 1..], p);
  }

  /** Every element of `s[lo..hi]` passes the test: filtering that slice keeps all of it. */
  lemma FilterAllSlice<T(!new)>(s: seq<T>, p: T -> bool, lo: nat, hi: nat)
    requires lo <= hi <= |s|
    requires forall j :: lo <= j < hi ==> p(s[j])
    ensures Filter(s[lo..hi], p) == s[lo..hi]
  {
    var c := s[lo..hi];
    assert forall j :: 0 <= j < |c| ==> c[j] == s[lo + j];
    FilterAllAt(c, p);
  }

  /** When the element at `i` is the only one to fail the test, filtering removes exactly that position. */
  lemma FilterDropsOne<T(!new)>(s: seq<T>, p: T -> bool, i: nat)
    requires i < |s| && !p(s[i])
    requires forall j :: 0 <= j < |s| && j != i ==> p(s[j])
    ensures Filter(s, p) == s[..i] + s[i + 1..]
  {
    FilterSkipAt(s, p, i);
    FilterAllSlice(s, p, 0, i);
    FilterAllSlice(s, p, i + 1, |s|);
    assert s[..i] == s[0..i] && s[i + 1..] == s[i + 1..|s|];
  }
}
