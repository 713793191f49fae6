/** Parameter names: the order Rust's `Ord` for `String` puts them in, and the
    sorted, duplicate-free sequences that `Vec::sort` followed by `Vec::dedup`
    leave behind. Used by variable extraction and by the parameter registry. */
module Names {

  /** Strict lexicographic order on strings, compared character by character
      with a proper prefix first. Comparing code points is the same as Rust's
      byte-wise comparison of the UTF-8 encodings. */
  predicate Below(a: string, b: string)
    decreases |a|
  {
    |b| > 0 && (|a| == 0 || a[0] < b[0] || (a[0] == b[0] && Below(a[1..], b[1..])))
  }

  lemma {:induction false} BelowIrreflexive(a: string)
    ensures !Below(a, a)
    decreases |a|
  {
    if |a| > 0 {
      BelowIrreflexive(a[1..]);
    }
  }

  lemma {:induction false} BelowTransitive(a: string, b: string, c: string)
    requires Below(a, b) && Below(b, c)
    ensures Below(a, c)
    decreases |a|
  {
    if |a| > 0 && a[0] == b[0] && b[0] == c[0] {
      BelowTransitive(a[1..], b[1..], c[1..]);
    }
  }

  lemma {:induction false} BelowTotal(a: string, b: string)
    ensures a == b || Below(a, b) || Below(b, a)
    decreases |a|
  {
    if |a| > 0 && |b| > 0 && a[0] == b[0] {
      BelowTotal(a[1..], b[1..]);
      if a[1..] == b[1..] {
        assert a == [a[0]] + a[1..] && b == [b[0]] + b[1..];
      }
    }
  }

  lemma BelowAsymmetric(a: string, b: string)
    requires Below(a, b)
    ensures !Below(b, a)
  {
    if Below(b, a) {
      BelowTransitive(a, b, a);
      BelowIrreflexive(a);
    }
  }

  /** `a <= b` and `b < c` give `a < c`. */
  lemma AtMostThenBelow(a: string, b: string, c: string)
    requires !Below(b, a) && Below(b, c)
    ensures Below(a, c)
  {
    BelowTotal(a, b);
    if a != b {
      BelowTransitive(a, b, c);
    }
  }

  /** Ascending, equal neighbours allowed: what `Vec::sort` leaves. */
  predicate Sorted(s: seq<string>)
  {
    forall i, j :: 0 <= i < j < |s| ==> !Below(s[j], s[i])
  }

  /** Ascending with no repetition: what `sort` then `dedup` leaves. */
  predicate StrictlySorted(s: seq<string>)
  {
    forall i, j :: 0 <= i < j < |s| ==> Below(s[i], s[j])
  }

  function Elems(s: seq<string>): set<string>
  {
    set n | n in s
  }

  /** A sequence has at most as many distinct elements as entries. */
  lemma {:induction false} ElemsBound(s: seq<string>)
    ensures |Elems(s)| <= |s|
    decreases |s|
  {
    if s != [] {
      var p := s[..|s| - 1];
      ElemsBound(p);
      assert s == p + [s[|s| - 1]];
      assert Elems(s) == Elems(p) + {s[|s| - 1]};
    }
  }

  predicate IsLeast(m: string, names: set<string>)
  {
    m in names && forall n :: n in names && n != m ==> Below(m, n)
  }

  lemma {:induction false} LeastExists(names: set<string>)
    requires names != {}
    ensures exists m :: IsLeast(m, names)
    decreases names
  {
    var n :| n in names;
    var rest := names - {n};
    if rest == {} {
      assert names == {n};
      assert IsLeast(n, names);
    } else {
      LeastExists(rest);
      var m :| IsLeast(m, rest);
      BelowTotal(n, m);
      if Below(n, m) {
        forall k | k in names && k != n
          ensures Below(n, k)
        {
          if k != m {
            BelowTransitive(n, m, k);
          }
        }
        assert IsLeast(n, names);
      } else {
        assert IsLeast(m, names);
      }
    }
  }

  lemma LeastUnique(m: string, m': string, names: set<string>)
    requires IsLeast(m, names) && IsLeast(m', names)
    ensures m == m'
  {
    if m != m' {
      BelowAsymmetric(m, m');
    }
  }

  /** The names of a set in ascending order: the one strictly sorted sequence
      that holds exactly them (see SortedListOfSpec and SortedListOfUnique). */
  ghost function SortedListOf(names: set<string>): seq<string>
    decreases names
  {
    if names == {} then []
    else
      LeastExists(names);
      var m :| IsLeast(m, names);
      [m] + SortedListOf(names - {m})
  }

  /** The head of the sorted list is the least name, and the tail is the
      sorted list of the others. */
  lemma SortedListOfUnfold(names: set<string>)
    requires names != {}
    ensures |SortedListOf(names)| > 0
    ensures var m := SortedListOf(names)[0];
            IsLeast(m, names) && SortedListOf(names) == [m] + SortedListOf(names - {m})
  {
  }

  lemma {:induction false} SortedListOfSpec(names: set<string>)
    ensures StrictlySorted(SortedListOf(names))
    ensures Elems(SortedListOf(names)) == names
    ensures |SortedListOf(names)| == |names|
    decreases names
  {
    if names != {} {
      SortedListOfUnfold(names);
      var r := SortedListOf(names);
      var m := r[0];
      var rest := SortedListOf(names - {m});
      SortedListOfSpec(names - {m});
      assert Elems(r) == {m} + Elems(rest);
      ConsStrictlySorted(m, rest);
    }
  }

  /** A name below every element of a strictly sorted sequence can go in front. */
  lemma ConsStrictlySorted(m: string, rest: seq<string>)
    requires StrictlySorted(rest)
    requires forall n :: n in rest ==> Below(m, n)
    ensures StrictlySorted([m] + rest)
  {
    var r := [m] + rest;
    forall i, j | 0 <= i < j < |r|
      ensures Below(r[i], r[j])
    {
      if i == 0 {
        assert r[j] == rest[j - 1];
      } else {
        assert r[i] == rest[i - 1] && r[j] == rest[j - 1];
      }
    }
  }

  /** A strictly sorted sequence is the sorted list of its own elements. */
  lemma {:induction false} SortedListOfUnique(s: seq<string>)
    requires StrictlySorted(s)
    ensures s == SortedListOf(Elems(s))
    decreases |s|
  {
    if s != [] {
      var names := Elems(s);
      forall n | n in names && n != s[0]
        ensures Below(s[0], n)
      {
        var j :| 0 <= j < |s| && s[j] == n;
      }
      assert IsLeast(s[0], names);
      var r := SortedListOf(names);
      var m :| IsLeast(m, names) && r == [m] + SortedListOf(names - {m});
      LeastUnique(m, s[0], names);
      assert StrictlySorted(s[1..]);
      BelowIrreflexive(s[0]);
      assert Elems(s[1..]) == names - {s[0]} by {
        assert s == [s[0]] + s[1..];
        forall n | n in s[1..]
          ensures n != s[0]
        {
          var j :| 0 <= j < |s[1..]| && s[1..][j] == n;
          assert Below(s[0], s[j + 1]);
        }
      }
      SortedListOfUnique(s[1..]);
    }
  }

  /** Two strictly sorted sequences with the same elements are equal. */
  lemma StrictlySortedDetermined(s: seq<string>, t: seq<string>)
    requires StrictlySorted(s) && StrictlySorted(t)
    requires Elems(s) == Elems(t)
    ensures s == t
  {
    SortedListOfUnique(s);
    SortedListOfUnique(t);
  }

  /** `Vec::sort`: a sorted permutation of the input (an insertion sort here;
      any sort meets the same contract). */
  method Sort(s: seq<string>) returns (r: seq<string>)
    ensures Sorted(r)
    ensures multiset(r) == multiset(s)
  {
    r := [];
    for i := 0 to |s|
      invariant Sorted(r)
      invariant multiset(r) == multiset(s[..i])
    {
      assert s[..i + 1] == s[..i] + [s[i]];
      r := Insert(r, s[i]);
    }
    assert s[..|s|] == s;
  }

  /** One step of the insertion sort: `x` goes before the first element
      above it. */
  method Insert(r: seq<string>, x: string) returns (r': seq<string>)
    requires Sorted(r)
    ensures Sorted(r')
    ensures multiset(r') == multiset(r) + multiset{x}
  {
    var k := 0;
    while k < |r| && !Below(x, r[k])
      invariant 0 <= k <= |r|
      invariant forall j :: 0 <= j < k ==> !Below(x, r[j])
    {
      k := k + 1;
    }
    InsertKeepsSorted(r, x, k);
    assert r == r[..k] + r[k..];
    r' := r[..k] + [x] + r[k..];
  }

  /** Putting `x` after every element it is not below and before the rest
      keeps a sorted sequence sorted. */
  lemma InsertKeepsSorted(r: seq<string>, x: string, k: nat)
    requires Sorted(r) && k <= |r|
    requires forall j :: 0 <= j < k ==> !Below(x, r[j])
    requires k < |r| ==> Below(x, r[k])
    ensures Sorted(r[..k] + [x] + r[k..])
  {
    forall j | k <= j < |r|
      ensures !Below(r[j], x)
    {
      if Below(r[j], x) {
        BelowTransitive(r[j], x, r[k]);
        if j == k {
          BelowIrreflexive(r[k]);
        }
      }
    }
    var r' := r[..k] + [x] + r[k..];
    forall i, j | 0 <= i < j < |r'|
      ensures !Below(r'[j], r'[i])
    {
      if j < k || i > k {
      } else if i == k {
        assert r'[j] == r[j - 1];
      } else if j == k {
        assert r'[i] == r[i];
      } else {
        assert r'[i] == r[i] && r'[j] == r[j - 1];
      }
    }
  }

  /** `Vec::dedup`: each element equal to the one before it is dropped. */
  function Deduped(s: seq<string>): seq<string>
  {
    if |s| <= 1 then s
    else if s[|s| - 1] == s[|s| - 2] then Deduped(s[..|s| - 1])
    else Deduped(s[..|s| - 1]) + [s[|s| - 1]]
  }

  method Dedup(s: seq<string>) returns (r: seq<string>)
    ensures r == Deduped(s)
  {
    r := [];
    for i := 0 to |s|
      invariant r == Deduped(s[..i])
    {
      assert s[..i + 1][..i] == s[..i];
      if i == 0 || s[i] != s[i - 1] {
        r := r + [s[i]];
      }
    }
    assert s[..|s|] == s;
  }

  /** On a sorted sequence, dedup leaves every element once, in strict order. */
  lemma {:induction false} DedupedSorted(s: seq<string>)
    requires Sorted(s)
    ensures StrictlySorted(Deduped(s))
    ensures Elems(Deduped(s)) == Elems(s)
    decreases |s|
  {
    if |s| > 1 {
      var n := |s|;
      var p := s[..n - 1];
      assert Sorted(p);
      DedupedSorted(p);
      assert s == p + [s[n - 1]];
      assert Elems(s) == Elems(p) + {s[n - 1]};
      if s[n - 1] != s[n - 2] {
        assert !Below(s[n - 1], s[n - 2]);
        BelowTotal(s[n - 1], s[n - 2]);
        var d := Deduped(p);
        forall e | e in d
          ensures Below(e, s[n - 1])
        {
          assert e in Elems(p);
          var j :| 0 <= j < n - 1 && p[j] == e;
          if j < n - 2 {
            assert !Below(s[n - 2], s[j]);
          } else {
            BelowIrreflexive(e);
          }
          AtMostThenBelow(e, s[n - 2], s[n - 1]);
        }
        var r := d + [s[n - 1]];
        forall i, j | 0 <= i < j < |r|
          ensures Below(r[i], r[j])
        {
          if j == |r| - 1 {
            assert r[i] in d;
          }
        }
      }
    }
  }

  /** Sorting and then deduplicating yields the sorted list of the elements. */
  lemma SortDedupIsSortedList(s: seq<string>, sorted: seq<string>)
    requires Sorted(sorted) && multiset(sorted) == multiset(s)
    ensures Deduped(sorted) == SortedListOf(Elems(s))
  {
    assert Elems(sorted) == Elems(s) by {
      forall n
        ensures n in sorted <==> n in s
      {
        assert n in sorted <==> n in multiset(sorted);
        assert n in s <==> n in multiset(s);
      }
    }
    DedupedSorted(sorted);
    SortedListOfUnique(Deduped(sorted));
  }

  /** `sort` followed by `dedup` on a vector of names: the sorted list of
      its distinct elements. */
  method SortAndDedup(s: seq<string>) returns (r: seq<string>)
    ensures r == SortedListOf(Elems(s))
  {
    var sorted := Sort(s);
    r := Dedup(sorted);
    SortDedupIsSortedList(s, sorted);
  }
}
