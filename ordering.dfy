/** The pieces of `[...new Set(xs)].sort().reverse()`: a Set that keeps
    first occurrences in insertion order, Array.prototype.sort with its
    default string comparison, and reverse. */
module Ordering {

  /** The default comparison of Array.prototype.sort on strings: character
      by character from the left, a proper prefix before its extensions. */
  predicate Below(a: string, b: string)
    decreases |a|
  {
    if a == [] then b != []
    else if b == [] then false
    else if a[0] != b[0] then a[0] < b[0]
    else Below(a[1..], b[1..])
  }

  predicate AtMost(a: string, b: string) {
    a == b || Below(a, b)
  }

  lemma {:induction false} BelowIrreflexive(a: string)
    ensures !Below(a, a)
    decreases |a|
  {
    if a != [] {
      BelowIrreflexive(a[1..]);
    }
  }

  lemma {:induction false} BelowTransitive(a: string, b: string, c: string)
    requires Below(a, b) && Below(b, c)
    ensures Below(a, c)
    decreases |a|
  {
    if a != [] && a[0] == b[0] && b[0] == c[0] {
      BelowTransitive(a[1..], b[1..], c[1..]);
    }
  }

  lemma {:induction false} BelowTotal(a: string, b: string)
    ensures a == b || Below(a, b) || Below(b, a)
    decreases |a|
  {
    if a != [] && b != [] && a[0] == b[0] {
      BelowTotal(a[1..], b[1..]);
      if a[1..] == b[1..] {
        assert a == [a[0]] + a[1..] && b == [b[0]] + b[1..];
      }
    }
  }

  lemma BelowAsymmetric(a: string, b: string)
    requires Below(a, b)
    ensures !Below(b, a)
  {
    if Below(b, a) {
      BelowTransitive(a, b, a);
      BelowIrreflexive(a);
    }
  }

  lemma AtMostTransitive(a: string, b: string, c: string)
    requires AtMost(a, b) && AtMost(b, c)
    ensures AtMost(a, c)
  {
    if a != b && b != c {
      BelowTransitive(a, b, c);
    }
  }

  ghost predicate Ascending(s: seq<string>) {
    forall i, j :: 0 <= i < j < |s| ==> AtMost(s[i], s[j])
  }

  ghost predicate StrictlyDescending(s: seq<string>) {
    forall i, j :: 0 <= i < j < |s| ==> Below(s[j], s[i])
  }

  ghost predicate NoDuplicates(s: seq<string>) {
    forall i, j :: 0 <= i < j < |s| ==> s[i] != s[j]
  }

  /** Inserts `x` into an ascending list before the first element not below it. */
  function Insert(x: string, s: seq<string>): (r: seq<string>)
    requires Ascending(s)
    ensures Ascending(r)
    ensures multiset(r) == multiset(s) + multiset{x}
    decreases |s|
  {
    if s == [] then [x]
    else if AtMost(x, s[0]) then
      assert forall k :: 0 <= k < |s| ==> AtMost(x, s[k]) by {
        forall k | 0 <= k < |s| ensures AtMost(x, s[k]) {
          if k > 0 { AtMostTransitive(x, s[0], s[k]); }
        }
      }
      [x] + s
    else
      var t := Insert(x, s[1..]);
      assert s == [s[0]] + s[1..];
      assert AtMost(s[0], x) by { BelowTotal(x, s[0]); }
      assert forall k :: 0 <= k < |t| ==> AtMost(s[0], t[k]) by {
        forall k | 0 <= k < |t| ensures AtMost(s[0], t[k]) {
          assert t[k] in multiset(t);
          if t[k] != x {
            assert t[k] in multiset(s[1..]);
            var m :| 0 <= m < |s[1..]| && s[1..][m] == t[k];
            assert s[m + 1] == t[k];
          }
        }
      }
      [s[0]] + t
  }

  /** Insertion sort: an ascending permutation of the input. */
  function SortAscending(s: seq<string>): (r: seq<string>)
    ensures Ascending(r)
    ensures multiset(r) == multiset(s)
    decreases |s|
  {
    if s == [] then []
    else
      assert s == [s[0]] + s[1..];
      Insert(s[0], SortAscending(s[1..]))
  }

  /** `[...new Set(s)]`: the first occurrence of each element, in order. */
  function Distinct(s: seq<string>): (r: seq<string>)
    ensures forall y :: y in r <==> y in s
    ensures NoDuplicates(r)
    decreases |s|
  {
    if s == [] then []
    else
      var d := Distinct(s[..|s| - 1]);
      assert s == s[..|s| - 1] + [s[|s| - 1]];
      if s[|s| - 1] in d then d else d + [s[|s| - 1]]
  }

  function Reverse(s: seq<string>): (r: seq<string>)
    ensures |r| == |s|
    ensures forall i :: 0 <= i < |s| ==> r[i] == s[|s| - 1 - i]
    decreases |s|
  {
    if s == [] then [] else Reverse(s[1..]) + [s[0]]
  }

  /** An element that occurs twice has multiplicity at least two. */
  lemma Twice(s: seq<string>, i: nat, j: nat)
    requires i < j < |s| && s[i] == s[j]
    ensures multiset(s)[s[i]] >= 2
  {
    assert s == s[..j] + s[j..];
    assert s[i] in s[..j];
    assert s[j] in s[j..];
  }

  lemma {:induction false} AtMostOnce(s: seq<string>)
    requires NoDuplicates(s)
    ensures forall y :: multiset(s)[y] <= 1
    decreases |s|
  {
    if s != [] {
      var p := s[..|s| - 1];
      AtMostOnce(p);
      assert s == p + [s[|s| - 1]];
      assert s[|s| - 1] !in p;
    }
  }

  /** A sorted permutation of a duplicate-free list, reversed, is strictly descending. */
  lemma {:induction false} SortedDistinctReversed(d: seq<string>)
    requires NoDuplicates(d)
    ensures StrictlyDescending(Reverse(SortAscending(d)))
  {
    var s := SortAscending(d);
    AtMostOnce(d);
    forall i, j | 0 <= i < j < |s| ensures Below(s[i], s[j]) {
      if s[i] == s[j] {
        Twice(s, i, j);
        assert false;
      }
    }
  }

  /** Sorting and reversing keep the elements. */
  lemma SameElements(s: seq<string>)
    ensures forall y :: y in SortAscending(s) <==> y in s
    ensures forall y :: y in Reverse(s) <==> y in s
  {
    var t := SortAscending(s);
    assert forall y :: y in t <==> y in multiset(t);
    assert forall y :: y in s <==> y in multiset(s);
    forall y | y in s ensures y in Reverse(s) {
      var k :| 0 <= k < |s| && s[k] == y;
      assert Reverse(s)[|s| - 1 - k] == y;
    }
  }

  /** A strictly descending list has no duplicates. */
  lemma DescendingNoDuplicates(s: seq<string>)
    requires StrictlyDescending(s)
    ensures NoDuplicates(s)
  {
    forall i, j | 0 <= i < j < |s| ensures s[i] != s[j] {
      BelowIrreflexive(s[i]);
    }
  }

  lemma NonEmptyHasHead(s: seq<string>)
    ensures s != [] ==> s[0] in s
  {
  }

  /** Two strictly descending lists with the same elements are equal: the
      result of sort-then-reverse depends only on the set of its inputs. */
  lemma {:induction false} StrictlyDescendingUnique(a: seq<string>, b: seq<string>)
    requires StrictlyDescending(a) && StrictlyDescending(b)
    requires forall y :: y in a <==> y in b
    ensures a == b
    decreases |a|
  {
    if a == [] {
      NonEmptyHasHead(b);
    } else {
      assert a[0] in b;
      assert b != [];
      if a[0] != b[0] {
        var k :| 0 < k < |b| && b[k] == a[0];
        assert b[0] in a;
        var m :| 0 < m < |a| && a[m] == b[0];
        BelowAsymmetric(b[k], b[0]);
      }
      forall y ensures y in a[1..] <==> y in b[1..] {
        if y in a[1..] {
          var m :| 0 <= m < |a[1..]| && a[1..][m] == y;
          assert Below(a[m + 1], a[0]);
          BelowIrreflexive(y);
          assert y in b;
        }
        if y in b[1..] {
          var m :| 0 <= m < |b[1..]| && b[1..][m] == y;
          assert Below(b[m + 1], b[0]);
          BelowIrreflexive(y);
          assert y in a;
        }
      }
      StrictlyDescendingUnique(a[1..], b[1..]);
      assert a == [a[0]] + a[1..] && b == [b[0]] + b[1..];
    }
  }
}
