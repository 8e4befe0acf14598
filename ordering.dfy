/** Python's `sorted(..., key=lambda b: b.name)` over blob names, and the
    sorted listing of a set of names that it always produces. */
module Ordering {
  import opened Text

  /** Non-decreasing in Python's string order. */
  predicate Sorted(s: seq<string>) {
    forall i, j :: 0 <= i < j < |s| ==> !LexLess(s[j], s[i])
  }

  /** Strictly increasing in Python's string order (so without repeats). */
  predicate StrictlySorted(s: seq<string>) {
    forall i, j :: 0 <= i < j < |s| ==> LexLess(s[i], s[j])
  }

  predicate Distinct(s: seq<string>) {
    forall i, j :: 0 <= i < j < |s| ==> s[i] != s[j]
  }

  /** Inserts `x` in front of the first element that is not smaller than it. */
  function Insert(x: string, s: seq<string>): (r: seq<string>)
    ensures multiset(r) == multiset(s) + multiset{x}
  {
    if s == [] then [x]
    else if !LexLess(s[0], x) then [x] + s
    else
      assert s == [s[0]] + s[1..];
      [s[0]] + Insert(x, s[1..])
  }

  lemma HeadIn(s: seq<string>)
    requires s != []
    ensures s[0] in s
  {
  }

  /** Every element of `Insert(x, s)` is `x` or an element of `s`. */
  lemma InsertElements(x: string, s: seq<string>, y: string)
    requires y in Insert(x, s)
    ensures y == x || y in s
  {
    assert y in multiset(Insert(x, s));
  }

  lemma {:induction false} InsertSorted(x: string, s: seq<string>)
    requires Sorted(s)
    ensures Sorted(Insert(x, s))
    decreases |s|
  {
    if s == [] {
    } else if !LexLess(s[0], x) {
      forall k | 0 <= k < |s| ensures !LexLess(s[k], x) {
        if k > 0 && LexLess(s[k], x) {
          LexTotal(s[0], s[k]);
          if s[0] != s[k] && !LexLess(s[k], s[0]) { LexTransitive(s[0], s[k], x); }
        }
      }
    } else {
      var t := Insert(x, s[1..]);
      InsertSorted(x, s[1..]);
      forall k | 0 <= k < |t| ensures !LexLess(t[k], s[0]) {
        assert t[k] in t;
        InsertElements(x, s[1..], t[k]);
        if t[k] == x {
          LexAsymmetric(s[0], x);
        } else {
          var m :| 0 <= m < |s[1..]| && s[1..][m] == t[k];
          assert s[m + 1] == t[k];
        }
      }
    }
  }

  lemma {:induction false} InsertStrictlySorted(x: string, s: seq<string>)
    requires StrictlySorted(s) && x !in s
    ensures StrictlySorted(Insert(x, s))
    decreases |s|
  {
    if s == [] {
    } else if !LexLess(s[0], x) {
      forall k | 0 <= k < |s| ensures LexLess(x, s[k]) {
        LexTotal(x, s[0]);
        if k > 0 { LexTransitive(x, s[0], s[k]); }
      }
    } else {
      var t := Insert(x, s[1..]);
      InsertStrictlySorted(x, s[1..]);
      forall k | 0 <= k < |t| ensures LexLess(s[0], t[k]) {
        assert t[k] in t;
        InsertElements(x, s[1..], t[k]);
        if t[k] != x {
          var m :| 0 <= m < |s[1..]| && s[1..][m] == t[k];
          assert s[m + 1] == t[k];
        }
      }
    }
  }

  /** `sorted(names)`: the same names in non-decreasing order, by insertion. */
  function SortByName(names: seq<string>): (r: seq<string>)
    ensures multiset(r) == multiset(names)
    ensures Sorted(r)
    ensures Distinct(names) ==> StrictlySorted(r)
  {
    if names == [] then []
    else
      var rest := SortByName(names[1..]);
      assert names == [names[0]] + names[1..];
      assert Distinct(names) ==> names[0] !in names[1..];
      InsertSorted(names[0], rest);
      if Distinct(names) then
        assert names[0] !in multiset(rest);
        InsertStrictlySorted(names[0], rest);
        Insert(names[0], rest)
      else
        Insert(names[0], rest)
  }

  ghost predicate IsLeast(m: string, ks: set<string>) {
    m in ks && forall y :: y in ks ==> !LexLess(y, m)
  }

  /** The least name of a non-empty set exists. */
  lemma {:induction false} LeastExists(ks: set<string>)
    requires ks != {}
    ensures exists m :: IsLeast(m, ks)
    decreases |ks|
  {
    var x :| x in ks;
    if ks == {x} {
      LexIrreflexive(x);
      assert IsLeast(x, ks);
    } else {
      LeastExists(ks - {x});
      var m' :| IsLeast(m', ks - {x});
      LexTotal(x, m');
      if LexLess(x, m') {
        forall y | y in ks ensures !LexLess(y, x) {
          if y == x { LexIrreflexive(x); }
          else if LexLess(y, x) { LexTransitive(y, x, m'); }
        }
        assert IsLeast(x, ks);
      } else {
        assert IsLeast(m', ks);
      }
    }
  }

  /** The names of `ks` in increasing order: what sorting any listing of them yields. */
  ghost function SortedNames(ks: set<string>): (r: seq<string>)
    ensures StrictlySorted(r)
    ensures forall y :: y in r <==> y in ks
    ensures |r| == |ks|
    decreases |ks|
  {
    if ks == {} then []
    else
      LeastExists(ks);
      var m :| IsLeast(m, ks);
      var rest := SortedNames(ks - {m});
      assert forall k :: 0 <= k < |rest| ==> LexLess(m, rest[k]) by {
        forall k | 0 <= k < |rest| ensures LexLess(m, rest[k]) {
          assert rest[k] in rest;
          LexTotal(m, rest[k]);
        }
      }
      [m] + rest
  }

  /** Two strictly sorted sequences with the same elements are equal. */
  lemma {:induction false} StrictlySortedUnique(a: seq<string>, b: seq<string>)
    requires StrictlySorted(a) && StrictlySorted(b)
    requires forall y :: y in a <==> y in b
    ensures a == b
    decreases |a|
  {
    if a != [] && b != [] {
      assert a[0] in b && b[0] in a;
      var i :| 0 <= i < |b| && b[i] == a[0];
      var j :| 0 <= j < |a| && a[j] == b[0];
      if a[0] != b[0] {
        assert 0 < i && 0 < j;
        LexAsymmetric(b[0], b[i]);
        assert false;
      }
      forall y ensures y in a[1..] <==> y in b[1..] {
        if y in a[1..] {
          var k :| 1 <= k < |a| && a[k] == y;
          LexIrreflexive(a[0]);
          assert y in b;
        }
        if y in b[1..] {
          var k :| 1 <= k < |b| && b[k] == y;
          LexIrreflexive(b[0]);
          assert y in a;
        }
      }
      StrictlySortedUnique(a[1..], b[1..]);
      assert a == [a[0]] + a[1..] && b == [b[0]] + b[1..];
    } else if a != [] {
      HeadIn(a);
      assert false;
    } else if b != [] {
      HeadIn(b);
      assert false;
    }
  }

  /** Sorting a repeat-free listing of a set gives the set's sorted names,
      whatever order the listing came in. */
  lemma SortByNameOfListing(listing: seq<string>, ks: set<string>)
    requires Distinct(listing)
    requires forall y :: y in listing <==> y in ks
    ensures SortByName(listing) == SortedNames(ks)
  {
    var r := SortByName(listing);
    forall y ensures y in r <==> y in SortedNames(ks) {
      assert y in r <==> y in multiset(r);
      assert y in listing <==> y in multiset(listing);
    }
    StrictlySortedUnique(r, SortedNames(ks));
  }
}
