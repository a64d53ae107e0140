/** The ordering used for the final hostname list: Python's `<` on strings, the tuple key
    `(name.split(".")[-2], name.count("."), name)`, `sorted` with that key, and `set`
    deduplication. */
module Ordering {
  import opened Text

  /** Python's `<` on `str`: lexicographic by code point, a proper prefix first. */
  predicate StrLess(a: string, b: string)
  {
    if a == [] then b != []
    else if b == [] then false
    else a[0] < b[0] || (a[0] == b[0] && StrLess(a[1..], b[1..]))
  }

  lemma {:induction false} StrLessIrreflexive(a: string)
    ensures !StrLess(a, a)
  {
    if a != [] {
      StrLessIrreflexive(a[1..]);
    }
  }

  lemma {:induction false} StrLessTransitive(a: string, b: string, c: string)
    requires StrLess(a, b) && StrLess(b, c)
    ensures StrLess(a, c)
  {
    if a != [] && a[0] == b[0] && b[0] == c[0] {
      StrLessTransitive(a[1..], b[1..], c[1..]);
    }
  }

  lemma {:induction false} StrLessTotal(a: string, b: string)
    requires a != b
    ensures StrLess(a, b) || StrLess(b, a)
  {
    if a != [] && b != [] && a[0] == b[0] {
      assert a == [a[0]] + a[1..] && b == [b[0]] + b[1..];
      StrLessTotal(a[1..], b[1..]);
    }
  }

  /** `name.split(".")[-2]`, the label in front of the last dot. The source raises
      IndexError for a name without a dot; such names never reach the ordering (the
      pipeline fails first), so the "" returned for them decides nothing. */
  function ParentLabel(name: string): (parent: string)
    ensures '.' in name ==> parent == Split(name, '.')[|Split(name, '.')| - 2]
    ensures '.' !in parent
  {
    var pieces := Split(name, '.');
    if |pieces| >= 2 then pieces[|pieces| - 2] else []
  }

  /** The strict order on names induced by the key `(ParentLabel, dot count, name)`,
      compared component by component as Python compares tuples. */
  predicate KeyLess(a: string, b: string)
  {
    || StrLess(ParentLabel(a), ParentLabel(b))
    || (ParentLabel(a) == ParentLabel(b) && Count(a, '.') < Count(b, '.'))
    || (ParentLabel(a) == ParentLabel(b) && Count(a, '.') == Count(b, '.') && StrLess(a, b))
  }

  lemma KeyLessIrreflexive(a: string)
    ensures !KeyLess(a, a)
  {
    StrLessIrreflexive(ParentLabel(a));
    StrLessIrreflexive(a);
  }

  lemma KeyLessTransitive(a: string, b: string, c: string)
    requires KeyLess(a, b) && KeyLess(b, c)
    ensures KeyLess(a, c)
  {
    var la, lb, lc := ParentLabel(a), ParentLabel(b), ParentLabel(c);
    if StrLess(la, lb) && StrLess(lb, lc) {
      StrLessTransitive(la, lb, lc);
    } else if StrLess(a, b) && StrLess(b, c) {
      StrLessTransitive(a, b, c);
    }
  }

  /** Distinct names are always ordered one way or the other: the key is injective
      because its last component is the name itself. */
  lemma KeyLessTotal(a: string, b: string)
    requires a != b
    ensures KeyLess(a, b) || KeyLess(b, a)
  {
    if ParentLabel(a) != ParentLabel(b) {
      StrLessTotal(ParentLabel(a), ParentLabel(b));
    } else {
      StrLessTotal(a, b);
    }
  }

  lemma KeyLessAsymmetric(a: string, b: string)
    requires KeyLess(a, b)
    ensures !KeyLess(b, a)
  {
    if KeyLess(b, a) {
      KeyLessTransitive(a, b, a);
      KeyLessIrreflexive(a);
    }
  }

  predicate KeyLeq(a: string, b: string)
  {
    a == b || KeyLess(a, b)
  }

  /** Non-decreasing under the key, as `sorted` leaves a list. */
  predicate Sorted(s: seq<string>)
  {
    forall i, j :: 0 <= i < j < |s| ==> KeyLeq(s[i], s[j])
  }

  /** Strictly increasing under the key: sorted and free of duplicates. */
  predicate StrictlySorted(s: seq<string>)
  {
    forall i, j :: 0 <= i < j < |s| ==> KeyLess(s[i], s[j])
  }

  predicate Distinct(s: seq<string>)
  {
    forall i, j :: 0 <= i < j < |s| ==> s[i] != s[j]
  }

  /** Places `x` in front of the first element that is not below it. */
  function Insert(x: string, s: seq<string>): (r: seq<string>)
    requires Sorted(s)
    ensures Sorted(r)
    ensures multiset(r) == multiset(s) + multiset{x}
  {
    if s == [] then [x]
    else if KeyLeq(x, s[0]) then
      assert forall j :: 0 <= j < |s| ==> KeyLeq(x, s[j]) by {
        forall j | 0 <= j < |s| ensures KeyLeq(x, s[j]) {
          if x != s[0] && s[0] != s[j] {
            KeyLessTransitive(x, s[0], s[j]);
          }
        }
      }
      assert s == [s[0]] + s[1..];
      [x] + s
    else
      KeyLessTotal(x, s[0]);
      var tail := Insert(x, s[1..]);
      assert forall y :: y in multiset(tail) ==> KeyLeq(s[0], y) by {
        forall y | y in multiset(tail) ensures KeyLeq(s[0], y) {
          assert y in multiset(s[1..]) || y == x;
        }
      }
      assert forall j :: 0 <= j < |tail| ==> KeyLeq(s[0], tail[j]) by {
        forall j | 0 <= j < |tail| ensures KeyLeq(s[0], tail[j]) {
          assert tail[j] in multiset(tail);
        }
      }
      assert s == [s[0]] + s[1..];
      [s[0]] + tail
  }

  /** `sorted(names, key=...)`: a non-decreasing permutation of the input. */
  function Sort(names: seq<string>): (r: seq<string>)
    ensures Sorted(r)
    ensures multiset(r) == multiset(names)
  {
    if names == [] then []
    else
      assert names == [names[0]] + names[1..];
      Insert(names[0], Sort(names[1..]))
  }

  /** `set(names)` listed once per element: no duplicates, the same members. */
  function Dedup(names: seq<string>): (r: seq<string>)
    ensures Distinct(r)
    ensures forall x :: x in r <==> x in names
  {
    if names == [] then []
    else
      var rest := Dedup(names[1..]);
      assert forall x :: x in names <==> x == names[0] || x in names[1..];
      if names[0] in rest then rest else [names[0]] + rest
  }

  /** A sequence is free of duplicates exactly when every multiplicity is at most one. */
  lemma {:induction false} DistinctMultiplicity(s: seq<string>)
    ensures Distinct(s) <==> forall x :: multiset(s)[x] <= 1
  {
    if s != [] {
      var t := s[1..];
      assert s == [s[0]] + t;
      DistinctMultiplicity(t);
      if Distinct(s) {
        assert Distinct(t) by {
          forall i, j | 0 <= i < j < |t| ensures t[i] != t[j] {
            assert s[i + 1] != s[j + 1];
          }
        }
        assert s[0] !in t;
      } else {
        var i, j :| 0 <= i < j < |s| && s[i] == s[j];
        if i == 0 {
          assert s[j] in t;
          assert multiset(s)[s[0]] == 1 + multiset(t)[s[0]];
        } else {
          assert t[i - 1] == t[j - 1];
          assert !Distinct(t);
          var x :| multiset(t)[x] > 1;
          assert multiset(s)[x] >= multiset(t)[x];
        }
      }
    }
  }

  /** Sorting a duplicate-free list gives a strictly increasing list. */
  lemma SortDistinct(names: seq<string>)
    requires Distinct(names)
    ensures StrictlySorted(Sort(names))
  {
    var r := Sort(names);
    DistinctMultiplicity(names);
    DistinctMultiplicity(r);
  }

  /** Two non-decreasing lists with the same elements are the same list: the key is a
      total order, so the result of `sorted` does not depend on the input order. */
  lemma {:induction false} SortedUnique(a: seq<string>, b: seq<string>)
    requires Sorted(a) && Sorted(b)
    requires multiset(a) == multiset(b)
    ensures a == b
  {
    if a != [] {
      assert a[0] in multiset(a);
      assert a[0] in multiset(b) && b[0] in multiset(a);
      var i :| 0 <= i < |b| && b[i] == a[0];
      var j :| 0 <= j < |a| && a[j] == b[0];
      assert KeyLeq(b[0], a[0]) && KeyLeq(a[0], b[0]);
      if a[0] != b[0] {
        KeyLessAsymmetric(a[0], b[0]);
      }
      assert a == [a[0]] + a[1..] && b == [b[0]] + b[1..];
      assert multiset(a) == multiset{a[0]} + multiset(a[1..]);
      assert a[0] == b[0];
      assert multiset(b) == multiset{a[0]} + multiset(b[1..]);
      assert multiset(a[1..]) == multiset(a) - multiset{a[0]};
      assert multiset(b[1..]) == multiset(b) - multiset{a[0]};
      SortedUnique(a[1..], b[1..]);
    }
  }
}
