/** Cases of the result pipeline, each stated for all labels of a given shape:
    the sort key, the whole-field filters, the primary-domain filter, and the empty name
    that an empty common name or a trailing newline produces. */
module Scenarios {
  import opened Text
  import opened Ordering
  import opened Records
  import opened Normalisation

  lemma SplitTwo(a: string, b: string, sep: char)
    requires sep !in a && sep !in b
    ensures Split(a + [sep] + b, sep) == [a, b]
  {
    var ps := [a, b];
    assert ps[1..] == [b];
    assert Join(ps, sep) == a + [sep] + b;
    SplitJoin(ps, sep);
  }

  /** A field without '*' passes wildcard removal unchanged. */
  lemma Plain(s: string)
    requires '*' !in s
    ensures RemoveWildcards(s) == s
  {
    NoStarNoWildcard(s);
    RemoveWildcardsIdentity(s);
  }

  /** One record's names are its common name's, then its name values'. */
  lemma CollectOne(f: Filter, r: Record)
    ensures CollectNames(f, [r]) == FieldNames(f, r.commonName) + FieldNames(f, r.nameValue)
  {
    assert [r][1..] == [];
  }

  /** A single-line, space-free field without '*' that passes the domain test. */
  lemma PlainField(f: Filter, s: string)
    requires '*' !in s && '\n' !in s && ' ' !in s
    requires !f.primaryDomain || Contains(s, f.domain)
    ensures FieldNames(f, s) == [s]
  {
    Plain(s);
  }

  /** A single-line field "*." + t, with t free of '*', loses its wildcard. */
  lemma WildcardField(f: Filter, t: string)
    requires '*' !in t && '\n' !in t && ' ' !in t && !f.primaryDomain
    ensures FieldNames(f, "*." + t) == [t]
  {
    var s := "*." + t;
    assert s[2..] == t;
    assert forall c :: c in s ==> c == '*' || c == '.' || c in t;
    Plain(t);
  }

  /** A kept two-line field lists both lines. */
  lemma TwoLineField(f: Filter, a: string, b: string)
    requires '*' !in a && '*' !in b && '\n' !in a && '\n' !in b
    requires KeepsField(f, a + ['\n'] + b)
    ensures FieldNames(f, a + ['\n'] + b) == [a, b]
  {
    SplitTwo(a, b, '\n');
    Plain(a);
    Plain(b);
    FieldNamesWholeField(f, a + ['\n'] + b);
  }

  /** A field with a space anywhere contributes nothing. */
  lemma SpacedField(f: Filter, s: string)
    requires ' ' in s
    ensures FieldNames(f, s) == []
  {
    FieldNamesWholeField(f, s);
  }

  /** A label: no dot, and none of the characters the filters look at. */
  predicate Label(s: string)
  {
    '.' !in s && '*' !in s && '\n' !in s && ' ' !in s
  }

  /** A character in none of the pieces, other than the separator, is not in their join. */
  lemma {:induction false} JoinAvoids(pieces: seq<string>, sep: char, ch: char)
    requires ch != sep
    requires forall i :: 0 <= i < |pieces| ==> ch !in pieces[i]
    ensures ch !in Join(pieces, sep)
  {
    if |pieces| > 1 {
      JoinAvoids(pieces[1..], sep, ch);
    }
  }

  /** The dotted name built from labels: its parent label is the second-to-last label and
      it has one dot fewer than labels. */
  lemma DottedNameKey(labels: seq<string>)
    requires |labels| >= 2
    requires forall i :: 0 <= i < |labels| ==> '.' !in labels[i]
    ensures ParentLabel(Join(labels, '.')) == labels[|labels| - 2]
    ensures Count(Join(labels, '.'), '.') == |labels| - 1
    ensures '.' in Join(labels, '.')
  {
    var name := Join(labels, '.');
    SplitJoin(labels, '.');
    var pieces := Split(name, '.');
    assert pieces == labels;
    assert |pieces| == Count(name, '.') + 1;
    assert Count(name, '.') != 0;
    assert '.' in name;
    assert ParentLabel(name) == pieces[|pieces| - 2];
  }

  /** The dotted name built from labels has no '*', newline or space. */
  lemma DottedNameChars(labels: seq<string>)
    requires forall i :: 0 <= i < |labels| ==> Label(labels[i])
    ensures '*' !in Join(labels, '.') && '\n' !in Join(labels, '.') && ' ' !in Join(labels, '.')
  {
    JoinAvoids(labels, '.', '*');
    JoinAvoids(labels, '.', '\n');
    JoinAvoids(labels, '.', ' ');
  }

  lemma DottedName(labels: seq<string>)
    requires |labels| >= 2
    requires forall i :: 0 <= i < |labels| ==> Label(labels[i])
    ensures ParentLabel(Join(labels, '.')) == labels[|labels| - 2]
    ensures Count(Join(labels, '.'), '.') == |labels| - 1
    ensures '.' in Join(labels, '.')
    ensures '*' !in Join(labels, '.') && '\n' !in Join(labels, '.') && ' ' !in Join(labels, '.')
  {
    DottedNameKey(labels);
    DottedNameChars(labels);
  }

  /** `expected` is what `sorted(set(names), key=...)` gives: a strictly increasing list
      with exactly the members of `names` is the only possible result. */
  lemma ListedAs(names: seq<string>, expected: seq<string>)
    requires StrictlySorted(expected)
    requires forall x :: x in expected <==> x in names
    ensures Sort(Dedup(names)) == expected
  {
    SortDedup(names);
    var listed := Sort(Dedup(names));
    StrictlySortedIsSortedAndDistinct(listed);
    StrictlySortedIsSortedAndDistinct(expected);
    DistinctSameMembers(listed, expected);
    SortedUnique(listed, expected);
  }

  /** Two names under the same parent label with two dots each, ordered by their first
      character, and a deeper name under the same parent: they are in key order. */
  lemma SortKeyOrder(x: string, y: string, a: string, b: string, m: string, c: string)
    requires Label(x) && Label(y) && Label(a) && Label(b) && Label(m) && Label(c)
    requires x != [] && y != [] && x[0] < y[0]
    ensures var xmc, ymc, abmc := Join([x, m, c], '.'), Join([y, m, c], '.'), Join([a, b, m, c], '.');
            StrictlySorted([xmc, ymc, abmc])
  {
    var xmc, ymc, abmc := Join([x, m, c], '.'), Join([y, m, c], '.'), Join([a, b, m, c], '.');
    DottedName([x, m, c]);
    DottedName([y, m, c]);
    DottedName([a, b, m, c]);
    assert xmc[0] == x[0] && ymc[0] == y[0];
    assert StrLess(xmc, ymc);
    StrLessIrreflexive(m);
    assert KeyLess(xmc, ymc) && KeyLess(ymc, abmc) && KeyLess(xmc, abmc);
  }

  /** The same three names listed in a record, deepest first in the common name and the
      other two in reverse order in the name values, are all kept as they are. */
  lemma SortKeyCollect(f: Filter, x: string, y: string, a: string, b: string, m: string, c: string)
    requires Label(x) && Label(y) && Label(a) && Label(b) && Label(m) && Label(c)
    requires !f.primaryDomain
    ensures var xmc, ymc, abmc := Join([x, m, c], '.'), Join([y, m, c], '.'), Join([a, b, m, c], '.');
            && CollectNames(f, [Record(abmc, ymc + ['\n'] + xmc)]) == [abmc, ymc, xmc]
            && '.' in xmc && '.' in ymc && '.' in abmc
  {
    var xmc, ymc, abmc := Join([x, m, c], '.'), Join([y, m, c], '.'), Join([a, b, m, c], '.');
    DottedName([x, m, c]);
    DottedName([y, m, c]);
    DottedName([a, b, m, c]);
    var r := Record(abmc, ymc + ['\n'] + xmc);
    CollectOne(f, r);
    PlainField(f, abmc);
    TwoLineField(f, ymc, xmc);
  }

  /** Names are grouped by the label before the last dot, then by depth, then by text:
      x.m.c and y.m.c (two dots) come before a.b.m.c (three), whatever order the record
      lists them in. */
  lemma SortKeyExample(d: string, x: string, y: string, a: string, b: string, m: string, c: string)
    requires Label(x) && Label(y) && Label(a) && Label(b) && Label(m) && Label(c)
    requires x != [] && y != [] && x[0] < y[0]
    ensures var xmc, ymc, abmc := Join([x, m, c], '.'), Join([y, m, c], '.'), Join([a, b, m, c], '.');
            Normalise(Filter(d, false), Rows([Record(abmc, ymc + ['\n'] + xmc)]))
            == Hostnames([xmc, ymc, abmc])
  {
    var f := Filter(d, false);
    var xmc, ymc, abmc := Join([x, m, c], '.'), Join([y, m, c], '.'), Join([a, b, m, c], '.');
    var rows := [Record(abmc, ymc + ['\n'] + xmc)];
    SortKeyOrder(x, y, a, b, m, c);
    SortKeyCollect(f, x, y, a, b, m, c);
    var names := CollectNames(f, rows);
    assert !AnyWithoutDot(names);
    ListedAs(names, [xmc, ymc, abmc]);
  }

  /** A record whose common name is the wildcard "*.t" and whose name-value field mixes a
      clean name with a spaced one: t is listed, but the clean name is dropped along with
      the spaced one, because the space test looks at the whole field. */
  lemma WholeFieldExample(d: string, t: string, clean: string, spaced: string)
    requires '.' in t && '*' !in t && '\n' !in t && ' ' !in t
    requires '\n' !in clean && '\n' !in spaced && ' ' in spaced
    ensures Normalise(Filter(d, false), Rows([Record("*." + t, clean + ['\n'] + spaced)]))
            == Hostnames([t])
  {
    var f := Filter(d, false);
    var r := Record("*." + t, clean + ['\n'] + spaced);
    CollectOne(f, r);
    WildcardField(f, t);
    assert ' ' in r.nameValue;
    SpacedField(f, r.nameValue);
    assert CollectNames(f, [r]) == [t];
    assert !AnyWithoutDot([t]);
    ListedAs([t], [t]);
  }

  /** With `--primary-domain`, the domain test looks at the whole field: a common name
      listing a name that contains the domain and one that does not lets both through. */
  lemma PrimaryDomainLeak(domain: string, inside: string, outside: string)
    requires Contains(inside, domain) && !Contains(outside, domain)
    requires '.' in inside && '*' !in inside && '\n' !in inside && ' ' !in inside
    requires '.' in outside && '*' !in outside && '\n' !in outside && ' ' !in outside
    ensures Normalise(Filter(domain, true), Rows([Record(inside + ['\n'] + outside, "")])).Hostnames?
    ensures outside in Normalise(Filter(domain, true), Rows([Record(inside + ['\n'] + outside, "")])).names
  {
    var f := Filter(domain, true);
    var field := inside + ['\n'] + outside;
    var r := Record(field, "");
    ContainsIffOccurs(inside, domain);
    var i :| OccursAt(inside, domain, i);
    assert field[i..i + |domain|] == inside[i..i + |domain|];
    OccursAtContains(field, domain, i);
    TwoLineField(f, inside, outside);
    EmptyFieldFiltered(f);
    CollectOne(f, r);
    assert CollectNames(f, [r]) == [inside, outside];
    SortDedup([inside, outside]);
  }

  /** With `--primary-domain`, an empty field is dropped unless the domain is empty too. */
  lemma EmptyFieldFiltered(f: Filter)
    requires f.primaryDomain && !Contains("", f.domain)
    ensures FieldNames(f, "") == []
  {
  }

  /** A kept field ending with a newline has an empty last piece, and the empty name has
      no dot: `sorted` raises IndexError while computing its key. */
  lemma TrailingNewlineRaises(f: Filter, rows: seq<Record>, k: nat)
    requires k < |rows|
    requires KeepsField(f, rows[k].nameValue)
    requires rows[k].nameValue != [] && rows[k].nameValue[|rows[k].nameValue| - 1] == '\n'
    ensures Normalise(f, Rows(rows)) == Raised(NoParentLabel)
  {
    var field := rows[k].nameValue;
    SplitTrailingSeparator(field, '\n');
    var pieces := Split(field, '\n');
    assert pieces[|pieces| - 1] in pieces;
    assert RemoveWildcards([]) == [];
    assert FromField(f, field, []);
    assert rows[k] in rows;
    DotlessNameRaises(f, rows, []);
  }

  /** Likewise an empty common name, which has no space and (without `--primary-domain`)
      passes the filters, makes the pipeline raise. */
  lemma EmptyCommonNameRaises(d: string, rows: seq<Record>, k: nat)
    requires k < |rows| && rows[k].commonName == []
    ensures Normalise(Filter(d, false), Rows(rows)) == Raised(NoParentLabel)
  {
    var f := Filter(d, false);
    assert Split([], '\n') == [[]];
    assert RemoveWildcards([]) == [];
    assert FromField(f, rows[k].commonName, []);
    assert rows[k] in rows;
    DotlessNameRaises(f, rows, []);
  }
}
