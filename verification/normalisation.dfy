/** The result pipeline at the end of `run_query`: split each name field on newlines,
    filter with tests on the whole field, remove every "*.", deduplicate, and sort by
    `(parent label, dot count, name)`. */
module Normalisation {
  import opened Text
  import opened Ordering
  import opened Records

  /** The settings the filters read: the queried domain and `--primary-domain`. */
  datatype Filter = Filter(domain: string, primaryDomain: bool)

  /** Why the pipeline raises instead of returning a list. */
  datatype NormaliseError =
    | NotRows        // `query_results` holds a query error: its items do not unpack into nine columns, or it is not iterable
    | NoParentLabel  // some kept name has no dot, so `split(".")[-2]` raises IndexError

  datatype Normalised = Hostnames(names: seq<string>) | Raised(error: NormaliseError)

  /** The field-level test: no space anywhere in the field and, with `--primary-domain`,
      the domain somewhere in the field. It looks at the field, never at one piece. */
  predicate KeepsField(f: Filter, field: string)
  {
    ' ' !in field && !(f.primaryDomain && !Contains(field, f.domain))
  }

  /** The loop over the newline pieces of a multi-line field. Each iteration repeats the
      tests on the whole field, so the pieces are kept all together or not at all. */
  function PieceNames(f: Filter, field: string, pieces: seq<string>): (names: seq<string>)
    ensures |names| == (if KeepsField(f, field) then |pieces| else 0)
    ensures forall i :: 0 <= i < |names| ==> names[i] == RemoveWildcards(pieces[i])
  {
    if pieces == [] then []
    else if ' ' !in field then
      if f.primaryDomain && !Contains(field, f.domain) then PieceNames(f, field, pieces[1..])
      else [RemoveWildcards(pieces[0])] + PieceNames(f, field, pieces[1..])
    else PieceNames(f, field, pieces[1..])
  }

  /** The names one field contributes, with the single-line and multi-line branches of the
      source kept apart. */
  function FieldNames(f: Filter, field: string): seq<string>
  {
    if '\n' in field then PieceNames(f, field, Split(field, '\n'))
    else if ' ' !in field then
      if f.primaryDomain && !Contains(field, f.domain) then [] else [RemoveWildcards(field)]
    else []
  }

  /** Every piece with its wildcards removed. */
  function StripAll(pieces: seq<string>): seq<string>
  {
    seq(|pieces|, i requires 0 <= i < |pieces| => RemoveWildcards(pieces[i]))
  }

  /** Both branches make one decision per field: either every newline piece of the field
      is kept (wildcards removed) or none is. */
  lemma FieldNamesWholeField(f: Filter, field: string)
    ensures FieldNames(f, field)
            == if KeepsField(f, field) then StripAll(Split(field, '\n')) else []
  {
    if '\n' !in field {
      SplitWithoutSeparator(field, '\n');
    }
  }

  /** The names one record contributes: its common name, then its name values. */
  function RecordNames(f: Filter, r: Record): seq<string>
  {
    FieldNames(f, r.commonName) + FieldNames(f, r.nameValue)
  }

  /** The list the loop over `query_results` appends to, before deduplication. */
  function CollectNames(f: Filter, rows: seq<Record>): seq<string>
  {
    if rows == [] then [] else RecordNames(f, rows[0]) + CollectNames(f, rows[1..])
  }

  /** `name` is a newline piece of a kept `field`, with every "*." removed. */
  ghost predicate FromField(f: Filter, field: string, name: string)
  {
    KeepsField(f, field) && exists p :: p in Split(field, '\n') && name == RemoveWildcards(p)
  }

  /** `name` comes from the common name or the name values of some row. */
  ghost predicate FromRows(f: Filter, rows: seq<Record>, name: string)
  {
    exists r :: r in rows && (FromField(f, r.commonName, name) || FromField(f, r.nameValue, name))
  }

  lemma FieldNamesProvenance(f: Filter, field: string)
    ensures forall name :: name in FieldNames(f, field) <==> FromField(f, field, name)
  {
    FieldNamesWholeField(f, field);
    var pieces := Split(field, '\n');
    var names := FieldNames(f, field);
    forall name | FromField(f, field, name)
      ensures name in names
    {
      var p :| p in pieces && name == RemoveWildcards(p);
      var i :| 0 <= i < |pieces| && pieces[i] == p;
      assert names[i] == name;
    }
    forall name | name in names
      ensures FromField(f, field, name)
    {
      var i :| 0 <= i < |names| && names[i] == name;
      assert pieces[i] in pieces;
    }
  }

  /** Before deduplication the collected list holds exactly the names the rows provide:
      nothing is invented and nothing kept is lost. */
  lemma {:induction false} CollectNamesProvenance(f: Filter, rows: seq<Record>)
    ensures forall name :: name in CollectNames(f, rows) <==> FromRows(f, rows, name)
  {
    if rows != [] {
      CollectNamesProvenance(f, rows[1..]);
      FieldNamesProvenance(f, rows[0].commonName);
      FieldNamesProvenance(f, rows[0].nameValue);
      forall name
        ensures name in CollectNames(f, rows) <==> FromRows(f, rows, name)
      {
        if FromRows(f, rows, name) {
          var r :| r in rows && (FromField(f, r.commonName, name) || FromField(f, r.nameValue, name));
          if r != rows[0] {
            assert r in rows[1..];
          }
        }
        if FromRows(f, rows[1..], name) {
          var r :| r in rows[1..] && (FromField(f, r.commonName, name) || FromField(f, r.nameValue, name));
          assert r in rows;
        }
      }
    }
  }

  /** `True` when some collected name has no dot. */
  predicate AnyWithoutDot(names: seq<string>)
  {
    exists i :: 0 <= i < |names| && '.' !in names[i]
  }

  /** `sorted(set(names), ...)` is strictly increasing and lists exactly the names. */
  lemma SortDedup(names: seq<string>)
    ensures StrictlySorted(Sort(Dedup(names)))
    ensures forall name :: name in Sort(Dedup(names)) <==> name in names
  {
    var unique := Dedup(names);
    SortDistinct(unique);
    assert forall name :: name in Sort(unique) <==> name in multiset(unique);
  }

  /** Everything after the retry loop: the row loop, `set`, then `sorted` with the key. */
  function Normalise(f: Filter, payload: Payload): (r: Normalised)
    ensures payload.Message? ==> r == Raised(NotRows)
    ensures r.Hostnames? ==> StrictlySorted(r.names)
    ensures r.Hostnames? ==> forall name :: name in r.names ==> '.' in name
  {
    match payload
    case Message(_) => Raised(NotRows)
    case Rows(rows) =>
      var names := CollectNames(f, rows);
      if AnyWithoutDot(names) then Raised(NoParentLabel)
      else
        SortDedup(names);
        Hostnames(Sort(Dedup(names)))
  }

  /** The pipeline raises exactly when some kept name lacks a dot, and otherwise lists
      exactly the names the rows provide, each once, in key order. */
  lemma NormaliseContents(f: Filter, rows: seq<Record>)
    ensures Normalise(f, Rows(rows)).Raised? <==>
              exists name :: FromRows(f, rows, name) && '.' !in name
    ensures Normalise(f, Rows(rows)).Hostnames? ==>
              forall name :: name in Normalise(f, Rows(rows)).names <==> FromRows(f, rows, name)
  {
    var names := CollectNames(f, rows);
    CollectNamesProvenance(f, rows);
    if AnyWithoutDot(names) {
      var i :| 0 <= i < |names| && '.' !in names[i];
      assert FromRows(f, rows, names[i]);
    } else {
      forall name | FromRows(f, rows, name)
        ensures '.' in name
      {
        var i :| 0 <= i < |names| && names[i] == name;
      }
      SortDedup(names);
    }
  }

  /** One name without a dot among those the rows provide is enough to make `sorted` raise. */
  lemma DotlessNameRaises(f: Filter, rows: seq<Record>, name: string)
    requires FromRows(f, rows, name) && '.' !in name
    ensures Normalise(f, Rows(rows)) == Raised(NoParentLabel)
  {
    var names := CollectNames(f, rows);
    CollectNamesProvenance(f, rows);
    var i :| 0 <= i < |names| && names[i] == name;
    assert AnyWithoutDot(names);
  }

  /** No listed name contains a space: the field it came from had none, and neither
      splitting nor wildcard removal adds characters. */
  lemma NormaliseNoSpaces(f: Filter, rows: seq<Record>)
    ensures Normalise(f, Rows(rows)).Hostnames? ==>
              forall name :: name in Normalise(f, Rows(rows)).names ==> ' ' !in name
  {
    NormaliseContents(f, rows);
    var r := Normalise(f, Rows(rows));
    if r.Hostnames? {
      forall name | name in r.names
        ensures ' ' !in name
      {
        var row :| row in rows && (FromField(f, row.commonName, name) || FromField(f, row.nameValue, name));
        var field := if FromField(f, row.commonName, name) then row.commonName else row.nameValue;
        var p :| p in Split(field, '\n') && name == RemoveWildcards(p);
        var i :| 0 <= i < |Split(field, '\n')| && Split(field, '\n')[i] == p;
        assert ' ' !in p;
      }
    }
  }

  /** With `--primary-domain`, every listed name comes from a field that contains the
      domain. The name itself need not contain it (see `PrimaryDomainLeak`). */
  lemma NormalisePrimaryDomain(f: Filter, rows: seq<Record>)
    requires f.primaryDomain
    ensures Normalise(f, Rows(rows)).Hostnames? ==>
              forall name :: name in Normalise(f, Rows(rows)).names ==>
                exists r :: r in rows &&
                  ((FromField(f, r.commonName, name) && Contains(r.commonName, f.domain)) ||
                   (FromField(f, r.nameValue, name) && Contains(r.nameValue, f.domain)))
  {
    NormaliseContents(f, rows);
  }

  lemma {:induction false} CollectNamesIgnoresDomain(d1: string, d2: string, rows: seq<Record>)
    ensures CollectNames(Filter(d1, false), rows) == CollectNames(Filter(d2, false), rows)
  {
    if rows != [] {
      CollectNamesIgnoresDomain(d1, d2, rows[1..]);
      FieldNamesWholeField(Filter(d1, false), rows[0].commonName);
      FieldNamesWholeField(Filter(d2, false), rows[0].commonName);
      FieldNamesWholeField(Filter(d1, false), rows[0].nameValue);
      FieldNamesWholeField(Filter(d2, false), rows[0].nameValue);
    }
  }

  /** Without `--primary-domain` the domain plays no part in the result. */
  lemma NormaliseIgnoresDomain(d1: string, d2: string, payload: Payload)
    ensures Normalise(Filter(d1, false), payload) == Normalise(Filter(d2, false), payload)
  {
    if payload.Rows? {
      CollectNamesIgnoresDomain(d1, d2, payload.rows);
    }
  }

  lemma StrictlySortedIsSortedAndDistinct(s: seq<string>)
    requires StrictlySorted(s)
    ensures Sorted(s) && Distinct(s)
  {
    forall i, j | 0 <= i < j < |s|
      ensures s[i] != s[j]
    {
      KeyLessIrreflexive(s[i]);
    }
  }

  /** Two duplicate-free lists with the same members have the same multiset. */
  lemma DistinctSameMembers(a: seq<string>, b: seq<string>)
    requires Distinct(a) && Distinct(b)
    requires forall x :: x in a <==> x in b
    ensures multiset(a) == multiset(b)
  {
    DistinctMultiplicity(a);
    DistinctMultiplicity(b);
    forall x
      ensures multiset(a)[x] == multiset(b)[x]
    {
      assert x in a <==> x in multiset(a);
      assert x in b <==> x in multiset(b);
    }
  }

  /** The output depends only on which names the rows provide: row order and repeated
      names make no difference, just as `set` followed by a total-order sort promises. */
  lemma NormaliseDependsOnNamesOnly(f: Filter, rows1: seq<Record>, rows2: seq<Record>)
    requires forall name :: FromRows(f, rows1, name) <==> FromRows(f, rows2, name)
    ensures Normalise(f, Rows(rows1)) == Normalise(f, Rows(rows2))
  {
    NormaliseContents(f, rows1);
    NormaliseContents(f, rows2);
    var r1, r2 := Normalise(f, Rows(rows1)), Normalise(f, Rows(rows2));
    if r1.Hostnames? && r2.Hostnames? {
      StrictlySortedIsSortedAndDistinct(r1.names);
      StrictlySortedIsSortedAndDistinct(r2.names);
      DistinctSameMembers(r1.names, r2.names);
      SortedUnique(r1.names, r2.names);
    }
  }
}
