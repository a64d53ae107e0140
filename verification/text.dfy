/** The Python string operations the result pipeline relies on, over `string` (`seq<char>`):
    `str.count`, `str.split` with a one-character separator, `in` on strings, and
    `str.replace("*.", "")`. */
module Text {

  /** `s.count(c)` for a single character. */
  function Count(s: string, c: char): (n: nat)
    ensures n == 0 <==> c !in s
    ensures n <= |s|
  {
    if s == [] then 0
    else
      assert c in s[1..] ==> c in s;
      (if s[0] == c then 1 else 0) + Count(s[1..], c)
  }

  /** `Count` is the number of occurrences: the multiplicity of `c` in `s`. */
  lemma {:induction false} CountOccurrences(s: string, c: char)
    ensures Count(s, c) == multiset(s)[c]
  {
    if s != [] {
      CountOccurrences(s[1..], c);
      assert s == [s[0]] + s[1..];
    }
  }

  /** `s.split(sep)` for a one-character separator: the maximal runs between separators,
      empty runs included, so there is always one piece more than separators. */
  function Split(s: string, sep: char): (pieces: seq<string>)
    ensures |pieces| == Count(s, sep) + 1
    ensures forall i :: 0 <= i < |pieces| ==> sep !in pieces[i]
    ensures forall i, c :: 0 <= i < |pieces| && c in pieces[i] ==> c in s
  {
    if s == [] then [[]]
    else
      var rest := Split(s[1..], sep);
      assert forall c :: c in s[1..] ==> c in s;
      if s[0] == sep then [[]] + rest
      else [[s[0]] + rest[0]] + rest[1..]
  }

  /** `sep.join(pieces)`. */
  function Join(pieces: seq<string>, sep: char): string
  {
    if pieces == [] then []
    else if |pieces| == 1 then pieces[0]
    else pieces[0] + [sep] + Join(pieces[1..], sep)
  }

  /** Splitting and re-joining on the same separator gives back the string. */
  lemma {:induction false} JoinSplit(s: string, sep: char)
    ensures Join(Split(s, sep), sep) == s
  {
    if s != [] {
      var rest := Split(s[1..], sep);
      JoinSplit(s[1..], sep);
      if s[0] != sep {
        var pieces := [[s[0]] + rest[0]] + rest[1..];
        if |rest| > 1 {
          assert pieces[1..] == rest[1..];
        }
      }
    }
  }

  /** A separator-free prefix followed by the separator becomes its own first piece. */
  lemma {:induction false} SplitAfterPiece(p: string, t: string, sep: char)
    requires sep !in p
    ensures Split(p + [sep] + t, sep) == [p] + Split(t, sep)
  {
    if p != [] {
      var s := p + [sep] + t;
      assert s[1..] == p[1..] + [sep] + t;
      SplitAfterPiece(p[1..], t, sep);
      assert [p[0]] + p[1..] == p;
    }
  }

  /** A separator-free string is a single piece. */
  lemma {:induction false} SplitWithoutSeparator(s: string, sep: char)
    requires sep !in s
    ensures Split(s, sep) == [s]
  {
    if s != [] {
      SplitWithoutSeparator(s[1..], sep);
      assert [s[0]] + s[1..] == s;
    }
  }

  /** A string that ends with the separator has an empty last piece. */
  lemma {:induction false} SplitTrailingSeparator(s: string, sep: char)
    requires s != [] && s[|s| - 1] == sep
    ensures Split(s, sep)[|Split(s, sep)| - 1] == []
  {
    if |s| > 1 {
      var t := s[1..];
      assert t[|t| - 1] == sep;
      SplitTrailingSeparator(t, sep);
      assert sep in t;
    }
  }

  /** Joining separator-free pieces and splitting again gives back the pieces. */
  lemma {:induction false} SplitJoin(pieces: seq<string>, sep: char)
    requires |pieces| >= 1
    requires forall i :: 0 <= i < |pieces| ==> sep !in pieces[i]
    ensures Split(Join(pieces, sep), sep) == pieces
  {
    if |pieces| == 1 {
      SplitWithoutSeparator(pieces[0], sep);
    } else {
      SplitJoin(pieces[1..], sep);
      SplitAfterPiece(pieces[0], Join(pieces[1..], sep), sep);
      assert [pieces[0]] + pieces[1..] == pieces;
    }
  }

  /** Python's `needle in hay` on strings: `needle` is a prefix of some suffix of `hay`. */
  predicate Contains(hay: string, needle: string)
  {
    needle <= hay || (hay != [] && Contains(hay[1..], needle))
  }

  /** `needle` sits in `hay` starting at index `i`. */
  ghost predicate OccursAt(hay: string, needle: string, i: int)
  {
    0 <= i && i + |needle| <= |hay| && hay[i..i + |needle|] == needle
  }

  /** An occurrence at any index makes `Contains` hold. */
  lemma {:induction false} OccursAtContains(hay: string, needle: string, i: int)
    requires OccursAt(hay, needle, i)
    ensures Contains(hay, needle)
  {
    if i == 0 {
      assert needle <= hay;
    } else {
      assert hay[1..][i - 1..i - 1 + |needle|] == hay[i..i + |needle|];
      OccursAtContains(hay[1..], needle, i - 1);
    }
  }

  /** `Contains` agrees with the slice-based reading of substring containment. */
  lemma {:induction false} ContainsIffOccurs(hay: string, needle: string)
    ensures Contains(hay, needle) <==> exists i :: OccursAt(hay, needle, i)
  {
    if exists i :: OccursAt(hay, needle, i) {
      var i :| OccursAt(hay, needle, i);
      OccursAtContains(hay, needle, i);
    }
    if Contains(hay, needle) {
      if needle <= hay {
        assert OccursAt(hay, needle, 0);
      } else {
        ContainsIffOccurs(hay[1..], needle);
        var i :| OccursAt(hay[1..], needle, i);
        assert hay[1..][i..i + |needle|] == hay[i + 1..i + 1 + |needle|];
        assert OccursAt(hay, needle, i + 1);
      }
    }
  }

  /** `s.replace("*.", "")`: a left-to-right scan that deletes every non-overlapping
      occurrence of "*.", wherever it appears. */
  function RemoveWildcards(s: string): (r: string)
    ensures |r| <= |s|
    ensures forall c :: c in r ==> c in s
  {
    if |s| >= 2 && s[0] == '*' && s[1] == '.' then
      assert forall c :: c in s[2..] ==> c in s;
      RemoveWildcards(s[2..])
    else if s == [] then []
    else
      assert forall c :: c in s[1..] ==> c in s;
      [s[0]] + RemoveWildcards(s[1..])
  }

  /** A string with no "*." in it is left unchanged. */
  lemma {:induction false} RemoveWildcardsIdentity(s: string)
    requires !Contains(s, "*.")
    ensures RemoveWildcards(s) == s
  {
    if s != [] {
      assert !("*." <= s);
      RemoveWildcardsIdentity(s[1..]);
      assert [s[0]] + s[1..] == s;
    }
  }

  /** A string with no '*' at all has no "*." in it. */
  lemma {:induction false} NoStarNoWildcard(s: string)
    requires '*' !in s
    ensures !Contains(s, "*.")
  {
    if s != [] {
      assert '*' !in s[1..] by {
        forall c | c in s[1..] ensures c in s { }
      }
      NoStarNoWildcard(s[1..]);
      assert s[0] != '*';
    }
  }

  /** The scan works piecewise: removing wildcards from a concatenation is removing them
      from each part, unless the parts meet at a '*' followed by a '.'. */
  lemma {:induction false} RemoveWildcardsAppend(a: string, b: string)
    requires a == [] || b == [] || a[|a| - 1] != '*' || b[0] != '.'
    ensures RemoveWildcards(a + b) == RemoveWildcards(a) + RemoveWildcards(b)
  {
    if a == [] {
      assert a + b == b;
    } else if b == [] {
      assert a + b == a;
    } else if |a| >= 2 && a[0] == '*' && a[1] == '.' {
      assert (a + b)[2..] == a[2..] + b;
      RemoveWildcardsAppend(a[2..], b);
    } else if |a| == 1 {
      assert (a + b)[1..] == b;
    } else {
      assert (a + b)[1..] == a[1..] + b;
      RemoveWildcardsAppend(a[1..], b);
    }
  }

  /** Unlike a prefix strip, the scan can leave a "*." behind: "**.." becomes "*.". */
  lemma WildcardCanSurvive()
    ensures RemoveWildcards("**..") == "*."
  {
    var s: string := "**..";
    assert s[1..] == "*..";
    assert s[1..][2..] == ".";
  }
}
