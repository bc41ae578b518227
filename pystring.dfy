/** Python's `str.replace`, `str.split` and `str.join` for a non-empty
    pattern, as the salary portal uses them to strip "nan" from text fields
    and ".0" from identifiers and passwords.

    `Replace` scans left to right and removes (or substitutes) every
    non-overlapping occurrence; it is not restricted to whole values, so
    "Ananya".replace("nan", "") is "Aya". */
module PyString {

  /** `pat` occurs in `s` starting at index `i`. */
  predicate OccursAt(s: string, pat: string, i: nat)
  {
    i + |pat| <= |s| && s[i..i + |pat|] == pat
  }

  /** `pat` occurs somewhere in `s` (Python's `pat in s`). */
  predicate Contains(s: string, pat: string)
  {
    exists i: nat | i <= |s| :: OccursAt(s, pat, i)
  }

  /** `s.replace(pat, rep)`: leftmost, non-overlapping occurrences, all of them. */
  function Replace(s: string, pat: string, rep: string): string
    requires |pat| > 0
    decreases |s|
  {
    if |s| < |pat| then s
    else if s[..|pat|] == pat then rep + Replace(s[|pat|..], pat, rep)
    else [s[0]] + Replace(s[1..], pat, rep)
  }

  /** `s.split(sep)`: the pieces between the same occurrences `Replace` finds. */
  function Split(s: string, sep: string): (parts: seq<string>)
    requires |sep| > 0
    ensures |parts| >= 1
    decreases |s|
  {
    if |s| < |sep| then [s]
    else if s[..|sep|] == sep then [""] + Split(s[|sep|..], sep)
    else
      var rest := Split(s[1..], sep);
      [[s[0]] + rest[0]] + rest[1..]
  }

  /** `sep.join(parts)`. */
  function Join(parts: seq<string>, sep: string): string
  {
    if |parts| == 0 then ""
    else if |parts| == 1 then parts[0]
    else parts[0] + sep + Join(parts[1..], sep)
  }

  lemma JoinExtendHead(c: char, parts: seq<string>, sep: string)
    requires |parts| >= 1
    ensures Join([[c] + parts[0]] + parts[1..], sep) == [c] + Join(parts, sep)
  {
    var ext := [[c] + parts[0]] + parts[1..];
    if |parts| > 1 {
      assert ext[1..] == parts[1..];
    }
  }

  /** `s.replace(a, b)` equals `b.join(s.split(a))`: the two scans find the
      same occurrences. */
  lemma {:induction false} ReplaceIsJoinOfSplit(s: string, pat: string, rep: string)
    requires |pat| > 0
    ensures Replace(s, pat, rep) == Join(Split(s, pat), rep)
    decreases |s|
  {
    if |s| < |pat| {
    } else if s[..|pat|] == pat {
      ReplaceIsJoinOfSplit(s[|pat|..], pat, rep);
      var t := Split(s[|pat|..], pat);
      assert Split(s, pat) == [""] + t;
      assert ([""] + t)[1..] == t;
    } else {
      ReplaceIsJoinOfSplit(s[1..], pat, rep);
      JoinExtendHead(s[0], Split(s[1..], pat), rep);
    }
  }

  /** Replacing a pattern by itself gives the text back. */
  lemma {:induction false} ReplaceBySelf(s: string, pat: string)
    requires |pat| > 0
    ensures Replace(s, pat, pat) == s
    decreases |s|
  {
    if |s| < |pat| {
    } else if s[..|pat|] == pat {
      ReplaceBySelf(s[|pat|..], pat);
      assert s == s[..|pat|] + s[|pat|..];
    } else {
      ReplaceBySelf(s[1..], pat);
      assert s == [s[0]] + s[1..];
    }
  }

  /** Round trip: joining the pieces of a split with the separator restores the text. */
  lemma SplitJoinRoundTrip(s: string, sep: string)
    requires |sep| > 0
    ensures Join(Split(s, sep), sep) == s
  {
    ReplaceIsJoinOfSplit(s, sep, sep);
    ReplaceBySelf(s, sep);
  }

  lemma {:induction false} SplitHeadIsPrefix(s: string, sep: string)
    requires |sep| > 0
    ensures Split(s, sep)[0] <= s
    decreases |s|
  {
    if |s| < |sep| {
    } else if s[..|sep|] == sep {
    } else {
      SplitHeadIsPrefix(s[1..], sep);
      var t := Split(s[1..], sep);
      assert Split(s, sep)[0] == [s[0]] + t[0];
      assert s == [s[0]] + s[1..];
    }
  }

  /** No piece of a split contains the separator: every occurrence was cut. */
  lemma {:induction false} SplitPiecesFree(s: string, sep: string)
    requires |sep| > 0
    ensures forall k :: 0 <= k < |Split(s, sep)| ==> !Contains(Split(s, sep)[k], sep)
    decreases |s|
  {
    var parts := Split(s, sep);
    if |s| < |sep| {
      assert parts == [s];
      assert !Contains(s, sep);
    } else if s[..|sep|] == sep {
      var t := Split(s[|sep|..], sep);
      SplitPiecesFree(s[|sep|..], sep);
      assert parts == [""] + t;
      assert !Contains("", sep);
      forall k | 0 < k < |parts| ensures !Contains(parts[k], sep) {
        assert parts[k] == t[k - 1];
      }
    } else {
      var t := Split(s[1..], sep);
      SplitPiecesFree(s[1..], sep);
      SplitHeadIsPrefix(s[1..], sep);
      var p := [s[0]] + t[0];
      assert p <= s by { assert s == [s[0]] + s[1..]; }
      ConsFree(s, sep, t[0]);
      assert parts == [p] + t[1..];
      forall k | 0 < k < |parts| ensures !Contains(parts[k], sep) {
        assert parts[k] == t[k];
      }
    }
  }

  /** A piece that starts before a non-match and continues with a piece
      free of the separator is itself free of it. */
  lemma ConsFree(s: string, sep: string, head: string)
    requires |s| >= |sep| > 0 && s[..|sep|] != sep
    requires !Contains(head, sep) && [s[0]] + head <= s
    ensures !Contains([s[0]] + head, sep)
  {
    var p := [s[0]] + head;
    forall i: nat ensures !OccursAt(p, sep, i) {
      if OccursAt(p, sep, i) {
        if i != 0 {
          assert p[i..i + |sep|] == head[i - 1..i - 1 + |sep|];
          assert OccursAt(head, sep, i - 1);
        }
      }
    }
  }

  lemma TailFree(s: string, pat: string)
    requires |s| > 0 && !Contains(s, pat)
    ensures !Contains(s[1..], pat)
  {
    forall i: nat ensures !OccursAt(s[1..], pat, i) {
      if OccursAt(s[1..], pat, i) {
        assert s[1..][i..i + |pat|] == s[i + 1..i + 1 + |pat|];
        assert OccursAt(s, pat, i + 1);
      }
    }
  }

  /** A text without the pattern is left unchanged. */
  lemma {:induction false} ReplaceAbsent(s: string, pat: string, rep: string)
    requires |pat| > 0 && !Contains(s, pat)
    ensures Replace(s, pat, rep) == s
    decreases |s|
  {
    if |s| >= |pat| {
      assert !OccursAt(s, pat, 0);
      TailFree(s, pat);
      ReplaceAbsent(s[1..], pat, rep);
      assert s == [s[0]] + s[1..];
    }
  }

  /** Replacement in terms of occurrences: the text before the leftmost
      occurrence is kept, that occurrence becomes `rep`, and the scan goes
      on after it, so occurrences never overlap. With `ReplaceAbsent` this
      determines `Replace` on every text. */
  lemma ReplaceAtFirstOccurrence(s: string, pat: string, rep: string, i: nat)
    requires |pat| > 0 && OccursAt(s, pat, i)
    requires forall j: nat :: j < i ==> !OccursAt(s, pat, j)
    ensures Replace(s, pat, rep) == s[..i] + rep + Replace(s[i + |pat|..], pat, rep)
  {
    var rest := Replace(s[i + |pat|..], pat, rep);
    ReplaceKeepsFreePrefix(s, pat, rep, i);
    ReplaceAtOccurrence(s, pat, rep, i);
    assert s[..i] + (rep + rest) == s[..i] + rep + rest;
  }

  /** The suffix that starts with an occurrence begins with `rep`. */
  lemma ReplaceAtOccurrence(s: string, pat: string, rep: string, i: nat)
    requires |pat| > 0 && OccursAt(s, pat, i)
    ensures Replace(s[i..], pat, rep) == rep + Replace(s[i + |pat|..], pat, rep)
  {
    assert s[i..][..|pat|] == pat;
    assert s[i..][|pat|..] == s[i + |pat|..];
  }

  /** A prefix in which no occurrence starts is copied unchanged. */
  lemma {:induction false} ReplaceKeepsFreePrefix(s: string, pat: string, rep: string, n: nat)
    requires |pat| > 0 && n <= |s|
    requires forall j: nat :: j < n ==> !OccursAt(s, pat, j)
    ensures Replace(s, pat, rep) == s[..n] + Replace(s[n..], pat, rep)
    decreases n
  {
    if n == 0 {
      assert s[n..] == s;
    } else {
      assert !OccursAt(s, pat, 0);
      var t := s[1..];
      forall j: nat | j < n - 1 ensures !OccursAt(t, pat, j) {
        ShiftOccurs(s, pat, j);
      }
      ReplaceKeepsFreePrefix(t, pat, rep, n - 1);
      assert t[n - 1..] == s[n..];
      assert [s[0]] + t[..n - 1] == s[..n];
      if |s| >= |pat| {
        assert Replace(s, pat, rep) == [s[0]] + Replace(t, pat, rep);
      } else {
        assert Replace(s[n..], pat, rep) == s[n..];
        assert s == s[..n] + s[n..];
      }
    }
  }

  /** An occurrence in the tail is an occurrence one place further on. */
  lemma ShiftOccurs(s: string, pat: string, j: nat)
    requires |s| > 0
    ensures OccursAt(s[1..], pat, j) <==> OccursAt(s, pat, j + 1)
  {
    if j + |pat| <= |s| - 1 {
      assert s[1..][j..j + |pat|] == s[j + 1..j + 1 + |pat|];
    }
  }

  /** Deleting a pattern never lengthens the text. */
  lemma {:induction false} DeleteNoLonger(s: string, pat: string)
    requires |pat| > 0
    ensures |Replace(s, pat, "")| <= |s|
    decreases |s|
  {
    if |s| < |pat| {
    } else if s[..|pat|] == pat {
      DeleteNoLonger(s[|pat|..], pat);
    } else {
      DeleteNoLonger(s[1..], pat);
    }
  }

  /** Deleting a pattern that occurs always shortens the text. */
  lemma {:induction false} DeleteShortensFound(s: string, pat: string)
    requires |pat| > 0 && Contains(s, pat)
    ensures |Replace(s, pat, "")| < |s|
    decreases |s|
  {
    var i: nat :| i <= |s| && OccursAt(s, pat, i);
    assert i + |pat| <= |s| && s[i..i + |pat|] == pat;
    if s[..|pat|] == pat {
      DeleteNoLonger(s[|pat|..], pat);
    } else {
      assert i != 0;
      assert s[1..][i - 1..i - 1 + |pat|] == s[i..i + |pat|];
      assert OccursAt(s[1..], pat, i - 1);
      DeleteShortensFound(s[1..], pat);
    }
  }

  /** Deleting a pattern changes the text exactly when the pattern occurs in it. */
  lemma DeleteChangesIffFound(s: string, pat: string)
    requires |pat| > 0
    ensures Replace(s, pat, "") == s <==> !Contains(s, pat)
  {
    if Contains(s, pat) {
      DeleteShortensFound(s, pat);
    } else {
      ReplaceAbsent(s, pat, "");
    }
  }
}
