/** The `str` operations the script applies to file names and paths:
    `t in s`, `s.split(sep)` and `s.replace(pat, repl)`. */
module StrSplit {
  import opened Outcome

  /** `t` appears in `s` starting at index `i`. */
  predicate OccursAt(s: string, t: string, i: int)
  {
    0 <= i && i + |t| <= |s| && s[i..i + |t|] == t
  }

  /** Python's `t in s`: substring containment (the empty string is in every string). */
  predicate Contains(s: string, t: string)
  {
    exists i :: 0 <= i <= |s| && OccursAt(s, t, i)
  }

  lemma OccursAtIndex(s: string, t: string, i: int, k: int)
    requires OccursAt(s, t, i) && 0 <= k < |t|
    ensures s[i + k] == t[k]
  {
    assert s[i..i + |t|][k] == s[i + k];
  }

  lemma OccursAtByIndex(s: string, t: string, i: int)
    requires 0 <= i && i + |t| <= |s|
    requires forall k :: 0 <= k < |t| ==> s[i + k] == t[k]
    ensures OccursAt(s, t, i)
  {
    forall k | 0 <= k < |t| ensures s[i..i + |t|][k] == t[k] {
      assert s[i..i + |t|][k] == s[i + k];
    }
  }

  /** An occurrence inside an occurrence is an occurrence. */
  lemma OccursAtTransitive(s: string, t: string, u: string, i: int, j: int)
    requires OccursAt(s, t, i) && OccursAt(t, u, j)
    ensures OccursAt(s, u, i + j)
  {
    forall k | 0 <= k < |u| ensures s[i + j + k] == u[k] {
      OccursAtIndex(t, u, j, k);
      OccursAtIndex(s, t, i, j + k);
    }
    OccursAtByIndex(s, u, i + j);
  }

  lemma ContainsTransitive(s: string, t: string, u: string)
    requires Contains(s, t) && Contains(t, u)
    ensures Contains(s, u)
  {
    var i :| 0 <= i <= |s| && OccursAt(s, t, i);
    var j :| 0 <= j <= |t| && OccursAt(t, u, j);
    OccursAtTransitive(s, t, u, i, j);
  }

  /** Leftmost occurrence of `sep` in `s` at or after `from`. */
  function Find(s: string, sep: string, from: nat): (r: Option<nat>)
    decreases |s| - from
    ensures r.Some? ==> from <= r.value && OccursAt(s, sep, r.value)
    ensures r.Some? ==> forall j :: from <= j < r.value ==> !OccursAt(s, sep, j)
    ensures r.None? ==> forall j :: from <= j ==> !OccursAt(s, sep, j)
  {
    if from + |sep| > |s| then None
    else if OccursAt(s, sep, from) then Some(from)
    else Find(s, sep, from + 1)
  }

  /** `s.split(sep)` for a non-empty separator: the pieces between the
      non-overlapping occurrences of `sep`, scanning left to right. */
  function Split(s: string, sep: string): (r: seq<string>)
    requires |sep| > 0
    decreases |s|
  {
    match Find(s, sep, 0)
    case None => [s]
    case Some(i) => [s[..i]] + Split(s[i + |sep|..], sep)
  }

  /** `sep.join(pieces)`. */
  function Join(pieces: seq<string>, sep: string): string
  {
    if |pieces| == 0 then []
    else if |pieces| == 1 then pieces[0]
    else pieces[0] + sep + Join(pieces[1..], sep)
  }

  /** `s.replace(pat, repl)` for a non-empty `pat`: Python defines it as
      `repl.join(s.split(pat))`. */
  function ReplaceAll(s: string, pat: string, repl: string): string
    requires |pat| > 0
  {
    Join(Split(s, pat), repl)
  }

  /** `split` never yields an empty list, and it yields a single piece
      exactly when the separator does not occur. */
  lemma {:induction false} SplitCount(s: string, sep: string)
    requires |sep| > 0
    ensures |Split(s, sep)| >= 1
    ensures |Split(s, sep)| == 1 <==> !Contains(s, sep)
  {
    match Find(s, sep, 0)
    case None =>
    case Some(i) =>
      SplitCount(s[i + |sep|..], sep);
  }

  /** Joining the pieces back with the separator gives the original string. */
  lemma {:induction false} SplitJoin(s: string, sep: string)
    requires |sep| > 0
    ensures Join(Split(s, sep), sep) == s
  {
    match Find(s, sep, 0)
    case None =>
    case Some(i) =>
      var rest := s[i + |sep|..];
      SplitJoin(rest, sep);
      SplitCount(rest, sep);
      assert Split(s, sep)[1..] == Split(rest, sep);
      assert s == s[..i] + sep + rest;
  }

  /** No piece of a split contains the separator. */
  lemma {:induction false} SplitPiecesAvoidSep(s: string, sep: string, k: int)
    requires |sep| > 0 && 0 <= k < |Split(s, sep)|
    ensures !Contains(Split(s, sep)[k], sep)
  {
    match Find(s, sep, 0)
    case None =>
    case Some(i) =>
      if k == 0 {
        if Contains(s[..i], sep) {
          var j :| 0 <= j <= i && OccursAt(s[..i], sep, j);
          assert OccursAt(s, s[..i], 0);
          OccursAtTransitive(s, s[..i], sep, 0, j);
        }
      } else {
        var rest := s[i + |sep|..];
        assert Split(s, sep)[k] == Split(rest, sep)[k - 1];
        SplitPiecesAvoidSep(rest, sep, k - 1);
      }
  }

  /** Every piece of a split is a substring of the split string. */
  lemma {:induction false} SplitPieceInString(s: string, sep: string, k: int)
    requires |sep| > 0 && 0 <= k < |Split(s, sep)|
    ensures Contains(s, Split(s, sep)[k])
  {
    match Find(s, sep, 0)
    case None =>
      assert OccursAt(s, s, 0);
    case Some(i) =>
      var rest := s[i + |sep|..];
      if k == 0 {
        assert OccursAt(s, s[..i], 0);
      } else {
        assert Split(s, sep)[k] == Split(rest, sep)[k - 1];
        SplitPieceInString(rest, sep, k - 1);
        assert OccursAt(s, rest, i + |sep|);
        assert Contains(s, rest);
        ContainsTransitive(s, rest, Split(rest, sep)[k - 1]);
      }
  }

  /** A string without `pat` is left as it is by `replace`. */
  lemma ReplaceAllAbsent(s: string, pat: string, repl: string)
    requires |pat| > 0 && !Contains(s, pat)
    ensures ReplaceAll(s, pat, repl) == s
  {
    SplitCount(s, pat);
  }

  /** Joining at least two pieces with a longer separator gives a longer string. */
  lemma {:induction false} JoinLonger(pieces: seq<string>, short: string, long: string)
    requires |pieces| >= 2 && |short| < |long|
    ensures |Join(pieces, short)| < |Join(pieces, long)|
  {
    if |pieces| > 2 {
      JoinLonger(pieces[1..], short, long);
    }
  }

  /** Replacing a string that occurs by a longer one lengthens the result,
      so the result differs from the input. */
  lemma ReplaceAllGrows(s: string, pat: string, repl: string)
    requires |pat| > 0 && |repl| > |pat| && Contains(s, pat)
    ensures |ReplaceAll(s, pat, repl)| > |s|
  {
    SplitCount(s, pat);
    SplitJoin(s, pat);
    JoinLonger(Split(s, pat), pat, repl);
  }

  /** Joining pieces free of `pat` with a separator that cannot start, end
      or span an occurrence of `pat` leaves no occurrence of `pat`. */
  lemma {:induction false} JoinAvoids(pieces: seq<string>, sep: string, pat: string)
    requires |pat| > 0 && |pat| <= |sep| + 1
    requires pat[0] !in sep && pat[|pat| - 1] !in sep
    requires forall k :: 0 <= k < |pieces| ==> !Contains(pieces[k], pat)
    ensures !Contains(Join(pieces, sep), pat)
  {
    if |pieces| == 1 {
    } else if |pieces| > 1 {
      var p, rest := pieces[0], Join(pieces[1..], sep);
      var joined := Join(pieces, sep);
      JoinAvoids(pieces[1..], sep, pat);
      assert joined == p + sep + rest;
      if Contains(joined, pat) {
        var j :| 0 <= j <= |joined| && OccursAt(joined, pat, j);
        var a, b, e := |p|, |p| + |sep|, j + |pat| - 1;
        OccursAtIndex(joined, pat, j, 0);
        OccursAtIndex(joined, pat, j, |pat| - 1);
        if e < a {
          forall k | 0 <= k < |pat| ensures p[j + k] == pat[k] {
            OccursAtIndex(joined, pat, j, k);
          }
          OccursAtByIndex(p, pat, j);
        } else if j < b {
          // the occurrence would start or end inside the separator
        } else {
          forall k | 0 <= k < |pat| ensures rest[j - b + k] == pat[k] {
            OccursAtIndex(joined, pat, j, k);
          }
          OccursAtByIndex(rest, pat, j - b);
        }
      }
    }
  }

  /** `replace` removes every occurrence of `pat` when the replacement
      cannot recreate one. */
  lemma ReplaceAllRemoves(s: string, pat: string, repl: string)
    requires |pat| > 0 && |pat| <= |repl| + 1
    requires pat[0] !in repl && pat[|pat| - 1] !in repl
    ensures !Contains(ReplaceAll(s, pat, repl), pat)
  {
    var pieces := Split(s, pat);
    forall k | 0 <= k < |pieces| ensures !Contains(pieces[k], pat) {
      SplitPiecesAvoidSep(s, pat, k);
    }
    JoinAvoids(pieces, repl, pat);
  }
}
