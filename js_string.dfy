/**
 * The few `String.prototype` operations the relay and the peers rely on:
 * `startsWith`, `indexOf` and `replaceAll` with a literal pattern.
 */
module JsString {

  /** `s.startsWith(prefix)` */
  predicate StartsWith(s: string, prefix: string)
  {
    |prefix| <= |s| && s[..|prefix|] == prefix
  }

  /** `pat` occurs in `s` starting at index `i`. */
  predicate OccursAt(s: string, pat: string, i: int)
  {
    0 <= i && i + |pat| <= |s| && s[i..i + |pat|] == pat
  }

  ghost predicate Contains(s: string, pat: string)
  {
    exists i :: OccursAt(s, pat, i)
  }

  /** `s.indexOf(pat)`: the first index at which `pat` occurs, or -1 when it does not occur. */
  function IndexOf(s: string, pat: string): (r: int)
    ensures -1 <= r <= |s|
    ensures r >= 0 ==> OccursAt(s, pat, r)
    ensures r >= 0 ==> forall i :: 0 <= i < r ==> !OccursAt(s, pat, i)
    ensures r == -1 <==> !Contains(s, pat)
    decreases |s|
  {
    if StartsWith(s, pat) then
      assert OccursAt(s, pat, 0);
      0
    else if |s| == 0 then -1
    else
      var k := IndexOf(s[1..], pat);
      IndexOfStep(s, pat, k);
      if k < 0 then -1 else k + 1
  }

  /** How the first occurrence in `s[1..]` gives the first occurrence in `s`, when `s` does not start with `pat`. */
  lemma IndexOfStep(s: string, pat: string, k: int)
    requires |s| > 0 && !StartsWith(s, pat)
    requires k >= 0 ==> OccursAt(s[1..], pat, k) && forall i :: 0 <= i < k ==> !OccursAt(s[1..], pat, i)
    requires k < 0 ==> !Contains(s[1..], pat)
    ensures k >= 0 ==> OccursAt(s, pat, k + 1) && forall i :: 0 <= i <= k ==> !OccursAt(s, pat, i)
    ensures k < 0 ==> !Contains(s, pat)
  {
    ShiftOccurrence(s, pat);
    assert !OccursAt(s, pat, 0);
  }

  /** An occurrence in `s[1..]` at `i` is an occurrence in `s` at `i + 1`, and conversely. */
  lemma ShiftOccurrence(s: string, pat: string)
    requires |s| > 0
    ensures forall i {:trigger OccursAt(s[1..], pat, i)} :: 0 <= i ==> (OccursAt(s[1..], pat, i) <==> OccursAt(s, pat, i + 1))
    ensures forall j {:trigger OccursAt(s, pat, j)} :: 1 <= j ==> (OccursAt(s, pat, j) <==> OccursAt(s[1..], pat, j - 1))
  {
    forall i | 0 <= i
      ensures OccursAt(s[1..], pat, i) <==> OccursAt(s, pat, i + 1)
    {
      if 0 <= i && i + |pat| <= |s| - 1 {
        assert s[1..][i..i + |pat|] == s[i + 1..i + 1 + |pat|];
      }
    }
  }

  /**
   * `s.replaceAll(pat, rep)` for a non-empty literal `pat`: the occurrences
   * are found left to right and do not overlap. `rep` is copied as it is, so
   * this is `replaceAll` only for a replacement without `$` patterns.
   */
  function ReplaceAll(s: string, pat: string, rep: string): string
    requires |pat| > 0
    decreases |s|
  {
    if |s| < |pat| then s
    else if s[..|pat|] == pat then rep + ReplaceAll(s[|pat|..], pat, rep)
    else [s[0]] + ReplaceAll(s[1..], pat, rep)
  }

  /** Text that does not contain the pattern is left as it is. */
  lemma {:induction false} ReplaceAllAbsent(s: string, pat: string, rep: string)
    requires |pat| > 0
    ensures !Contains(s, pat) ==> ReplaceAll(s, pat, rep) == s
    decreases |s|
  {
    if |s| < |pat| || Contains(s, pat) {
    } else {
      assert !OccursAt(s, pat, 0);
      assert !Contains(s[1..], pat) by {
        ShiftOccurrence(s, pat);
      }
      ReplaceAllAbsent(s[1..], pat, rep);
    }
  }

  /**
   * When the replacement begins with the pattern, the result begins with
   * the same characters as the input, up to the pattern's length.
   */
  lemma {:induction false} ReplaceAllKeepsHead(s: string, pat: string, rep: string)
    requires |pat| > 0 && StartsWith(rep, pat)
    ensures |ReplaceAll(s, pat, rep)| >= |s|
    ensures forall k :: 0 <= k < |s| && k < |pat| ==> ReplaceAll(s, pat, rep)[k] == s[k]
    decreases |s|
  {
    var r := ReplaceAll(s, pat, rep);
    if |s| < |pat| {
    } else if s[..|pat|] == pat {
      ReplaceAllKeepsHead(s[|pat|..], pat, rep);
      forall k | 0 <= k < |pat|
        ensures r[k] == s[k]
      {
        calc {
          r[k];
          rep[k];
          { assert rep[..|pat|][k] == rep[k]; }
          pat[k];
          { assert s[..|pat|][k] == s[k]; }
          s[k];
        }
      }
    } else {
      var tail := ReplaceAll(s[1..], pat, rep);
      ReplaceAllKeepsHead(s[1..], pat, rep);
      assert r == [s[0]] + tail;
      forall k | 1 <= k < |pat|
        ensures r[k] == s[k]
      {
        assert r[k] == tail[k - 1] == s[1..][k - 1];
      }
    }
  }

  /**
   * Appending `suffix` after every occurrence of `pat` is undone by replacing
   * every `pat + suffix` with `pat`.
   */
  lemma {:induction false} ReplaceAllInverse(s: string, pat: string, suffix: string)
    requires |pat| > 0
    ensures ReplaceAll(ReplaceAll(s, pat, pat + suffix), pat + suffix, pat) == s
    decreases |s|
  {
    var rep := pat + suffix;
    var y := ReplaceAll(s, pat, rep);
    if |s| < |pat| {
    } else if s[..|pat|] == pat {
      var rest := ReplaceAll(s[|pat|..], pat, rep);
      ReplaceAllInverse(s[|pat|..], pat, suffix);
      assert y == rep + rest;
      assert y[..|rep|] == rep && y[|rep|..] == rest;
      assert ReplaceAll(y, rep, pat) == pat + ReplaceAll(rest, rep, pat);
      assert s == pat + s[|pat|..];
    } else {
      var tail := ReplaceAll(s[1..], pat, rep);
      ReplaceAllInverse(s[1..], pat, suffix);
      assert y == [s[0]] + tail;
      if |y| < |rep| {
        assert ReplaceAll(tail, rep, pat) == tail;
        assert ReplaceAll(y, rep, pat) == y;
        assert s == [s[0]] + s[1..];
      } else {
        assert y[..|rep|] != rep by {
          ReplaceAllKeepsHead(s, pat, rep);
          assert y[..|rep|][..|pat|] == s[..|pat|];
          assert rep[..|pat|] == pat;
        }
        assert y[1..] == tail;
        assert ReplaceAll(y, rep, pat) == [s[0]] + ReplaceAll(tail, rep, pat);
        assert s == [s[0]] + s[1..];
      }
    }
  }

  /**
   * The first occurrence, as `indexOf` finds it, is replaced, and the search
   * goes on after it: together with `ReplaceAllAbsent` this determines
   * `replaceAll` completely.
   */
  lemma ReplaceAllAtFirst(s: string, pat: string, rep: string)
    requires |pat| > 0 && IndexOf(s, pat) >= 0
    ensures var i := IndexOf(s, pat);
      ReplaceAll(s, pat, rep) == s[..i] + rep + ReplaceAll(s[i + |pat|..], pat, rep)
  {
    ReplaceAllAt(s, pat, rep, IndexOf(s, pat));
  }

  /** `ReplaceAllAtFirst` for an index `i` known to be the first occurrence. */
  lemma {:induction false} ReplaceAllAt(s: string, pat: string, rep: string, i: int)
    requires |pat| > 0 && OccursAt(s, pat, i)
    requires forall j :: 0 <= j < i ==> !OccursAt(s, pat, j)
    ensures ReplaceAll(s, pat, rep) == s[..i] + rep + ReplaceAll(s[i + |pat|..], pat, rep)
    decreases i
  {
    if i == 0 {
      assert s[..|pat|] == s[0..0 + |pat|];
      ReplaceAllTake(s, pat, rep);
    } else {
      var t, j := s[1..], i - 1;
      FirstOccurrenceShift(s, pat, i);
      ReplaceAllAt(t, pat, rep, j);
      ReplaceAllSkip(s, pat, rep);
      ReplaceAllOfDrop(s, t, i, j, pat, rep);
      Glue(s, t, i, j, rep, ReplaceAll(s, pat, rep), ReplaceAll(t, pat, rep),
           ReplaceAll(t[j + |pat|..], pat, rep), ReplaceAll(s[i + |pat|..], pat, rep));
    }
  }

  /** A first occurrence at `i >= 1` is a first occurrence of `s[1..]` at `i - 1`, and `s` does not start with `pat`. */
  lemma FirstOccurrenceShift(s: string, pat: string, i: int)
    requires 1 <= i && OccursAt(s, pat, i)
    requires forall j :: 0 <= j < i ==> !OccursAt(s, pat, j)
    ensures |pat| <= |s| && !StartsWith(s, pat)
    ensures OccursAt(s[1..], pat, i - 1)
    ensures forall j :: 0 <= j < i - 1 ==> !OccursAt(s[1..], pat, j)
  {
    assert !OccursAt(s, pat, 0);
    ShiftOccurrence(s, pat);
  }

  /** Where `s` starts with `pat`, that occurrence is replaced. */
  lemma ReplaceAllTake(s: string, pat: string, rep: string)
    requires |pat| > 0 && StartsWith(s, pat)
    ensures ReplaceAll(s, pat, rep) == s[..0] + rep + ReplaceAll(s[0 + |pat|..], pat, rep)
  {
    assert s[..0] + rep == rep;
  }

  /** Where `s` does not start with `pat`, its first character is copied. */
  lemma ReplaceAllSkip(s: string, pat: string, rep: string)
    requires |pat| > 0 && |pat| <= |s| && !StartsWith(s, pat)
    ensures ReplaceAll(s, pat, rep) == [s[0]] + ReplaceAll(s[1..], pat, rep)
  {
  }

  lemma ReplaceAllOfDrop(s: string, t: string, i: int, j: int, pat: string, rep: string)
    requires 1 <= i && i + |pat| <= |s| && |pat| > 0 && t == s[1..] && j == i - 1
    ensures ReplaceAll(t[j + |pat|..], pat, rep) == ReplaceAll(s[i + |pat|..], pat, rep)
  {
    assert t[j + |pat|..] == s[i + |pat|..];
  }

  /** Reassembles `s[..i] + rep + rest` from its first character and the rest. */
  lemma Glue(s: string, t: string, i: int, j: int, rep: string, whole: string, tail: string, tailRest: string, rest: string)
    requires 1 <= i <= |s| && t == s[1..] && j == i - 1
    requires whole == [s[0]] + tail && tail == t[..j] + rep + tailRest && tailRest == rest
    ensures whole == s[..i] + rep + rest
  {
    assert [s[0]] + t[..j] == s[..i];
  }

  /** What is spliced in after a prefix occurs right after it. */
  lemma SplicedAt(a: string, m: string, b: string, r: string)
    requires r == a + m + b
    ensures r[..|a|] == a && OccursAt(r, m, |a|)
  {
    assert r[|a|..|a| + |m|] == m;
  }
}
