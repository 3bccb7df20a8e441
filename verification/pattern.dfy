/**
 The column-name pattern of `find_timestamp_candidates`:

     (?i)(?:^|(?<=[\W/_-]))(?:time|timestamp(?:\s*\[ns\])?|ts)(?:$|(?=[\W/_-]))

 A name is a timestamp name when one of the keywords `time`, `timestamp` or
 `ts` occurs in it, ignoring case, with a boundary on each side. A boundary is
 the edge of the string or a character that is not a letter or digit: the class
 `[\W/_-]` is "not a word character" plus `_`, and `/`, `-` are already in `\W`.

 The module states the pattern twice: `PatternAt`/`PatternSearch` follow the
 regular expression alternative by alternative, including the optional
 `\s*\[ns\]` after `timestamp`; `IsTimestampName` is the plain keyword-token
 predicate. `PatternSearchIsTimestampName` proves they agree, and the
 methods `MatchAt` and `Search` implement the scan.
 */
module TimestampPattern {
  import opened Chars

  const Time: string := "time"
  const Timestamp: string := "timestamp"
  const Ts: string := "ts"
  const Keywords: seq<string> := [Time, Timestamp, Ts]

  /** The literal `\[ns\]` that may follow `timestamp`. */
  const NsTag: string := "[ns]"

  /** The lower-case word `kw` occurs at offset `i` of `s`, ignoring the case of `s`. */
  predicate KeywordAt(s: string, i: nat, kw: string) {
    i + |kw| <= |s| && Lower(s[i..i + |kw|]) == kw
  }

  /** `(?:^|(?<=[\W/_-]))`: offset `i` is the start of `s` or follows a non-alphanumeric character. */
  predicate LeftBoundary(s: string, i: nat) {
    i == 0 || (i <= |s| && !IsAlnum(s[i - 1]))
  }

  /** `(?:$|(?=[\W/_-]))`: offset `j` is the end of `s` or precedes a non-alphanumeric character. */
  predicate RightBoundary(s: string, j: nat) {
    j == |s| || (j < |s| && !IsAlnum(s[j]))
  }

  /** Keyword `kw` occurs at `i` as a whole token: bounded on both sides. */
  predicate TokenAt(s: string, i: nat, kw: string) {
    LeftBoundary(s, i) && KeywordAt(s, i, kw) && RightBoundary(s, i + |kw|)
  }

  /** The plain statement of the rule: some keyword occurs somewhere in `s` as a token. */
  ghost predicate IsTimestampName(s: string) {
    exists i: nat, kw: string :: kw in Keywords && TokenAt(s, i, kw)
  }

  /** `\s*\[ns\]` spans exactly `s[j..e]`: whitespace, then `[ns]` in any case. */
  predicate NsTagSpan(s: string, j: nat, e: nat) {
    && j + |NsTag| <= e <= |s|
    && (forall m :: j <= m < e - |NsTag| ==> IsSpace(s[m]))
    && Lower(s[e - |NsTag|..e]) == NsTag
  }

  /**
   The regular expression, anchored at offset `i`: the lookbehind, then one of
   the four ways through the alternation, each followed by the lookahead.
   */
  ghost predicate PatternAt(s: string, i: nat) {
    && LeftBoundary(s, i)
    && (|| (KeywordAt(s, i, Time) && RightBoundary(s, i + |Time|))
        || (KeywordAt(s, i, Timestamp)
            && exists e: nat :: NsTagSpan(s, i + |Timestamp|, e) && RightBoundary(s, e))
        || (KeywordAt(s, i, Timestamp) && RightBoundary(s, i + |Timestamp|))
        || (KeywordAt(s, i, Ts) && RightBoundary(s, i + |Ts|)))
  }

  /** `pattern.search(s)` succeeds: the expression matches at some offset. */
  ghost predicate PatternSearch(s: string) {
    exists i: nat :: i <= |s| && PatternAt(s, i)
  }

  /** `timestamp` followed by `\s*\[ns\]` is already bounded on its right. */
  lemma NsTagBoundsTimestamp(s: string, j: nat, e: nat)
    requires NsTagSpan(s, j, e)
    ensures RightBoundary(s, j)
  {
  }

  /** Whatever way the expression matches, some keyword occurs there as a token. */
  lemma PatternAtIsToken(s: string, i: nat)
    requires PatternAt(s, i)
    ensures exists kw :: kw in Keywords && TokenAt(s, i, kw)
  {
    if KeywordAt(s, i, Time) && RightBoundary(s, i + |Time|) {
      assert TokenAt(s, i, Time);
    } else if KeywordAt(s, i, Timestamp) && RightBoundary(s, i + |Timestamp|) {
      assert TokenAt(s, i, Timestamp);
    } else if KeywordAt(s, i, Ts) && RightBoundary(s, i + |Ts|) {
      assert TokenAt(s, i, Ts);
    } else {
      var e: nat :| NsTagSpan(s, i + |Timestamp|, e) && RightBoundary(s, e);
      NsTagBoundsTimestamp(s, i + |Timestamp|, e);
      assert TokenAt(s, i, Timestamp);
    }
  }

  /** The optional `\s*\[ns\]` never changes whether a name matches. */
  lemma PatternSearchIsTimestampName(s: string)
    ensures PatternSearch(s) <==> IsTimestampName(s)
  {
    if PatternSearch(s) {
      var i: nat :| i <= |s| && PatternAt(s, i);
      PatternAtIsToken(s, i);
    }
    if IsTimestampName(s) {
      var i: nat, kw: string :| kw in Keywords && TokenAt(s, i, kw);
      assert PatternAt(s, i);
    }
  }

  /**
   Tries the expression at offset `i`, in the order the regular expression
   engine tries it; the `\s*` loop is the greedy scan (backtracking into it can
   never help, since `[` is not whitespace).
   */
  method MatchAt(s: string, i: nat) returns (b: bool)
    requires i <= |s|
    ensures b <==> PatternAt(s, i)
  {
    if !LeftBoundary(s, i) {
      return false;
    }
    if KeywordAt(s, i, Time) && RightBoundary(s, i + |Time|) {
      return true;
    }
    if KeywordAt(s, i, Timestamp) {
      var j := i + |Timestamp|;
      var k := j;
      while k < |s| && IsSpace(s[k])
        invariant j <= k <= |s|
        invariant forall m :: j <= m < k ==> IsSpace(s[m])
      {
        k := k + 1;
      }
      if k + |NsTag| <= |s| && Lower(s[k..k + |NsTag|]) == NsTag && RightBoundary(s, k + |NsTag|) {
        assert NsTagSpan(s, j, k + |NsTag|);
        return true;
      }
      // No other end offset can complete `\s*\[ns\]`: it would have to put `[` at `k`.
      forall e: nat | NsTagSpan(s, j, e)
        ensures !RightBoundary(s, e)
      {
        var b := e - |NsTag|;
        assert Lower(s[b..e])[0] == '[';
        assert ToLower(s[b]) == '[' && !IsSpace(s[b]);
        assert k < |s| ==> !IsSpace(s[k]);
        assert b == k;
      }
      if RightBoundary(s, j) {
        return true;
      }
    }
    if KeywordAt(s, i, Ts) && RightBoundary(s, i + |Ts|) {
      return true;
    }
    return false;
  }

  /** `pattern.search(s) is not None`: tries every offset from left to right. */
  method Search(s: string) returns (found: bool)
    ensures found <==> PatternSearch(s)
    ensures found <==> IsTimestampName(s)
  {
    PatternSearchIsTimestampName(s);
    var i := 0;
    while i <= |s|
      invariant 0 <= i <= |s| + 1
      invariant forall j: nat :: j < i ==> !PatternAt(s, j)
    {
      var hit := MatchAt(s, i);
      if hit {
        return true;
      }
      i := i + 1;
    }
    return false;
  }

  /** Two names that differ only in letter case have the same tokens. */
  lemma TokenAtCaseInvariant(s: string, t: string, i: nat, kw: string)
    requires Lower(s) == Lower(t)
    ensures TokenAt(s, i, kw) <==> TokenAt(t, i, kw)
  {
  }

  /** Changing the letter case of a name never changes whether it is a timestamp name. */
  lemma {:induction false} TimestampNameCaseInvariant(s: string, t: string)
    requires Lower(s) == Lower(t)
    ensures IsTimestampName(s) <==> IsTimestampName(t)
  {
    if IsTimestampName(s) {
      var i: nat, kw: string :| kw in Keywords && TokenAt(s, i, kw);
      TokenAtCaseInvariant(s, t, i, kw);
    }
    if IsTimestampName(t) {
      var i: nat, kw: string :| kw in Keywords && TokenAt(t, i, kw);
      TokenAtCaseInvariant(s, t, i, kw);
    }
  }

  /** Lower-casing or upper-casing a name keeps its classification. */
  lemma {:induction false} TimestampNameOfCase(s: string)
    ensures IsTimestampName(Lower(s)) <==> IsTimestampName(s)
    ensures IsTimestampName(Upper(s)) <==> IsTimestampName(s)
  {
    forall k | 0 <= k < |s|
      ensures ToLower(ToLower(s[k])) == ToLower(s[k]) && ToLower(ToUpper(s[k])) == ToLower(s[k])
    {
      ToLowerOfCase(s[k]);
    }
    assert Lower(Lower(s)) == Lower(s);
    assert Lower(Upper(s)) == Lower(s);
    TimestampNameCaseInvariant(Lower(s), s);
    TimestampNameCaseInvariant(Upper(s), s);
  }
}
