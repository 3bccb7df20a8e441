/**
 `find_timestamp_candidates`: the column names that match the timestamp
 pattern, kept in column order. `Candidates` is the reference filter, stated
 with the plain keyword-token predicate; `FindTimestampCandidates` is the list
 comprehension, running the pattern scan on each name.
 */
module TimestampColumns {
  import opened Chars
  import opened TimestampPattern

  /** The timestamp names among `columns`, in their original order. */
  ghost function Candidates(columns: seq<string>): (r: seq<string>)
    ensures |r| <= |columns|
  {
    if columns == [] then []
    else
      var last := columns[|columns| - 1];
      Candidates(columns[..|columns| - 1]) + (if IsTimestampName(last) then [last] else [])
  }

  /** `ys` is `xs` read at the strictly ascending offsets `idx`. */
  ghost predicate ReadAt(xs: seq<string>, ys: seq<string>, idx: seq<nat>) {
    && |idx| == |ys|
    && (forall k :: 0 <= k < |idx| ==> idx[k] < |xs| && ys[k] == xs[idx[k]])
    && (forall k, l :: 0 <= k < l < |idx| ==> idx[k] < idx[l])
  }

  /**
   `ys` is `xs` read at the ascending offsets `idx`, and `idx` holds exactly
   the offsets whose name is a timestamp name: nothing added, duplicated,
   dropped or reordered.
   */
  ghost predicate SelectsMatches(xs: seq<string>, ys: seq<string>, idx: seq<nat>) {
    && ReadAt(xs, ys, idx)
    && (forall i: nat :: i < |xs| ==> (i in idx <==> IsTimestampName(xs[i])))
  }

  /** The offsets of `columns` that the filter keeps. */
  ghost function MatchPositions(columns: seq<string>): (idx: seq<nat>)
    ensures |idx| == |Candidates(columns)|
    ensures forall k :: 0 <= k < |idx| ==> idx[k] < |columns|
  {
    if columns == [] then []
    else
      var n := |columns| - 1;
      MatchPositions(columns[..n]) + (if IsTimestampName(columns[n]) then [n] else [])
  }

  /** The result is the input read at the kept offsets, which ascend. */
  lemma {:induction false} CandidatesReadAtPositions(columns: seq<string>)
    ensures ReadAt(columns, Candidates(columns), MatchPositions(columns))
  {
    if columns != [] {
      var n := |columns| - 1;
      var front := columns[..n];
      CandidatesReadAtPositions(front);
      var idx, ys := MatchPositions(columns), Candidates(columns);
      var idx0, ys0 := MatchPositions(front), Candidates(front);
      assert idx[..|idx0|] == idx0 && ys[..|ys0|] == ys0;
      forall k | 0 <= k < |idx|
        ensures ys[k] == columns[idx[k]]
      {
        if k < |idx0| {
          assert idx[k] == idx0[k] && ys[k] == ys0[k];
        }
      }
    }
  }

  /** The kept offsets are exactly those holding a timestamp name. */
  lemma {:induction false} MatchPositionsAreMatches(columns: seq<string>)
    ensures forall i: nat :: i < |columns| ==> (i in MatchPositions(columns) <==> IsTimestampName(columns[i]))
  {
    if columns != [] {
      var n := |columns| - 1;
      var front := columns[..n];
      MatchPositionsAreMatches(front);
      var idx, idx0 := MatchPositions(columns), MatchPositions(front);
      forall i: nat | i < n
        ensures i in idx <==> IsTimestampName(columns[i])
      {
        assert columns[i] == front[i];
        assert i in idx0 <==> i in idx;
      }
    }
  }

  /** The filter keeps exactly the matching offsets, in ascending order. */
  lemma CandidatesSelectsMatches(columns: seq<string>)
    ensures SelectsMatches(columns, Candidates(columns), MatchPositions(columns))
  {
    CandidatesReadAtPositions(columns);
    MatchPositionsAreMatches(columns);
  }

  /** Runs the pattern scan on each column name in turn and keeps the names it finds, in column order. */
  method FindTimestampCandidates(columns: seq<string>) returns (cols: seq<string>)
    ensures cols == Candidates(columns)
  {
    cols := [];
    for i := 0 to |columns|
      invariant cols == Candidates(columns[..i])
    {
      var hit := Search(columns[i]);
      assert columns[..i + 1][..i] == columns[..i];
      cols := cols + (if hit then [columns[i]] else []);
    }
    assert columns[..|columns|] == columns;
  }

  /** The filter never fails: with no timestamp name (in particular, no columns) it returns the empty list. */
  lemma {:induction false} NoMatchIsEmpty(columns: seq<string>)
    requires forall c :: c in columns ==> !IsTimestampName(c)
    ensures Candidates(columns) == []
  {
    if columns != [] {
      NoMatchIsEmpty(columns[..|columns| - 1]);
    }
  }

  /** A list of timestamp names passes through the filter unchanged. */
  lemma {:induction false} AllMatchIsIdentity(columns: seq<string>)
    requires forall c :: c in columns ==> IsTimestampName(c)
    ensures Candidates(columns) == columns
  {
    if columns != [] {
      var n := |columns| - 1;
      AllMatchIsIdentity(columns[..n]);
      assert columns[..n] + [columns[n]] == columns;
    }
  }

  /** A name is in the result exactly when it is one of the columns and a timestamp name. */
  lemma CandidatesMembership(columns: seq<string>, c: string)
    ensures c in Candidates(columns) <==> c in columns && IsTimestampName(c)
  {
  }

  /** Filtering the filter's own output returns that output. */
  lemma CandidatesIdempotent(columns: seq<string>)
    ensures Candidates(Candidates(columns)) == Candidates(columns)
  {
    forall c | c in Candidates(columns)
      ensures IsTimestampName(c)
    {
      CandidatesMembership(columns, c);
    }
    AllMatchIsIdentity(Candidates(columns));
  }

  /** Each name occurs in the result exactly as often as in the input if it matches, and not at all otherwise. */
  lemma {:induction false} CandidatesMultiplicity(columns: seq<string>, c: string)
    ensures multiset(Candidates(columns))[c] == if IsTimestampName(c) then multiset(columns)[c] else 0
  {
    if columns != [] {
      var n := |columns| - 1;
      CandidatesMultiplicity(columns[..n], c);
      assert columns[..n] + [columns[n]] == columns;
    }
  }

  /** The filter distributes over concatenation of column lists. */
  lemma {:induction false} CandidatesAppend(xs: seq<string>, ys: seq<string>)
    ensures Candidates(xs + ys) == Candidates(xs) + Candidates(ys)
  {
    if ys == [] {
      assert xs + ys == xs;
    } else {
      var n := |ys| - 1;
      var zs := xs + ys;
      CandidatesAppend(xs, ys[..n]);
      assert zs[..|zs| - 1] == xs + ys[..n];
      assert zs[|zs| - 1] == ys[n];
      var tail := if IsTimestampName(ys[n]) then [ys[n]] else [];
      assert Candidates(zs) == Candidates(xs + ys[..n]) + tail;
      assert Candidates(ys) == Candidates(ys[..n]) + tail;
    }
  }

  /** Every name lower-cased. */
  function LowerAll(columns: seq<string>): (r: seq<string>)
    ensures |r| == |columns|
    ensures forall i :: 0 <= i < |columns| ==> r[i] == Lower(columns[i])
  {
    seq(|columns|, i requires 0 <= i < |columns| => Lower(columns[i]))
  }

  /** Letter case does not matter: lower-casing the names before or after filtering gives the same list. */
  lemma {:induction false} CandidatesCaseInvariant(columns: seq<string>)
    ensures Candidates(LowerAll(columns)) == LowerAll(Candidates(columns))
  {
    if columns != [] {
      var n := |columns| - 1;
      CandidatesCaseInvariant(columns[..n]);
      assert LowerAll(columns)[..n] == LowerAll(columns[..n]);
      TimestampNameOfCase(columns[n]);
      var tail := if IsTimestampName(columns[n]) then [columns[n]] else [];
      assert LowerAll(Candidates(columns[..n]) + tail) == LowerAll(Candidates(columns[..n])) + LowerAll(tail);
    }
  }

  /** Two column lists that differ only in letter case keep the same offsets. */
  lemma {:induction false} MatchPositionsCaseInvariant(xs: seq<string>, ys: seq<string>)
    requires |xs| == |ys|
    requires forall i :: 0 <= i < |xs| ==> Lower(xs[i]) == Lower(ys[i])
    ensures MatchPositions(xs) == MatchPositions(ys)
  {
    if xs != [] {
      var n := |xs| - 1;
      MatchPositionsCaseInvariant(xs[..n], ys[..n]);
      TimestampNameCaseInvariant(xs[n], ys[n]);
    }
  }
}
