/** The accepted and rejected names that illustrate the boundary rule. */
module PatternExamples {
  import opened Chars
  import opened TimestampPattern

  /** A keyword after `_`, after a space, before `_`, before `-`, and `timestamp [ns]`. */
  lemma AcceptedNames()
    ensures IsTimestampName("gaze_ts")
    ensures IsTimestampName("start time")
    ensures IsTimestampName("timestamp_ns")
    ensures IsTimestampName("ts-1")
    ensures IsTimestampName("timestamp [ns]")
    ensures IsTimestampName("Timestamp")
  {
    assert TokenAt("gaze_ts", 5, Ts);
    assert TokenAt("start time", 6, Time);
    assert TokenAt("timestamp_ns", 0, Timestamp);
    assert TokenAt("ts-1", 0, Ts);
    assert TokenAt("timestamp [ns]", 0, Timestamp);
    assert TokenAt("Timestamp", 0, Timestamp);
  }

  /** `timestamp [ns]` also matches through the `\s*\[ns\]` alternative. */
  lemma NsTagAlternative()
    ensures PatternAt("timestamp [ns]", 0)
  {
  }

  /** `runtime` and `starts`: the keyword has a letter on its left. */
  lemma RejectedLeft()
    ensures !IsTimestampName("runtime")
    ensures !IsTimestampName("starts")
  {
  }

  /** `times` and `timestamps`: the keyword has a letter on its right. */
  lemma RejectedRight()
    ensures !IsTimestampName("times")
    ensures !IsTimestampName("timestamps")
  {
  }

  /** `value` holds no keyword at all. */
  lemma RejectedValue()
    ensures !IsTimestampName("value")
  {
  }
}

/** The filter on a concrete header. */
module ColumnExamples {
  import opened TimestampPattern
  import opened TimestampColumns
  import PatternExamples

  /** Of the columns `timestamp_ns` and `value`, only `timestamp_ns` is a candidate. */
  lemma PicksTimestampColumn()
    ensures Candidates(["timestamp_ns", "value"]) == ["timestamp_ns"]
  {
    PatternExamples.AcceptedNames();
    PatternExamples.RejectedValue();
    var cols := ["timestamp_ns", "value"];
    assert cols[..1] == ["timestamp_ns"] && cols[..1][..0] == [];
  }
}
