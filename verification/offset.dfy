/**
 The clock offset as the follower computes it from the `timeval` filled in
 by the NTP exchange. The exchange itself is not part of this model; its
 result is the input here.
 */
module Offset {
  import opened RustInt

  /** A C `timeval`: whole seconds and a microsecond field. */
  datatype TimeVal = TimeVal(sec: int, usec: int)

  /**
   The offset in milliseconds exactly as the loop computes it: seconds scaled
   by 1000 and the microsecond field added without any scaling, so each
   microsecond of the field counts as one millisecond.
   */
  function OffsetMs(tv: TimeVal): (r: int)
    ensures r - tv.usec == tv.sec * 1000
    ensures r % 1000 == tv.usec % 1000
  {
    tv.sec * 1000 + tv.usec
  }

  /**
   For a normalised timeval (microseconds in [0, 10^6)) the result agrees with
   the offset in whole milliseconds, rounded down, only when the microsecond
   field is zero.
   */
  lemma OffsetMsMatchesMillisecondsIff(tv: TimeVal)
    requires 0 <= tv.usec < 1000000
    ensures OffsetMs(tv) == (tv.sec * 1000000 + tv.usec) / 1000 <==> tv.usec == 0
  {
    var total := tv.sec * 1000000 + tv.usec;
    assert total == (tv.sec * 1000 + tv.usec / 1000) * 1000 + tv.usec % 1000;
    assert total / 1000 == tv.sec * 1000 + tv.usec / 1000;
    if tv.usec != 0 {
      assert tv.usec / 1000 < tv.usec;
    }
  }

  /** Half a second of offset reads as 500000 ms instead of 500 ms. */
  lemma HalfSecondOffset()
    ensures OffsetMs(TimeVal(0, 500000)) == 500000
    ensures (0 * 1000000 + 500000) / 1000 == 500
  {
  }
}
