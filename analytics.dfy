/**
 * analytics/diagonator_analytics/main.py: the histogram of deactivations by hour of the day,
 * stacked by why the session was not unlocked. Each logged deactivation is classified by the
 * state and the reason reported at the time.
 */
module Analytics {

  /** A logged deactivation: seconds since local midnight, and the reported state and reason. */
  datatype Row = Row(time: int, state: string, reason: string)

  datatype Bucket = UnlockableBucket | BreakTimerBucket | RequirementNotMetBucket | LockedTimeRangeBucket

  /** The masks `ul`, `rm`, `bt` and the rest: Unlockable first, then the reason. */
  function Classify(row: Row): (b: Bucket)
    ensures b == UnlockableBucket <==> row.state == "Unlockable"
    ensures b == RequirementNotMetBucket <==> row.state != "Unlockable" && row.reason == "RequirementNotMet"
    ensures b == BreakTimerBucket <==> row.state != "Unlockable" && row.reason == "BreakTimer"
    ensures b == LockedTimeRangeBucket <==>
              row.state != "Unlockable" && row.reason != "RequirementNotMet" && row.reason != "BreakTimer"
  {
    if row.state == "Unlockable" then UnlockableBucket
    else if row.reason == "RequirementNotMet" then RequirementNotMetBucket
    else if row.reason == "BreakTimer" then BreakTimerBucket
    else LockedTimeRangeBucket
  }

  /** The rows of one bucket, in order. */
  function InBucket(rows: seq<Row>, b: Bucket): (r: seq<Row>)
    ensures forall x :: x in r <==> x in rows && Classify(x) == b
    ensures |r| <= |rows|
    decreases |rows|
  {
    if rows == [] then []
    else
      assert rows == [rows[0]] + rows[1..];
      (if Classify(rows[0]) == b then [rows[0]] else []) + InBucket(rows[1..], b)
  }

  /** The four buckets share no row and together hold every row: their sizes add up. */
  lemma {:induction false} BucketsPartition(rows: seq<Row>)
    ensures |InBucket(rows, UnlockableBucket)| + |InBucket(rows, BreakTimerBucket)|
            + |InBucket(rows, RequirementNotMetBucket)| + |InBucket(rows, LockedTimeRangeBucket)| == |rows|
    decreases |rows|
  {
    if rows != [] {
      BucketsPartition(rows[1..]);
    }
  }

  /** The hour bin of a time of day: bins are [k, k + 1) hours for k in 0..23. */
  function HourBin(time: int): (k: nat)
    requires 0 <= time < 86400
    ensures k < 24
    ensures k * 3600 <= time < (k + 1) * 3600
  {
    time / 3600
  }

  /** The number of rows of a bucket that fall in hour bin `k`. */
  function BinCount(rows: seq<Row>, b: Bucket, k: nat): (n: nat)
    requires forall i :: 0 <= i < |rows| ==> 0 <= rows[i].time < 86400
    ensures n <= |InBucket(rows, b)|
    decreases |rows|
  {
    if rows == [] then 0
    else (if Classify(rows[0]) == b && HourBin(rows[0].time) == k then 1 else 0) + BinCount(rows[1..], b, k)
  }

  /** Summing a bucket over the 24 bins counts each of its rows once. */
  function BinTotal(rows: seq<Row>, b: Bucket, upTo: nat): nat
    requires forall i :: 0 <= i < |rows| ==> 0 <= rows[i].time < 86400
    requires upTo <= 24
  {
    if upTo == 0 then 0 else BinTotal(rows, b, upTo - 1) + BinCount(rows, b, upTo - 1)
  }

  lemma {:induction false} BinTotalCons(rows: seq<Row>, b: Bucket, upTo: nat)
    requires rows != [] && forall i :: 0 <= i < |rows| ==> 0 <= rows[i].time < 86400
    requires upTo <= 24
    ensures BinTotal(rows, b, upTo) ==
              BinTotal(rows[1..], b, upTo) + (if Classify(rows[0]) == b && HourBin(rows[0].time) < upTo then 1 else 0)
    decreases upTo
  {
    if upTo > 0 {
      BinTotalCons(rows, b, upTo - 1);
    }
  }

  lemma {:induction false} BinTotalEmpty(b: Bucket, upTo: nat)
    requires upTo <= 24
    ensures BinTotal([], b, upTo) == 0
    decreases upTo
  {
    if upTo > 0 {
      BinTotalEmpty(b, upTo - 1);
    }
  }

  /** Every row of a bucket lands in exactly one of the 24 bins. */
  lemma {:induction false} BinsCoverBucket(rows: seq<Row>, b: Bucket)
    requires forall i :: 0 <= i < |rows| ==> 0 <= rows[i].time < 86400
    ensures BinTotal(rows, b, 24) == |InBucket(rows, b)|
    decreases |rows|
  {
    if rows != [] {
      BinTotalCons(rows, b, 24);
      BinsCoverBucket(rows[1..], b);
      assert HourBin(rows[0].time) < 24;
    } else {
      BinTotalEmpty(b, 24);
    }
  }
}
