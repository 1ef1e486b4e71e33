/**
 * The spider object (CFETSScheduledSpider in CFETSSentimentSpider.py): it
 * owns the archive `today_data` and updates it in place after each
 * collection. The browser session, the clock and the console stay outside:
 * the chart script's result and the day and time strings are parameters.
 */
module Spider {

  import opened Wrappers
  import opened Payload
  import opened Archive

  /** A summary line prints when each of its first four values can be formatted. */
  predicate RowPrintable<S>(row: Row<Payload<S>>)
  {
    forall k :: 0 <= k < 4 && k < |row.1| ==> Formattable(row.1[k])
  }

  /**
   * How many lines print_summary prints before one raises: the position of
   * the first row that cannot be formatted, or all the rows when there is none.
   */
  function PrintedCount<S>(rows: seq<Row<Payload<S>>>): (n: nat)
    ensures n <= |rows|
    ensures forall i :: 0 <= i < n ==> RowPrintable(rows[i])
    ensures n < |rows| ==> !RowPrintable(rows[n])
  {
    if rows == [] || !RowPrintable(rows[0]) then 0 else 1 + PrintedCount(rows[1..])
  }

  /** The printed count is the only position that has printable rows before it and a failing row (or the end) at it. */
  lemma PrintedCountUnique<S>(rows: seq<Row<Payload<S>>>, n: nat)
    requires n <= |rows|
    requires forall i :: 0 <= i < n ==> RowPrintable(rows[i])
    requires n < |rows| ==> !RowPrintable(rows[n])
    ensures PrintedCount(rows) == n
  {
  }

  /**
   * The walk over a day's keys stops at key i when that key's record is
   * selected and cannot be printed while the rows before it all can.
   */
  lemma PrintStops<S>(log: DailyLog<Payload<S>>, i: nat)
    requires log.Valid() && i < |log.times|
    requires Covered(log.times[..i], log.records)
    requires forall j :: 0 <= j < |Rows(log.times[..i], log.records)| ==> RowPrintable(Rows(log.times[..i], log.records)[j])
    requires var t := log.times[i]; |log.records[t]| >= 4 && !RowPrintable((t, log.records[t]))
    ensures var all := Rows(log.times, log.records); var before := Rows(log.times[..i], log.records);
      PrintedCount(all) == |before| < |all| && all[..|before|] == before
  {
    var t := log.times[i];
    var before := Rows(log.times[..i], log.records);
    var rest := log.times[i + 1..];
    RowsStep(log, i);
    assert Covered(rest, log.records);
    assert log.times == log.times[..i + 1] + rest;
    RowsAppend(log.times[..i + 1], rest, log.records);
    var all := Rows(log.times, log.records);
    assert all == before + [(t, log.records[t])] + Rows(rest, log.records);
    assert all[|before|] == (t, log.records[t]);
    assert all[..|before|] == before;
    PrintedCountUnique(all, |before|);
  }

  class ScheduledSpider<S> {

    /** `today_data`: date string to that day's time-keyed records. */
    var todayData: Archive<Payload<S>>

    ghost predicate Valid()
      reads this
    {
      ArchiveValid(todayData)
    }

    /** A new spider starts with an empty archive. */
    constructor ()
      ensures Valid() && todayData == map[]
    {
      todayData := map[];
    }

    /**
     * The archive update of get_sentiment_data: with at least four indices the
     * day entry is created when missing, `[day][time]` becomes the first four
     * and those four are returned; otherwise nothing changes and the result is
     * None.
     */
    method Store(day: string, time: string, indices: Option<seq<Payload<S>>>)
      returns (result: Option<seq<Payload<S>>>)
      requires Valid()
      modifies this
      ensures Valid()
      ensures todayData == Record(old(todayData), day, time, indices)
      ensures Accepted(indices) ==> result == Some(indices.value[..4])
      ensures !Accepted(indices) ==> result == None && todayData == old(todayData)
      ensures result.Some? ==> |result.value| == 4 && Lookup(todayData, day, time) == result
    {
      if Accepted(indices) {
        if day !in todayData {
          todayData := todayData[day := EmptyLog()];
        }
        todayData := todayData[day := todayData[day].Put(time, indices.value[..4])];
        result := Some(indices.value[..4]);
      } else {
        result := None;
      }
    }

    /**
     * One collection. `fetched` is what the chart script returned, or None
     * when the browser session failed (setup, navigation or the wait for the
     * chart element raised); the payload check then runs and its record, if
     * any, is stored at `[day][time]` and returned.
     */
    method GetSentimentData(fetched: Option<Payload<S>>, day: string, time: string)
      returns (result: Option<seq<Payload<S>>>)
      requires Valid()
      modifies this
      ensures Valid()
      ensures fetched.None? ==> result == None
      ensures fetched.Some? ==> result == ExtractIndices(fetched.value)
      ensures todayData == Record(old(todayData), day, time, result)
      ensures result.None? ==> todayData == old(todayData)
      ensures result.Some? ==> |result.value| == 4 && Lookup(todayData, day, time) == result
    {
      var indices := if fetched.Some? then ExtractIndices(fetched.value) else None;
      assert indices.Some? ==> indices.value[..4] == indices.value;
      result := Store(day, time, indices);
    }

    /**
     * print_summary: the entries of `day`, in key order, whose record holds at
     * least four values, each printed as a line; none when the day is absent.
     * A line whose first four values cannot be formatted raises TypeError, so
     * the rows printed are those before it and `raised` reports the error.
     */
    method PrintSummary(day: string) returns (rows: seq<Row<Payload<S>>>, raised: bool)
      requires Valid()
      ensures var all := Summary(todayData, day);
        rows == all[..PrintedCount(all)] && (raised <==> PrintedCount(all) < |all|)
    {
      rows := [];
      raised := false;
      if day in todayData {
        var log := todayData[day];
        var i := 0;
        while i < |log.times|
          invariant 0 <= i <= |log.times|
          invariant Covered(log.times[..i], log.records)
          invariant rows == Rows(log.times[..i], log.records)
          invariant forall j :: 0 <= j < |rows| ==> RowPrintable(rows[j])
        {
          var t := log.times[i];
          var values := log.records[t];
          RowsStep(log, i);
          if |values| >= 4 {
            if !RowPrintable((t, values)) {
              PrintStops(log, i);
              raised := true;
              return;
            }
            rows := rows + [(t, values)];
          }
          i := i + 1;
        }
        assert log.times[..i] == log.times;
      }
      PrintedCountUnique(rows, |rows|);
      assert rows[..|rows|] == rows;
    }

    /**
     * A scheduled job (job_0846, job_1016, job_1431, job_1601 are the same):
     * one collection, then the summary of `summaryDay`, which the source
     * reads from the clock again. `raised` is the TypeError of a summary line
     * that cannot be formatted, which the job does not catch.
     */
    method RunJob(fetched: Option<Payload<S>>, day: string, time: string, summaryDay: string)
      returns (result: Option<seq<Payload<S>>>, rows: seq<Row<Payload<S>>>, raised: bool)
      requires Valid()
      modifies this
      ensures Valid()
      ensures result == (if fetched.Some? then ExtractIndices(fetched.value) else None)
      ensures todayData == Record(old(todayData), day, time, result)
      ensures var all := Summary(todayData, summaryDay);
        rows == all[..PrintedCount(all)] && (raised <==> PrintedCount(all) < |all|)
    {
      result := GetSentimentData(fetched, day, time);
      rows, raised := PrintSummary(summaryDay);
    }

    /**
     * test_now: one collection, and the summary only when it succeeded; a
     * summary line that cannot be formatted raises out of test_now.
     */
    method TestNow(fetched: Option<Payload<S>>, day: string, time: string, summaryDay: string)
      returns (result: Option<seq<Payload<S>>>, summary: Option<seq<Row<Payload<S>>>>, raised: bool)
      requires Valid()
      modifies this
      ensures Valid()
      ensures result == (if fetched.Some? then ExtractIndices(fetched.value) else None)
      ensures todayData == Record(old(todayData), day, time, result)
      ensures result.None? ==> summary == None && !raised
      ensures result.Some? ==> var all := Summary(todayData, summaryDay);
        summary == Some(all[..PrintedCount(all)]) && (raised <==> PrintedCount(all) < |all|)
    {
      result := GetSentimentData(fetched, day, time);
      if result.Some? && |result.value| > 0 {
        var rows;
        rows, raised := PrintSummary(summaryDay);
        summary := Some(rows);
      } else {
        summary := None;
        raised := false;
      }
    }
  }

  /**
   * A collection of the chart point {single: [a, b, c], value: d} at (day,
   * time) stores and returns exactly [a, b, c, d] and leaves every other slot
   * of the archive as it was.
   */
  lemma CollectChartPoint<S>(arc: Archive<Payload<S>>, day: string, time: string,
                             a: Payload<S>, b: Payload<S>, c: Payload<S>, d: Payload<S>)
    requires ArchiveValid(arc)
    ensures var indices := ExtractIndices(ChartPoint(a, b, c, d));
      && indices == Some([a, b, c, d])
      && Lookup(Record(arc, day, time, indices), day, time) == Some([a, b, c, d])
      && forall d', t' :: (d' != day || t' != time) ==>
           Lookup(Record(arc, day, time, indices), d', t') == Lookup(arc, d', t')
  {
    ExtractChartPoint(a, b, c, d);
    assert [a, b, c, d][..4] == [a, b, c, d];
  }


  /** A day whose records hold only numbers, strings or booleans prints every selected row without raising. */
  lemma FormattableDayPrintsAll<S>(arc: Archive<Payload<S>>, day: string)
    requires ArchiveValid(arc)
    requires day in arc ==> forall t, k :: t in arc[day].records && 0 <= k < |arc[day].records[t]| ==>
      Formattable(arc[day].records[t][k])
    ensures PrintedCount(Summary(arc, day)) == |Summary(arc, day)|
  {
    var all := Summary(arc, day);
    forall i | 0 <= i < |all|
      ensures RowPrintable(all[i])
    {
      assert Lookup(arc, day, all[i].0) == Some(all[i].1);
    }
    PrintedCountUnique(all, |all|);
  }

  /**
   * A chart point whose composite value is null is accepted and stored, and
   * the summary of a day holding only that record raises on its first line.
   */
  lemma NullValueRaises<S>(arc: Archive<Payload<S>>, day: string, time: string, a: S, b: S, c: S)
    requires ArchiveValid(arc) && day !in arc
    ensures var indices := ExtractIndices(ChartPoint(Scalar(a), Scalar(b), Scalar(c), Null));
      var all := Summary(Record(arc, day, time, indices), day);
      && indices == Some([Scalar(a), Scalar(b), Scalar(c), Null])
      && all == [(time, [Scalar(a), Scalar(b), Scalar(c), Null])]
      && PrintedCount(all) == 0
  {
    var rec := [Scalar(a), Scalar(b), Scalar(c), Null];
    ExtractChartPoint(Scalar(a), Scalar(b), Scalar(c), Null);
    assert rec[..4] == rec;
    var r := Record(arc, day, time, Some(rec));
    assert r[day] == EmptyLog().Put(time, rec);
    assert r[day].times == [time];
    assert !RowPrintable((time, rec)) by {
      assert !Formattable(rec[3]);
    }
  }

}
