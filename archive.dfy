/**
 * The spider's in-memory archive `today_data`: a dictionary from a date
 * string to that day's dictionary from a time string to a record. Python
 * dictionaries keep insertion order, which the summary walks, so a day's log
 * keeps its time keys in a sequence beside the map. The record values are
 * only copied and compared, so their type V is a parameter.
 */
module Archive {

  import opened Wrappers

  /**
   * One day's records. `times` lists the keys in insertion order; assigning
   * to a key already present keeps its place, as in a Python dictionary.
   */
  datatype DailyLog<V> = DailyLog(times: seq<string>, records: map<string, seq<V>>)
  {
    ghost predicate Valid()
    {
      && (forall i, j :: 0 <= i < j < |times| ==> times[i] != times[j])
      && (forall t :: t in records <==> t in times)
    }

    /** `log[time] = rec`: the slot holds rec, every other slot is as before. */
    function Put(time: string, rec: seq<V>): (r: DailyLog<V>)
      requires Valid()
      ensures r.Valid()
      ensures time in r.records && r.records[time] == rec
      ensures forall t :: t != time ==> (t in r.records <==> t in records)
      ensures forall t :: t != time && t in records ==> r.records[t] == records[t]
      ensures time in records ==> r.times == times
      ensures time !in records ==> r.times == times + [time]
    {
      DailyLog(if time in records then times else times + [time], records[time := rec])
    }
  }

  /** The `{}` created for a day that has no entry yet. */
  function EmptyLog<V>(): (r: DailyLog<V>)
    ensures r.Valid() && r.times == [] && r.records == map[]
  {
    DailyLog([], map[])
  }

  type Archive<V> = map<string, DailyLog<V>>

  ghost predicate ArchiveValid<V>(a: Archive<V>)
  {
    forall d :: d in a ==> a[d].Valid()
  }

  /** `today_data[day][time]`, or None when either key is missing. */
  function Lookup<V>(a: Archive<V>, day: string, time: string): Option<seq<V>>
  {
    if day in a && time in a[day].records then Some(a[day].records[time]) else None
  }

  /** Python's `indices and len(indices) >= 4`. */
  predicate Accepted<V>(indices: Option<seq<V>>)
  {
    indices.Some? && |indices.value| >= 4
  }

  /**
   * The archive after one collection: when the indices are accepted, the day
   * entry is created if missing and `[day][time]` is set to the first four
   * values; otherwise the archive is left as it was.
   */
  function Record<V>(a: Archive<V>, day: string, time: string, indices: Option<seq<V>>): (r: Archive<V>)
    requires ArchiveValid(a)
    ensures ArchiveValid(r)
    ensures !Accepted(indices) ==> r == a
    ensures Accepted(indices) ==> day in r && Lookup(r, day, time) == Some(indices.value[..4])
    ensures Accepted(indices) ==> r.Keys == a.Keys + {day}
    ensures forall d, t :: (d != day || t != time) ==> Lookup(r, d, t) == Lookup(a, d, t)
    ensures forall d :: d in a && d != day ==> d in r && r[d] == a[d]
  {
    if Accepted(indices) then
      var log := if day in a then a[day] else EmptyLog();
      a[day := log.Put(time, indices.value[..4])]
    else
      a
  }

  /** Where the day's time key sits after a collection: kept if present, appended if new. */
  lemma RecordOrder<V>(a: Archive<V>, day: string, time: string, indices: Option<seq<V>>)
    requires ArchiveValid(a) && Accepted(indices)
    ensures var r := Record(a, day, time, indices);
      r[day].times ==
        if day !in a then [time]
        else if time in a[day].records then a[day].times
        else a[day].times + [time]
  {
  }

  /** Assigning a slot twice leaves the log as a single assignment of the second record would. */
  lemma PutTwice<V>(log: DailyLog<V>, time: string, x: seq<V>, y: seq<V>)
    requires log.Valid()
    ensures log.Put(time, x).Put(time, y) == log.Put(time, y)
  {
  }

  /** Recording twice at the same slot: the second record wins and nothing of the first remains. */
  lemma RecordTwice<V>(a: Archive<V>, day: string, time: string, x: Option<seq<V>>, y: Option<seq<V>>)
    requires ArchiveValid(a) && Accepted(y)
    ensures Record(Record(a, day, time, x), day, time, y) == Record(a, day, time, y)
  {
    if Accepted(x) {
      var log := if day in a then a[day] else EmptyLog();
      var once := a[day := log.Put(time, x.value[..4])];
      assert Record(a, day, time, x) == once;
      PutTwice(log, time, x.value[..4], y.value[..4]);
      assert once[day := once[day].Put(time, y.value[..4])] == a[day := log.Put(time, y.value[..4])];
    }
  }

  /** The trigger times of the daily schedule. */
  const TriggerTimes: seq<string> := ["08:46", "10:16", "14:31", "16:01"]

  /** The four trigger times are distinct keys. */
  lemma TriggerTimesDistinct()
    ensures forall i, j :: 0 <= i < j < |TriggerTimes| ==> TriggerTimes[i] != TriggerTimes[j]
  {
  }

  /** Four assignments to distinct new slots of an empty log append them in order. */
  lemma ScheduledLog<V>(recs: seq<seq<V>>) returns (log: DailyLog<V>)
    requires |recs| == 4
    ensures log == EmptyLog<V>().Put(TriggerTimes[0], recs[0]).Put(TriggerTimes[1], recs[1])
                                .Put(TriggerTimes[2], recs[2]).Put(TriggerTimes[3], recs[3])
    ensures log.times == TriggerTimes
    ensures forall k :: 0 <= k < 4 ==> TriggerTimes[k] in log.records && log.records[TriggerTimes[k]] == recs[k]
  {
    var T := TriggerTimes;
    TriggerTimesDistinct();
    var l0 := EmptyLog<V>().Put(T[0], recs[0]);
    var l1 := l0.Put(T[1], recs[1]);
    var l2 := l1.Put(T[2], recs[2]);
    assert l1.times == [T[0], T[1]];
    assert l2.times == [T[0], T[1], T[2]];
    log := l2.Put(T[3], recs[3]);
    assert log.times == [T[0], T[1], T[2], T[3]];
  }

  /** One accepted collection assigns the slot in the day's log, created empty when missing. */
  lemma RecordedDay<V>(a: Archive<V>, day: string, time: string, indices: Option<seq<V>>, log: DailyLog<V>)
    requires ArchiveValid(a) && Accepted(indices)
    requires if day in a then a[day] == log else log == EmptyLog()
    ensures var r := Record(a, day, time, indices);
      day in r && r[day] == log.Put(time, indices.value[..4])
  {
  }

  /**
   * Four successful collections at the four trigger times of a day that had
   * no entry give that day exactly four records, in trigger-time order.
   */
  lemma {:induction false} ScheduledDay<V>(a: Archive<V>, day: string, recs: seq<seq<V>>)
    requires ArchiveValid(a) && day !in a
    requires |recs| == 4 && forall k :: 0 <= k < 4 ==> |recs[k]| >= 4
    ensures
      var r := Record(Record(Record(Record(a,
                 day, TriggerTimes[0], Some(recs[0])),
                 day, TriggerTimes[1], Some(recs[1])),
                 day, TriggerTimes[2], Some(recs[2])),
                 day, TriggerTimes[3], Some(recs[3]));
      && day in r
      && r[day].times == TriggerTimes
      && forall k :: 0 <= k < 4 ==> Lookup(r, day, TriggerTimes[k]) == Some(recs[k][..4])
  {
    var T := TriggerTimes;
    var firsts := [recs[0][..4], recs[1][..4], recs[2][..4], recs[3][..4]];
    var log := ScheduledLog(firsts);
    var l0 := EmptyLog<V>().Put(T[0], firsts[0]);
    var l1 := l0.Put(T[1], firsts[1]);
    var l2 := l1.Put(T[2], firsts[2]);
    var r0 := Record(a, day, T[0], Some(recs[0]));
    RecordedDay(a, day, T[0], Some(recs[0]), EmptyLog());
    var r1 := Record(r0, day, T[1], Some(recs[1]));
    RecordedDay(r0, day, T[1], Some(recs[1]), l0);
    var r2 := Record(r1, day, T[2], Some(recs[2]));
    RecordedDay(r1, day, T[2], Some(recs[2]), l1);
    var r3 := Record(r2, day, T[3], Some(recs[3]));
    RecordedDay(r2, day, T[3], Some(recs[3]), l2);
    assert r3[day] == log;
  }

  /** A summary line: a time key and its record. */
  type Row<V> = (string, seq<V>)

  /** Every key of the walk has a record. */
  ghost predicate Covered<V>(times: seq<string>, records: map<string, seq<V>>)
  {
    forall k :: 0 <= k < |times| ==> times[k] in records
  }

  /**
   * The entries of a day, walked in key order, keeping those whose record
   * holds at least four values.
   */
  function Rows<V>(times: seq<string>, records: map<string, seq<V>>): (rows: seq<Row<V>>)
    requires Covered(times, records)
    ensures |rows| <= |times|
    ensures forall i :: 0 <= i < |rows| ==>
      rows[i].0 in times && rows[i].1 == records[rows[i].0] && |rows[i].1| >= 4
    decreases |times|
  {
    if times == [] then []
    else
      var last := times[|times| - 1];
      Rows(times[..|times| - 1], records) + (if |records[last]| >= 4 then [(last, records[last])] else [])
  }

  /** Rows of a concatenation: the rows of the earlier keys come first, in order. */
  lemma {:induction false} RowsAppend<V>(s: seq<string>, u: seq<string>, records: map<string, seq<V>>)
    requires Covered(s, records) && Covered(u, records)
    ensures Rows(s + u, records) == Rows(s, records) + Rows(u, records)
    decreases |u|
  {
    if u == [] {
      assert s + u == s;
    } else {
      var u' := u[..|u| - 1];
      var last := u[|u| - 1];
      assert (s + u)[..|s + u| - 1] == s + u';
      RowsAppend(s, u', records);
    }
  }

  /** One step of the walk over a day's keys: the next key adds its row, if selected, at the end. */
  lemma RowsStep<V>(log: DailyLog<V>, i: nat)
    requires log.Valid() && i < |log.times|
    ensures Covered(log.times[..i], log.records) && Covered(log.times[..i + 1], log.records)
    ensures var t := log.times[i];
      Rows(log.times[..i + 1], log.records) ==
        Rows(log.times[..i], log.records) + if |log.records[t]| >= 4 then [(t, log.records[t])] else []
  {
    assert log.times[..i + 1][..i] == log.times[..i];
  }

  /** A row appears exactly for a key of the walk whose record has at least four values. */
  lemma {:induction false} RowsMembership<V>(times: seq<string>, records: map<string, seq<V>>, t: string, v: seq<V>)
    requires Covered(times, records)
    ensures (t, v) in Rows(times, records) <==> t in times && v == records[t] && |v| >= 4
    decreases |times|
  {
    if times != [] {
      var init := times[..|times| - 1];
      assert times == init + [times[|times| - 1]];
      RowsMembership(init, records, t, v);
    }
  }

  /** print_summary's selection for one day: nothing when the day is absent. */
  function Summary<V>(a: Archive<V>, day: string): (rows: seq<Row<V>>)
    requires ArchiveValid(a)
    ensures day !in a ==> rows == []
    ensures forall i :: 0 <= i < |rows| ==> Lookup(a, day, rows[i].0) == Some(rows[i].1) && |rows[i].1| >= 4
  {
    if day in a then Rows(a[day].times, a[day].records) else []
  }

  /** A collection for one day leaves the summary of every other day as it was. */
  lemma SummaryOtherDay<V>(a: Archive<V>, day: string, time: string, indices: Option<seq<V>>, d: string)
    requires ArchiveValid(a) && d != day
    ensures Summary(Record(a, day, time, indices), d) == Summary(a, d)
  {
  }

  /** The summary holds (t, v) exactly when `today_data[day][t] == v` and v has at least four values. */
  lemma SummaryMembership<V>(a: Archive<V>, day: string, t: string, v: seq<V>)
    requires ArchiveValid(a)
    ensures (t, v) in Summary(a, day) <==> Lookup(a, day, t) == Some(v) && |v| >= 4
  {
    if day in a {
      RowsMembership(a[day].times, a[day].records, t, v);
    }
  }

}
