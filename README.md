# CFETS sentiment spider: a verified model of its record handling

The spider (`CFETSScheduledSpider` in `CFETSSentimentSpider.py`) opens a headless
browser on the CFETS market-data page, runs a script that reads the latest
point of the `FXSIChart` chart, and turns the result into a record of four
sentiment indices: large banks, small and mid-sized banks, non-bank
institutions, and the composite index. It keeps the records in memory in
`today_data`, a dictionary from a date string to a dictionary from a time
string to a record. Each scheduled job prints that day's records as a summary.

This project models the three parts of that program that are its own logic:

- **The payload check** (`extract_indices`, module `Payload`). The value the
  chart script returns is a JSON-like `Payload<S>`: null, an opaque scalar, a
  list, or a dictionary with string keys. `ExtractIndices` is a pure function.
  It returns `Some([single[0], single[1], single[2], value])` for a non-empty
  dictionary that has both keys `'single'` and `'value'` and whose `'single'`
  is a list of at least three entries. It returns `None` for anything else.
- **The archive update** (the end of `get_sentiment_data`, modules `Archive`
  and `Spider`). `ScheduledSpider` is a class whose field `todayData` is the
  archive. `Store` and `GetSentimentData` update it in place. They are proved
  against the pure function `Archive.Record`, and the properties of `Record`
  are lemmas. Each day's log also keeps its keys in insertion order, because
  Python dictionaries do and the summary walks them in that order. Assigning
  to a key that is already present keeps that key's position.
- **The summary selection** (`print_summary`). `PrintSummary` is a method with
  a loop over the day's keys. The rows it selects are `Archive.Summary`: the
  day's entries, in key order, whose record holds at least four values. Each
  selected row is printed with `:<6` format fields, which raise TypeError on
  None, a list or a dictionary. A record can hold such a value, because
  `single`'s entries and `value` are not type-checked. So the method returns
  the rows printed before the first row that cannot be formatted, and a flag
  saying that the error was raised. Nothing in the jobs or in `test_now`
  catches that error.

The index values are only copied and compared, so they are a type parameter.
An element of `single` is not type-checked by the source, so a record holds
`Payload<S>` values. The day and time strings, which the source reads from the
clock, are parameters. The chart script's result is also a parameter. It is
`None` when the browser session fails: driver setup, navigation, or the
30-second wait for the chart element raising an exception.

Two facts about the code that the model follows:

- `single` may hold more than three entries; entries past index 2 are ignored
  (`CFETSSentimentSpider.py:94-95`).
- `save_data` writes the whole `today_data`, keyed by date, not only the
  current day (`CFETSSentimentSpider.py:108`). The file write is not modelled
  (see Left out).

## Model

| member | source | states |
|---|---|---|
| Payload.ExtractIndices | CFETSSentimentSpider.py:89-97 | a result is four values: the first three entries of the dictionary's `single` list and its `value` entry; the payload then is a dictionary with both keys and a `single` list of at least three entries |
| Payload.ChartPoint | CFETSSentimentSpider.py:81 | the chart's data point `{single: [a, b, c], value: d}` has the shape the check expects |
| Payload.KeyMakesTruthy | CFETSSentimentSpider.py:89-90 | a dictionary that holds the key `single` is never empty, so the truthiness test never rejects a payload that the key test accepts |
| Payload.ExtractSucceedsIffWellShaped | CFETSSentimentSpider.py:89-95 | extraction succeeds if and only if the payload is a dictionary with `single` (a list of length at least 3) and `value`, and it then yields `[single[0], single[1], single[2], value]` |
| Payload.ExtractChartPoint | CFETSSentimentSpider.py:89-95 | `{single: [a, b, c], value: d}` yields exactly `[a, b, c, d]` |
| Payload.ExtractFailsOnNonDict | CFETSSentimentSpider.py:89 | null, a scalar or a list gives None |
| Payload.ExtractFailsOnEmptyDict | CFETSSentimentSpider.py:89 | an empty (falsy) dictionary gives None |
| Payload.ExtractFailsOnMissingKey | CFETSSentimentSpider.py:90 | a dictionary without `single` or without `value` gives None |
| Payload.ExtractFailsOnBadSingle | CFETSSentimentSpider.py:94-97 | `single` that is not a list, or a list of fewer than 3 entries, gives None |
| Payload.ExtractDependsOnlyOnPrefix | CFETSSentimentSpider.py:91-95 | two well-shaped payloads that agree on `single[..3]` and on `value` give the same record: later `single` entries and other keys are ignored, and `value` is passed through whatever it holds |
| Archive.DailyLog.Put | CFETSSentimentSpider.py:55 | after `log[time] = rec` the slot holds rec, every other slot is unchanged, a new key is appended to the key order and an existing key keeps its place |
| Archive.EmptyLog | CFETSSentimentSpider.py:52-53 | the entry created for a missing day has no keys and no records |
| Archive.Record | CFETSSentimentSpider.py:49-63 | with at least 4 indices, the day entry exists afterwards and `[day][time]` equals the first four values; with `None` or fewer than 4, the archive is unchanged; every other `(day', time')` slot is unchanged either way, and every other day's log, key order included, is unchanged |
| Archive.RecordOrder | CFETSSentimentSpider.py:52-55 | after a successful update the day's key order is `[time]` for a new day, unchanged for an existing time, and extended by `time` otherwise |
| Archive.PutTwice | CFETSSentimentSpider.py:55 | assigning a slot twice gives the same log as assigning only the second record |
| Archive.RecordTwice | CFETSSentimentSpider.py:55 | recording twice at the same `(day, time)` gives the same archive as recording only the second (successful) one |
| Archive.TriggerTimesDistinct | CFETSSentimentSpider.py:152-155 | the four trigger times 08:46, 10:16, 14:31 and 16:01 are distinct keys |
| Archive.ScheduledLog | CFETSSentimentSpider.py:55 | four assignments at the four trigger times on an empty log give keys in trigger-time order, each holding its record |
| Archive.ScheduledDay | CFETSSentimentSpider.py:49-55 | four successful collections at the four trigger times of a day with no entry give that day exactly four records, in trigger-time order, each equal to its collection's first four values |
| Archive.Rows | CFETSSentimentSpider.py:120-122 | the selected rows are at most as many as the keys; each one is a key of the walk with its own record, which holds at least 4 values |
| Archive.RowsAppend | CFETSSentimentSpider.py:120 | selection over a concatenation of keys is the concatenation of the selections, so rows keep the walk's order |
| Archive.RowsMembership | CFETSSentimentSpider.py:120-122 | `(t, v)` is selected if and only if `t` is a key of the walk, `v` is its record and `v` holds at least 4 values |
| Archive.Summary | CFETSSentimentSpider.py:114-122 | nothing is selected when the day is absent; every row selected is an entry of that day with at least 4 values |
| Archive.SummaryOtherDay | CFETSSentimentSpider.py:55 | a collection for one day leaves the summary of every other day unchanged |
| Archive.SummaryMembership | CFETSSentimentSpider.py:115-122 | the summary holds `(t, v)` if and only if `today_data[day][t] == v` and `v` holds at least 4 values |
| Spider.ScheduledSpider.constructor | CFETSSentimentSpider.py:13-15 | a new spider has an empty archive |
| Spider.ScheduledSpider.Store | CFETSSentimentSpider.py:49-63 | the new archive is `Record` of the old one; on success it returns the first four indices, which is the record now stored at `[day][time]` and has length 4; otherwise it returns None and the archive is unchanged |
| Spider.ScheduledSpider.GetSentimentData | CFETSSentimentSpider.py:31-70 | the result is None when the browser session failed and otherwise the payload check's result; that result is what gets stored, and when it is None the archive is unchanged |
| Spider.PrintedCount | CFETSSentimentSpider.py:120-122 | the number of summary lines printed is the position of the first selected row whose first four values cannot be formatted, or all rows when every one can |
| Spider.ScheduledSpider.PrintSummary | CFETSSentimentSpider.py:112-123 | the loop over the day's entries prints the rows of `Summary(todayData, day)` up to the first one that cannot be formatted, reports TypeError exactly when such a row exists, and changes nothing |
| Spider.ScheduledSpider.RunJob | CFETSSentimentSpider.py:125-129 | a scheduled job stores the collection's result and then prints the summary of the new archive, raising on a row that cannot be formatted |
| Spider.ScheduledSpider.TestNow | CFETSSentimentSpider.py:171-177 | test mode stores the collection's result and prints the summary only when the collection succeeded; it raises only on that path |
| Spider.FormattableDayPrintsAll | CFETSSentimentSpider.py:120-122 | a day whose records hold only numbers, strings or booleans prints its whole summary without raising |
| Spider.NullValueRaises | CFETSSentimentSpider.py:120-122 | the chart point `{single: [a, b, c], value: null}` is accepted and stored as `[a, b, c, None]`, and the summary of a day holding only it raises on its first line |
| Spider.CollectChartPoint | CFETSSentimentSpider.py:49-95 | collecting `{single: [a, b, c], value: d}` at `(day, time)` stores exactly `[a, b, c, d]` there and leaves every other slot unchanged |

## Left out

- Browser setup, navigation, the wait for `FXSIChart`, the 5-second settle delay and `driver.quit` (lines 17-29, 38-44, 68-70): these are calls into Selenium and the operating system. Their only effect on the model is whether a payload arrives, which is the `fetched` parameter.
- The JavaScript run in the page (lines 76-87): its result is the input `Payload`. An exception raised by `execute_script` is caught by `extract_indices`, which returns None. In the model this is the same as a payload that fails the check.
- `datetime.now()` and `date.today()` (lines 35, 51, 106, 114): the day and time strings are parameters. The source reads the clock separately for the time key, the day key and the summary, so the model takes them separately too.
- `save_data` (lines 103-110): a JSON file write whose errors are swallowed. It does not change `today_data`, so it is not modelled, and neither is the round trip through JSON.
- Console output and fixed-width formatting (lines 36, 57-58, 62, 66, 116-123): the text printed is not modelled. Only which summary rows are printed is modelled, and whether formatting a row raises.
- Spider.ScheduledSpider.PrintSummary: treats every scalar as formattable. A number, a string or a boolean is, but the script could also return a page element, whose default formatting raises TypeError with a non-empty format spec too. The model does not raise on that path. `RunJob` and `TestNow` inherit this. What the scheduler loop does with the raised error depends on the `schedule` library, which is not part of this model.
- The `schedule` registration, the polling loop and the KeyboardInterrupt handling (lines 149-169): they are a timer over a library that is not part of this model. The four trigger times appear only as `Archive.TriggerTimes`.
- Spider.ScheduledSpider.GetSentimentData: does not model an exception raised after the archive update. The prints at lines 57-58, and the print in save_data's handler at line 110, run after line 55. If one of them raises (an encoding or broken-pipe error on standard output), the handler at line 65 returns None with the record already stored. The contract's `result.None? ==> todayData == old(todayData)` does not hold on that path. The only exception path modelled is the browser failing before extraction.
- Truthiness of scalars and lists: `latest_data and isinstance(latest_data, dict)` rejects every non-dictionary whatever its truthiness, so only the truthiness of a dictionary (non-empty) is modelled.
- Floating-point values: the indices are never computed with, so they are an opaque type.
- The e-mail variant at `.github/workflows/CFETSSentimentSpider.py` is not part of this model. Its get_sentiment_data, extract_indices and print_summary are the same as in the file modelled here. Its jobs job_0846 to job_1601 (lines 217-256) print the summary, and send mail, only when the collection succeeded. That is the behaviour of `TestNow`, not of `RunJob`. The variant also has no schedule setup.
