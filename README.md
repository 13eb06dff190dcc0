# DLT System Viewer plugin: message ingestion

The DLT Viewer's System Viewer plugin watches a DLT log for the records that a
target's system-monitoring application writes, under application id `SYS`:

- `PROC` records, which describe processes;
- `STAT` records, which carry the kernel's CPU tick counters.

The host opens a log file with `initFileStart`. It then passes every message
already in the file to `initMsg`, and every message appended later to
`updateMsg`. Both end in `updateProcesses`, which does three things for each
message:

- it counts verbose and non-verbose messages;
- it turns a `PROC` record whose second argument is `stat` into a row of the
  widget's process table;
- it turns a `STAT` record with sequence number 1 into three CPU rates: user,
  nice and system. Each rate is the tick difference to the previous such
  record times 10000, divided by the elapsed timestamp ticks. The record then
  becomes the new reference sample.

The model has three modules:

- `CppArith`: C++ `/` on signed integers, which truncates toward zero. It is
  defined on magnitudes and proved to be the unique truncating quotient. The
  model divides the rates with it; this is an idealisation, since the
  source's elapsed time is an unsigned tick difference (see "Left out"). The
  two readings agree when the tick difference is non-negative and time moved
  forward (`RateMovingForward`).
- `QtText`: the three `QString` operations the plugin uses, each with a
  partner that pins it down:
  - `split(" ")`, which keeps empty parts; it is paired with `Join`;
  - base-10 `toInt`, a left-to-right reading that gives 0 for anything that is
    not a 32-bit number;
  - `QString("%1").arg(n)`; `toInt` reads it back.
- `SystemViewer`: the messages, the widget calls and the functional
  specification of one ingestion step (`Ingest`) and of a whole log (`Run`).
  It also holds the plugin as a class with fields that its methods update in
  place. `UpdateProcesses`, `InitMsg` and `UpdateMsg` are proved to perform
  exactly `Ingest` on those fields; `InitFileStart` and the helper methods of
  `UpdateProcesses` state their whole new state.

The widget (`Form`) is represented by a ghost log of the calls the plugin makes
on it (`formCalls`).

## Model

| member | source | states |
|---|---|---|
| CppArith.TruncDivIsTruncQuotient | plugin/dltsystemviewerplugin/dltsystemviewerplugin.cpp:168-170 | The modelled `/` is C++ division: the remainder is smaller in magnitude than the divisor and has the dividend's sign. |
| CppArith.TruncQuotientUnique | plugin/dltsystemviewerplugin/dltsystemviewerplugin.cpp:168-170 | Only one integer is a truncating quotient of given operands, so that property determines the rate. |
| CppArith.TruncDivOfNatural | plugin/dltsystemviewerplugin/dltsystemviewerplugin.cpp:168-170 | For a non-negative dividend and a positive divisor, C++ division agrees with floor division. |
| CppArith.QuotientBounds | plugin/dltsystemviewerplugin/dltsystemviewerplugin.cpp:168-170 | The quotient of the magnitudes leaves a remainder between 0 and the divisor. |
| QtText.Split | plugin/dltsystemviewerplugin/dltsystemviewerplugin.cpp:167 | `split(" ")` yields one more piece than there are spaces, and no piece contains a space. |
| QtText.JoinSplit | plugin/dltsystemviewerplugin/dltsystemviewerplugin.cpp:167 | Splitting loses nothing: joining the pieces with the separator gives the text back. |
| QtText.SplitJoin | plugin/dltsystemviewerplugin/dltsystemviewerplugin.cpp:167 | Fields without spaces that are joined with spaces split back into the same fields, so field k is what the writer put there. |
| QtText.ToInt | plugin/dltsystemviewerplugin/dltsystemviewerplugin.cpp:164 | `toInt()` always yields a 32-bit value. |
| QtText.ToIntOfWord | plugin/dltsystemviewerplugin/dltsystemviewerplugin.cpp:155 | `toInt()` of a text that starts with a letter or another character that cannot begin a number fails, and yields 0. |
| QtText.ReadSnoc | plugin/dltsystemviewerplugin/dltsystemviewerplugin.cpp:164 | Reading one more character of a number is one more step of the reader. |
| QtText.ToIntDecimal | plugin/dltsystemviewerplugin/dltsystemviewerplugin.cpp:168-170 | The text `"%1".arg(n)` parses back to `n` for every 32-bit `n` and to 0 otherwise. |
| SystemViewer.Tallied | plugin/dltsystemviewerplugin/dltsystemviewerplugin.cpp:144-151 | A verbose message raises the verbose counter by exactly one and a non-verbose message raises the non-verbose counter by exactly one. Each happens if and only if the mode matches. No message raises both, and the message count is untouched. |
| SystemViewer.ProcCalls | plugin/dltsystemviewerplugin/dltsystemviewerplugin.cpp:153-161 | At most one process entry, for the message itself and only for `SYS`/`PROC`. With two or more arguments, there is an entry if and only if argument 1 is `stat`. |
| SystemViewer.ProcStatRecord | plugin/dltsystemviewerplugin/dltsystemviewerplugin.cpp:153-161 | A complete `stat` record adds exactly `AddProcess(toInt(arg0), arg2)`. |
| SystemViewer.ProcRecordWithOneArgument | plugin/dltsystemviewerplugin/dltsystemviewerplugin.cpp:153-161 | A `PROC` record whose only argument is `stat` is read through the stale argument variable. It adds process 0 named `stat`. |
| SystemViewer.RateTruncates | plugin/dltsystemviewerplugin/dltsystemviewerplugin.cpp:168 | A rate is the tick difference times 10000 divided by the elapsed time, truncated toward zero. |
| SystemViewer.RateMovingForward | plugin/dltsystemviewerplugin/dltsystemviewerplugin.cpp:168 | When the counter did not go backwards and time moved forward, the rate is the plain non-negative quotient, the case where the model's signed division and the source's unsigned one agree. |
| SystemViewer.CpuLoadTruncates | plugin/dltsystemviewerplugin/dltsystemviewerplugin.cpp:168-170 | All three rates of a CPU record are such truncated quotients, computed against the stored user, nice and kernel values. |
| SystemViewer.ExactUserLoad | plugin/dltsystemviewerplugin/dltsystemviewerplugin.cpp:168 | When the user ticks grew by exactly p ten-thousandths of the elapsed time, the user rate computed is p (and, by `CpuCallsReadBack`, the text shown reads back as p when p fits an `int`). |
| SystemViewer.CpuCalls | plugin/dltsystemviewerplugin/dltsystemviewerplugin.cpp:162-176 | A sequence-1 `STAT` record makes exactly three widget calls. Any other message makes none. |
| SystemViewer.CpuCallsReadBack | plugin/dltsystemviewerplugin/dltsystemviewerplugin.cpp:168-170 | The three calls are `setUser`, `setNice` and `setSystem`, in that order. Each text parses back to its computed rate whenever the rate fits an `int`. |
| SystemViewer.Advance | plugin/dltsystemviewerplugin/dltsystemviewerplugin.cpp:171-174 | A CPU record moves the reference timestamp to its own. Every other message leaves the reference sample as it was. |
| SystemViewer.CpuSampleReading | plugin/dltsystemviewerplugin/dltsystemviewerplugin.cpp:165-174 | For a sequence-1 `STAT` record with at least five fields and a new timestamp, the calls are `(f[k] - last) * 10000 / (ts - lastTimeStamp)` for k = 2, 3, 4. Afterwards the reference sample is `f[2]`, `f[3]`, `f[4]` and ts. |
| SystemViewer.SampleFields | plugin/dltsystemviewerplugin/dltsystemviewerplugin.cpp:167-174 | The same formula over the split field list of any CPU record that can be processed. |
| SystemViewer.MeasuredAgainstPreviousSample | plugin/dltsystemviewerplugin/dltsystemviewerplugin.cpp:171-174 | The record after a CPU record is measured against that record only. Whatever the reference was before it, the rates shown next are the same. |
| SystemViewer.Ingest | plugin/dltsystemviewerplugin/dltsystemviewerplugin.cpp:142-176 | One step keeps the message count and only appends widget calls, at most three. The reference sample changes only on a CPU record, and then takes the record's timestamp. A message that is neither `PROC` nor `STAT` makes no call. |
| SystemViewer.Run | plugin/dltsystemviewerplugin/dltsystemviewerplugin.cpp:133-179 | Ingesting a log only appends widget calls and keeps the message count. |
| SystemViewer.RunCounts | plugin/dltsystemviewerplugin/dltsystemviewerplugin.cpp:144-151 | After a log, each verbosity counter has grown by the number of messages of its mode in the log. |
| SystemViewer.RunBaseline | plugin/dltsystemviewerplugin/dltsystemviewerplugin.cpp:171-174 | After a log, the reference sample is that of the log's last CPU record, or the starting one if the log has no CPU record. |
| SystemViewer.RunProcesses | plugin/dltsystemviewerplugin/dltsystemviewerplugin.cpp:153-161 | The process entries a log produces are exactly its `stat` process records, in log order. CPU records add none. |
| SystemViewer.SystemViewerPlugin.constructor | plugin/dltsystemviewerplugin/dltsystemviewerplugin.cpp:24-27 | The plugin starts without a file. Its counters and reference sample are arbitrary, because the constructor leaves them uninitialised, and no widget call has been made. |
| SystemViewer.SystemViewerPlugin.InitFileStart | plugin/dltsystemviewerplugin/dltsystemviewerplugin.cpp:87-95 | Stores the file, sets the message count to the file's size and clears the process table with exactly one call. The verbosity counters and the reference sample are untouched. |
| SystemViewer.SystemViewerPlugin.InitMsg | plugin/dltsystemviewerplugin/dltsystemviewerplugin.cpp:97-101 | The same as `UpdateProcesses`. |
| SystemViewer.SystemViewerPlugin.UpdateMsg | plugin/dltsystemviewerplugin/dltsystemviewerplugin.cpp:113-122 | Without a file nothing changes and no call is made. With a file the state is `Ingest` of the old state, with the message count then refreshed from the file's size. |
| SystemViewer.SystemViewerPlugin.UpdateProcesses | plugin/dltsystemviewerplugin/dltsystemviewerplugin.cpp:133-179 | Without a file, no field changes and no call is made. With a file, the new counters, reference sample and widget calls are exactly `Ingest` of the old ones. |
| SystemViewer.SystemViewerPlugin.CountMode | plugin/dltsystemviewerplugin/dltsystemviewerplugin.cpp:144-151 | The counters become `Tallied` of the old ones. Nothing else changes. |
| SystemViewer.SystemViewerPlugin.ShowProcess | plugin/dltsystemviewerplugin/dltsystemviewerplugin.cpp:153-161 | The widget calls grow by exactly `ProcCalls(msg)`. Nothing else changes. |
| SystemViewer.SystemViewerPlugin.ShowCpuLoad | plugin/dltsystemviewerplugin/dltsystemviewerplugin.cpp:162-176 | The widget calls grow by exactly `CpuCalls` against the old reference sample, and the reference becomes `Advance` of it. The counters are untouched. |
| SystemViewer.SystemViewerPlugin.ShowSample | plugin/dltsystemviewerplugin/dltsystemviewerplugin.cpp:167-174 | Shows the three rates of fields 2, 3 and 4 against the stored sample, then stores those fields and the timestamp. |

## Left out

- The widget (`Form`) and `initViewer` are left out. They are Qt user-interface code, so the widget appears only as the log of the calls made on it.
- The plugin's name, version, description, error and configuration accessors, the empty callbacks and the plugin export macro are left out. They hold no behaviour.
- `QDltFile` is reduced to its size. `QDltMsg` is reduced to application id, context id, mode, timestamp and argument texts.
- `getArgument` is assumed to leave its argument variable unchanged when the index is out of range. A fresh argument's text is taken to be empty. The message library is not part of this model.
- UpdateProcesses, UpdateMsg, InitMsg: these require that a sequence-1 `STAT` record has at least five fields and a timestamp different from the stored one. Without these the source reads past the end of its field list or divides by zero, and that crash is not modelled.
- InitFileStart takes a file that exists. The source would dereference a null file.
- Rate, CpuLoad, CpuCalls, RateTruncates, CpuLoadTruncates, ExactUserLoad: the rates are computed with signed division, truncating toward zero, on unbounded integers. The source's elapsed time is an unsigned tick difference, so it divides unsigned: a negative tick difference or a timestamp that went backwards wraps around there (for example, a user counter of 50 against a stored 100, 1000 ticks later, shows 4294467 there, where the model gives -500). The model agrees with the source only when the tick difference is at least 0 and time moved forward (`RateMovingForward`). The source's exact integer widths are declared in its header, which is not part of this model; overflow of the tick difference times 10000 is not modelled either.
- Tallied, CountMode, RunCounts: the verbosity counters are unbounded integers; the wrap-around of the source's `int` increments after 2^31 - 1 messages is not modelled.
- ToInt: white space means the ASCII space and the characters tab through carriage return. Qt's Unicode white space is not modelled.
- The form pointer is assumed to be set. In the source, `initViewer` sets it before any message arrives.
- `initFileStart` resets only the message count (line 91). The verbosity counters and the reference sample carry over from the previous file.
