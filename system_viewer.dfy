/**
 * The DLT System Viewer plugin: per-message ingestion of process and CPU
 * statistics records.
 *
 * The host calls `initFileStart` when a log file is opened, then `initMsg`
 * for each message already in it and `updateMsg` for each message appended
 * later. The plugin counts verbose and non-verbose messages, turns
 * `SYS`/`PROC` "stat" records into entries of the widget's process table,
 * and turns every sequence-1 `SYS`/`STAT` record into CPU user, nice and
 * system rates measured against the previous such record.
 *
 * The first half of the module states one ingestion step as functions on
 * values (`Ingest`) and proves what a whole log does to the plugin (`Run`);
 * the second half is the plugin object, whose methods update its fields in
 * place and are proved to perform exactly that step.
 */
module SystemViewer {
  import opened CppArith
  import opened QtText

  // ---------------------------------------------------------------------
  // Messages and what the plugin hands to its widget

  /** Verbosity of a message as `QDltMsg::getMode()` reports it. */
  datatype Mode = Verbose | NonVerbose | UnknownMode

  /** The part of a `QDltMsg` the plugin reads: application and context id,
      verbosity, timestamp (unsigned ticks of 0.1 ms) and the text of each
      argument. */
  datatype Msg = Msg(apid: string, ctid: string, mode: Mode, timestamp: nat, args: seq<string>)

  /** A call the plugin makes on its viewer widget (`Form`). */
  datatype Event =
    | DeleteAllProcesses
    | AddProcess(pid: int, name: string, msg: Msg)
    | SetUser(text: string)
    | SetNice(text: string)
    | SetSystem(text: string)

  /** `counterMessages`, `counterVerboseMessages`, `counterNonVerboseMessages`. */
  datatype Counters = Counters(messages: int, verbose: int, nonVerbose: int)

  /** The previous CPU sample: `lastValueUser`, `lastValueNice`,
      `lastValueKernel` and `lastTimeStamp`. */
  datatype Baseline = Baseline(user: int, nice: int, kernel: int, timestamp: int)

  /** CPU rates derived from two samples. */
  datatype Load = Load(user: int, nice: int, system: int)

  /** Everything an ingestion step reads or changes, apart from the file. */
  datatype View = View(counters: Counters, baseline: Baseline, calls: seq<Event>)

  /** Factor applied to a tick difference before dividing by the elapsed time. */
  const RateScale: int := 10000

  /** Text of an argument object that no `getArgument` call has filled. */
  const UnsetArgument: string := ""

  /** The text held by the plugin's argument variable after
      `msg.getArgument(index, arg)`: the argument when it exists, otherwise
      whatever the variable held before (`getArgument` then fails and leaves
      it alone). */
  function Argument(m: Msg, index: nat, held: string): string {
    if index < |m.args| then m.args[index] else held
  }

  predicate IsProc(m: Msg) {
    m.apid == "SYS" && m.ctid == "PROC"
  }

  predicate IsStat(m: Msg) {
    m.apid == "SYS" && m.ctid == "STAT"
  }

  // ---------------------------------------------------------------------
  // Verbosity counters

  /** The counters after one message: exactly the counter of its mode goes up
      by one; an unknown mode changes nothing. */
  function Tallied(c: Counters, mode: Mode): (r: Counters)
    ensures r.messages == c.messages
    ensures c.verbose <= r.verbose <= c.verbose + 1
    ensures c.nonVerbose <= r.nonVerbose <= c.nonVerbose + 1
    ensures r.verbose == c.verbose + 1 <==> mode == Verbose
    ensures r.nonVerbose == c.nonVerbose + 1 <==> mode == NonVerbose
  {
    var verbose := if mode == Verbose then c.verbose + 1 else c.verbose;
    var nonVerbose := if mode == NonVerbose then c.nonVerbose + 1 else c.nonVerbose;
    Counters(c.messages, verbose, nonVerbose)
  }

  // ---------------------------------------------------------------------
  // Process records

  /** The widget calls a message causes through the `PROC` branch: at most
      one process entry, and only for a `SYS`/`PROC` record whose second
      argument is "stat". */
  function ProcCalls(m: Msg): (es: seq<Event>)
    ensures |es| <= 1
    ensures es != [] ==> IsProc(m) && es[0].AddProcess? && es[0].msg == m
    ensures |m.args| >= 2 ==> (es != [] <==> IsProc(m) && m.args[1] == "stat")
  {
    if !IsProc(m) then []
    else
      var first := Argument(m, 0, UnsetArgument);
      var second := Argument(m, 1, first);
      if second == "stat" then [AddProcess(ToInt(first), Argument(m, 2, second), m)] else []
  }

  /** A complete process record adds the process whose id is argument 0 and
      whose name is argument 2. */
  lemma ProcStatRecord(m: Msg)
    requires IsProc(m) && |m.args| >= 3 && m.args[1] == "stat"
    ensures ProcCalls(m) == [AddProcess(ToInt(m.args[0]), m.args[2], m)]
  {
  }

  /** A truncated record is read through the stale argument: a `PROC`
      message whose only argument is "stat" adds a process with id 0 named
      "stat". */
  lemma ProcRecordWithOneArgument(m: Msg)
    requires IsProc(m) && m.args == ["stat"]
    ensures ProcCalls(m) == [AddProcess(0, "stat", m)]
  {
    ToIntOfWord("stat");
  }

  // ---------------------------------------------------------------------
  // CPU statistics records

  /** A `SYS`/`STAT` record whose argument 0 reads as sequence number 1. */
  predicate IsCpuSample(m: Msg) {
    IsStat(m) && ToInt(Argument(m, 0, UnsetArgument)) == 1
  }

  /** The space-separated fields of the record's argument 1 (read through the
      argument variable, which still holds argument 0 if there is no
      argument 1). */
  function CpuFields(m: Msg): seq<string> {
    Split(Argument(m, 1, Argument(m, 0, UnsetArgument)), ' ')
  }

  predicate HasCpuFields(m: Msg) {
    |CpuFields(m)| >= 5
  }

  /** The new baseline a CPU record carries: fields 2, 3 and 4 as user, nice
      and kernel ticks, and the record's timestamp. */
  function SampleOf(m: Msg): Baseline
    requires HasCpuFields(m)
  {
    var f := CpuFields(m);
    Baseline(ToInt(f[2]), ToInt(f[3]), ToInt(f[4]), m.timestamp)
  }

  /** What the source needs to process the message without reading past the
      end of the field list or dividing by zero. */
  predicate Computable(b: Baseline, m: Msg) {
    IsCpuSample(m) ==> HasCpuFields(m) && m.timestamp != b.timestamp
  }

  /** One rate: the tick difference times 10000 divided, as C++ divides, by
      the elapsed time. */
  function Rate(current: int, previous: int, elapsed: int): int
    requires elapsed != 0
  {
    TruncDiv((current - previous) * RateScale, elapsed)
  }

  /** The rates a CPU record yields against baseline `b`. */
  function CpuLoad(b: Baseline, m: Msg): Load
    requires IsCpuSample(m) && Computable(b, m)
  {
    var s, e := SampleOf(m), m.timestamp - b.timestamp;
    Load(Rate(s.user, b.user, e), Rate(s.nice, b.nice, e), Rate(s.kernel, b.kernel, e))
  }

  /** A rate is the quotient, rounded toward zero, of the tick difference
      times 10000 by the elapsed time: the remainder is smaller than the
      elapsed time and has the sign of the tick difference. */
  lemma RateTruncates(current: int, previous: int, elapsed: int)
    requires elapsed != 0
    ensures IsTruncQuotient(Rate(current, previous, elapsed), (current - previous) * RateScale, elapsed)
  {
    TruncDivIsTruncQuotient((current - previous) * RateScale, elapsed);
  }

  /** When the counter did not go backwards and time moved forward, the rate
      is the plain quotient of non-negative numbers; only there does the
      signed reading of the rate agree with an unsigned one. */
  lemma RateMovingForward(current: int, previous: int, elapsed: int)
    requires previous <= current && 0 < elapsed
    ensures Rate(current, previous, elapsed) == (current - previous) * RateScale / elapsed
    ensures 0 <= Rate(current, previous, elapsed)
  {
    TruncDivOfNatural((current - previous) * RateScale, elapsed);
  }

  /** The three rates of a CPU record, each truncated as `RateTruncates` says. */
  lemma CpuLoadTruncates(b: Baseline, m: Msg)
    requires IsCpuSample(m) && Computable(b, m)
    ensures var l, s, e := CpuLoad(b, m), SampleOf(m), m.timestamp - b.timestamp;
      IsTruncQuotient(l.user, (s.user - b.user) * RateScale, e) &&
      IsTruncQuotient(l.nice, (s.nice - b.nice) * RateScale, e) &&
      IsTruncQuotient(l.system, (s.kernel - b.kernel) * RateScale, e)
  {
    var s, e := SampleOf(m), m.timestamp - b.timestamp;
    RateTruncates(s.user, b.user, e);
    RateTruncates(s.nice, b.nice, e);
    RateTruncates(s.kernel, b.kernel, e);
  }

  /** A counter that advanced by exactly `p` ten-thousandths of the elapsed
      time is shown as `p`. */
  lemma ExactUserLoad(b: Baseline, m: Msg, p: int)
    requires IsCpuSample(m) && Computable(b, m)
    requires (SampleOf(m).user - b.user) * RateScale == p * (m.timestamp - b.timestamp)
    ensures CpuLoad(b, m).user == p
  {
    var a, e := (SampleOf(m).user - b.user) * RateScale, m.timestamp - b.timestamp;
    assert a - p * e == 0;
    CpuLoadTruncates(b, m);
    TruncQuotientUnique(CpuLoad(b, m).user, p, a, e);
  }

  /** The widget calls a message causes through the `STAT` branch. */
  function CpuCalls(b: Baseline, m: Msg): (es: seq<Event>)
    requires Computable(b, m)
    ensures |es| == if IsCpuSample(m) then 3 else 0
  {
    if IsCpuSample(m) then
      var l := CpuLoad(b, m);
      [SetUser(Decimal(l.user)), SetNice(Decimal(l.nice)), SetSystem(Decimal(l.system))]
    else []
  }

  /** The texts shown for a CPU record read back as the computed rates
      whenever those fit an `int`. */
  lemma CpuCallsReadBack(b: Baseline, m: Msg)
    requires IsCpuSample(m) && Computable(b, m)
    ensures var es, l := CpuCalls(b, m), CpuLoad(b, m);
      es[0].SetUser? && es[1].SetNice? && es[2].SetSystem? &&
      (MinInt <= l.user <= MaxInt ==> ToInt(es[0].text) == l.user) &&
      (MinInt <= l.nice <= MaxInt ==> ToInt(es[1].text) == l.nice) &&
      (MinInt <= l.system <= MaxInt ==> ToInt(es[2].text) == l.system)
  {
    var l := CpuLoad(b, m);
    ToIntDecimal(l.user);
    ToIntDecimal(l.nice);
    ToIntDecimal(l.system);
  }

  /** The baseline after a message: a CPU record replaces it with its own
      sample, any other message leaves it as it was. */
  function Advance(b: Baseline, m: Msg): (r: Baseline)
    requires IsCpuSample(m) ==> HasCpuFields(m)
    ensures !IsCpuSample(m) ==> r == b
    ensures IsCpuSample(m) ==> r.timestamp == m.timestamp
  {
    if IsCpuSample(m) then SampleOf(m) else b
  }

  /** For a record whose first two arguments are present, the rates are
      `(f[k] - last) * 10000 / (ts - lastTimeStamp)` with `f` argument 1 split
      on spaces, and the baseline becomes `f[2]`, `f[3]`, `f[4]` and `ts`. */
  lemma CpuSampleReading(b: Baseline, m: Msg)
    requires IsStat(m) && |m.args| >= 2 && ToInt(m.args[0]) == 1
    requires |Split(m.args[1], ' ')| >= 5 && m.timestamp != b.timestamp
    ensures var f, e := Split(m.args[1], ' '), m.timestamp - b.timestamp;
      Computable(b, m) &&
      CpuCalls(b, m) == [SetUser(Decimal(Rate(ToInt(f[2]), b.user, e))),
                         SetNice(Decimal(Rate(ToInt(f[3]), b.nice, e))),
                         SetSystem(Decimal(Rate(ToInt(f[4]), b.kernel, e)))] &&
      Advance(b, m) == Baseline(ToInt(f[2]), ToInt(f[3]), ToInt(f[4]), m.timestamp)
  {
    SampleFields(b, m, Split(m.args[1], ' '));
  }

  /** The calls and the new baseline of a CPU record, spelt out over its
      field list `d`. */
  lemma SampleFields(b: Baseline, m: Msg, d: seq<string>)
    requires IsCpuSample(m) && Computable(b, m) && d == CpuFields(m)
    ensures |d| >= 5
    ensures var e := m.timestamp - b.timestamp;
      e != 0 &&
      CpuCalls(b, m) == [SetUser(Decimal(Rate(ToInt(d[2]), b.user, e))),
                         SetNice(Decimal(Rate(ToInt(d[3]), b.nice, e))),
                         SetSystem(Decimal(Rate(ToInt(d[4]), b.kernel, e)))] &&
      Advance(b, m) == Baseline(ToInt(d[2]), ToInt(d[3]), ToInt(d[4]), m.timestamp)
  {
  }

  /** Each CPU record is measured against the previous one only: whatever the
      baseline was before a CPU record, the record that follows it shows the
      same rates. */
  lemma MeasuredAgainstPreviousSample(b1: Baseline, b2: Baseline, m1: Msg, m2: Msg)
    requires IsCpuSample(m1) && HasCpuFields(m1)
    requires Computable(Advance(b1, m1), m2)
    ensures Computable(Advance(b2, m1), m2)
    ensures CpuCalls(Advance(b1, m1), m2) == CpuCalls(Advance(b2, m1), m2)
  {
  }

  // ---------------------------------------------------------------------
  // One ingestion step and a whole log

  /** `updateProcesses` on a loaded file, as a function: counters, baseline
      and widget calls after message `m`. */
  function Ingest(v: View, m: Msg): (r: View)
    requires Computable(v.baseline, m)
    ensures r.counters.messages == v.counters.messages
    ensures v.calls <= r.calls && |r.calls| <= |v.calls| + 3
    ensures !IsCpuSample(m) ==> r.baseline == v.baseline
    ensures IsCpuSample(m) ==> r.baseline.timestamp == m.timestamp
    ensures !IsProc(m) && !IsStat(m) ==> r.calls == v.calls
  {
    View(Tallied(v.counters, m.mode),
         Advance(v.baseline, m),
         v.calls + ProcCalls(m) + CpuCalls(v.baseline, m))
  }

  /** Every message of `msgs` can be ingested in turn, starting from `b`. */
  predicate Runnable(b: Baseline, msgs: seq<Msg>)
    decreases |msgs|
  {
    msgs == [] || (Computable(b, msgs[0]) && Runnable(Advance(b, msgs[0]), msgs[1..]))
  }

  /** The messages of a log ingested one after another. */
  function Run(v: View, msgs: seq<Msg>): (r: View)
    requires Runnable(v.baseline, msgs)
    ensures v.calls <= r.calls
    ensures r.counters.messages == v.counters.messages
    decreases |msgs|
  {
    if msgs == [] then v else Run(Ingest(v, msgs[0]), msgs[1..])
  }

  function Modes(msgs: seq<Msg>): (ms: seq<Mode>)
    decreases |msgs|
  {
    if msgs == [] then [] else [msgs[0].mode] + Modes(msgs[1..])
  }

  /** After a log, each verbosity counter has grown by the number of messages
      of its mode in the log. */
  lemma {:induction false} RunCounts(v: View, msgs: seq<Msg>)
    requires Runnable(v.baseline, msgs)
    ensures var c, modes := Run(v, msgs).counters, multiset(Modes(msgs));
      c == Counters(v.counters.messages,
                    v.counters.verbose + modes[Verbose],
                    v.counters.nonVerbose + modes[NonVerbose])
    decreases |msgs|
  {
    if msgs != [] {
      var m := msgs[0];
      var w := Ingest(v, m);
      assert Run(v, msgs) == Run(w, msgs[1..]);
      assert w.counters == Tallied(v.counters, m.mode);
      RunCounts(w, msgs[1..]);
      ModesFirst(msgs);
    }
  }

  lemma ModesFirst(msgs: seq<Msg>)
    requires msgs != []
    ensures multiset(Modes(msgs)) == multiset{msgs[0].mode} + multiset(Modes(msgs[1..]))
  {
    assert Modes(msgs) == [msgs[0].mode] + Modes(msgs[1..]);
  }

  ghost predicate SamplesReadable(msgs: seq<Msg>) {
    forall i :: 0 <= i < |msgs| && IsCpuSample(msgs[i]) ==> HasCpuFields(msgs[i])
  }

  /** The sample of the last CPU record of `msgs`, or `b` if there is none. */
  ghost function LatestSample(b: Baseline, msgs: seq<Msg>): Baseline
    requires SamplesReadable(msgs)
    decreases |msgs|
  {
    if msgs == [] then b
    else
      var last := msgs[|msgs| - 1];
      if IsCpuSample(last) then SampleOf(last) else LatestSample(b, msgs[..|msgs| - 1])
  }

  lemma {:induction false} RunnableReadable(b: Baseline, msgs: seq<Msg>)
    requires Runnable(b, msgs)
    ensures SamplesReadable(msgs)
    decreases |msgs|
  {
    if msgs != [] {
      RunnableReadable(Advance(b, msgs[0]), msgs[1..]);
      forall i | 0 <= i < |msgs| && IsCpuSample(msgs[i])
        ensures HasCpuFields(msgs[i])
      {
        if i > 0 { assert msgs[i] == msgs[1..][i - 1]; }
      }
    }
  }

  /** Ingesting the first message and then looking for the latest sample in
      the rest finds the latest sample of the whole log. */
  lemma {:induction false} LatestSampleAfterFirst(b: Baseline, msgs: seq<Msg>)
    requires msgs != [] && SamplesReadable(msgs)
    ensures SamplesReadable(msgs[1..])
    ensures LatestSample(b, msgs) == LatestSample(Advance(b, msgs[0]), msgs[1..])
    decreases |msgs|
  {
    assert SamplesReadable(msgs[1..]) by {
      forall i | 0 <= i < |msgs[1..]| && IsCpuSample(msgs[1..][i])
        ensures HasCpuFields(msgs[1..][i])
      {
        assert msgs[1..][i] == msgs[i + 1];
      }
    }
    var n := |msgs|;
    if n > 1 {
      var init := msgs[..n - 1];
      assert init[0] == msgs[0];
      assert msgs[1..][..n - 2] == init[1..];
      assert msgs[1..][n - 2] == msgs[n - 1];
      assert SamplesReadable(init) by {
        forall i | 0 <= i < |init| && IsCpuSample(init[i])
          ensures HasCpuFields(init[i])
        {
          assert init[i] == msgs[i];
        }
      }
      if !IsCpuSample(msgs[n - 1]) {
        LatestSampleAfterFirst(b, init);
      }
    }
  }

  /** After a log, the baseline is the sample of its last CPU record, or the
      starting baseline if it has none. */
  lemma {:induction false} RunBaseline(v: View, msgs: seq<Msg>)
    requires Runnable(v.baseline, msgs)
    ensures SamplesReadable(msgs)
    ensures Run(v, msgs).baseline == LatestSample(v.baseline, msgs)
    decreases |msgs|
  {
    RunnableReadable(v.baseline, msgs);
    if msgs != [] {
      RunBaseline(Ingest(v, msgs[0]), msgs[1..]);
      LatestSampleAfterFirst(v.baseline, msgs);
    }
  }

  /** The process entries among a sequence of widget calls. */
  function Processes(calls: seq<Event>): (ps: seq<Event>)
    decreases |calls|
  {
    if calls == [] then []
    else (if calls[0].AddProcess? then [calls[0]] else []) + Processes(calls[1..])
  }

  /** The process entries the `PROC` records of a log ask for, in order. */
  function ProcLog(msgs: seq<Msg>): (es: seq<Event>)
    decreases |msgs|
  {
    if msgs == [] then [] else ProcCalls(msgs[0]) + ProcLog(msgs[1..])
  }

  lemma {:induction false} ProcessesAppend(a: seq<Event>, b: seq<Event>)
    ensures Processes(a + b) == Processes(a) + Processes(b)
    decreases |a|
  {
    if a != [] {
      assert (a + b)[1..] == a[1..] + b;
      ProcessesAppend(a[1..], b);
    } else {
      assert a + b == b;
    }
  }

  /** The process table the widget receives from a log is exactly the list of
      its "stat" process records, in log order, whatever the CPU records say. */
  lemma {:induction false} RunProcesses(v: View, msgs: seq<Msg>)
    requires Runnable(v.baseline, msgs)
    ensures Processes(Run(v, msgs).calls) == Processes(v.calls) + ProcLog(msgs)
    decreases |msgs|
  {
    if msgs != [] {
      var m := msgs[0];
      var w := Ingest(v, m);
      RunProcesses(w, msgs[1..]);
      var pc, cc := ProcCalls(m), CpuCalls(v.baseline, m);
      ProcessesAppend(v.calls + pc, cc);
      ProcessesAppend(v.calls, pc);
      ProcessesOfProcCalls(m);
      ProcessesOfCpuCalls(v.baseline, m);
      assert w.calls == v.calls + pc + cc;
    }
  }

  lemma ProcessesOfProcCalls(m: Msg)
    ensures Processes(ProcCalls(m)) == ProcCalls(m)
  {
    var pc := ProcCalls(m);
    if pc != [] {
      assert pc[1..] == [];
    }
  }

  lemma ProcessesOfCpuCalls(b: Baseline, m: Msg)
    requires Computable(b, m)
    ensures Processes(CpuCalls(b, m)) == []
  {
    var cc := CpuCalls(b, m);
    if cc != [] {
      assert cc[0].SetUser? && cc[1].SetNice? && cc[2].SetSystem?;
    }
    NoProcesses(cc);
  }

  lemma {:induction false} NoProcesses(calls: seq<Event>)
    requires forall i :: 0 <= i < |calls| ==> !calls[i].AddProcess?
    ensures Processes(calls) == []
    decreases |calls|
  {
    if calls != [] {
      NoProcesses(calls[1..]);
    }
  }

  // ---------------------------------------------------------------------
  // The plugin object

  /** The log file the host hands over; the plugin reads only its size. */
  class LogFile {
    var size: nat
  }

  class SystemViewerPlugin {
    var dltFile: LogFile?
    var counterMessages: int
    var counterVerboseMessages: int
    var counterNonVerboseMessages: int
    var lastValueUser: int
    var lastValueNice: int
    var lastValueKernel: int
    var lastTimeStamp: int
    /** The calls made on the viewer widget, oldest first. */
    ghost var formCalls: seq<Event>

    function Counts(): Counters
      reads this
    {
      Counters(counterMessages, counterVerboseMessages, counterNonVerboseMessages)
    }

    function Reference(): Baseline
      reads this
    {
      Baseline(lastValueUser, lastValueNice, lastValueKernel, lastTimeStamp)
    }

    ghost function State(): View
      reads this
    {
      View(Counts(), Reference(), formCalls)
    }

    /** The plugin starts with no file. The source leaves the counters and the
        baseline uninitialised, so they start from arbitrary values here. */
    constructor (counts: Counters, reference: Baseline)
      ensures dltFile == null
      ensures State() == View(counts, reference, [])
    {
      dltFile := null;
      counterMessages, counterVerboseMessages, counterNonVerboseMessages :=
        counts.messages, counts.verbose, counts.nonVerbose;
      lastValueUser, lastValueNice, lastValueKernel, lastTimeStamp :=
        reference.user, reference.nice, reference.kernel, reference.timestamp;
      formCalls := [];
    }

    /** A file is opened: remember it, take its size as the message count and
        empty the process table. The verbosity counters and the CPU baseline
        carry over from the previous file. */
    method InitFileStart(file: LogFile)
      modifies this
      ensures dltFile == file
      ensures Counts() == old(Counts()).(messages := file.size)
      ensures Reference() == old(Reference())
      ensures formCalls == old(formCalls) + [DeleteAllProcesses]
    {
      dltFile := file;
      counterMessages := dltFile.size;
      formCalls := formCalls + [DeleteAllProcesses];
    }

    /** `updateProcesses`: nothing without a file; otherwise exactly
        `Ingest`. Its three blocks are the three methods below; the argument
        variable they share starts out unset in each, since a message is never
        both a `PROC` and a `STAT` record. */
    method UpdateProcesses(index: int, msg: Msg)
      requires dltFile != null ==> Computable(Reference(), msg)
      modifies this
      ensures old(dltFile) == null ==> unchanged(this)
      ensures old(dltFile) != null ==> dltFile == old(dltFile) && State() == Ingest(old(State()), msg)
    {
      if dltFile == null {
        return;
      }
      CountMode(msg.mode);
      ShowProcess(msg);
      ShowCpuLoad(msg);
    }

    /** The verbosity block: bump the counter of the message's mode. */
    method CountMode(mode: Mode)
      modifies this
      ensures dltFile == old(dltFile) && formCalls == old(formCalls)
      ensures Counts() == Tallied(old(Counts()), mode)
      ensures Reference() == old(Reference())
    {
      if mode == Verbose {
        counterVerboseMessages := counterVerboseMessages + 1;
      }
      if mode == NonVerbose {
        counterNonVerboseMessages := counterNonVerboseMessages + 1;
      }
    }

    /** The `PROC` block: a "stat" process record adds an entry to the
        widget's process table. */
    method ShowProcess(msg: Msg)
      modifies this
      ensures dltFile == old(dltFile) && Counts() == old(Counts()) && Reference() == old(Reference())
      ensures formCalls == old(formCalls) + ProcCalls(msg)
    {
      var arg := UnsetArgument;
      if msg.apid == "SYS" && msg.ctid == "PROC" {
        arg := Argument(msg, 0, arg);
        var pid := ToInt(arg);
        arg := Argument(msg, 1, arg);
        if arg == "stat" {
          arg := Argument(msg, 2, arg);
          formCalls := formCalls + [AddProcess(pid, arg, msg)];
        }
      }
    }

    /** The `STAT` block: a sequence-1 record shows the user, nice and system
        rates against the stored sample, then becomes the stored sample. */
    method ShowCpuLoad(msg: Msg)
      requires Computable(Reference(), msg)
      modifies this
      ensures dltFile == old(dltFile) && Counts() == old(Counts())
      ensures formCalls == old(formCalls) + CpuCalls(old(Reference()), msg)
      ensures Reference() == Advance(old(Reference()), msg)
    {
      ghost var before := Reference();
      var arg := UnsetArgument;
      if msg.apid == "SYS" && msg.ctid == "STAT" {
        arg := Argument(msg, 0, arg);
        var sequence := ToInt(arg);
        if sequence == 1 {
          arg := Argument(msg, 1, arg);
          var datalist := Split(arg, ' ');
          SampleFields(before, msg, datalist);
          ShowSample(datalist, msg.timestamp);
        }
      }
    }

    /** The rates of a sample whose fields are `datalist` and whose timestamp
        is `timestamp`, shown on the widget; the sample then becomes the
        stored one. */
    method ShowSample(datalist: seq<string>, timestamp: int)
      requires |datalist| >= 5 && timestamp != lastTimeStamp
      modifies this
      ensures dltFile == old(dltFile) && Counts() == old(Counts())
      ensures var b, e := old(Reference()), timestamp - old(lastTimeStamp);
        formCalls == old(formCalls) + [SetUser(Decimal(Rate(ToInt(datalist[2]), b.user, e))),
                                       SetNice(Decimal(Rate(ToInt(datalist[3]), b.nice, e))),
                                       SetSystem(Decimal(Rate(ToInt(datalist[4]), b.kernel, e)))]
      ensures Reference() == Baseline(ToInt(datalist[2]), ToInt(datalist[3]), ToInt(datalist[4]), timestamp)
    {
      var last := Reference();
      var elapsed := timestamp - last.timestamp;
      var user, nice, kernel := ToInt(datalist[2]), ToInt(datalist[3]), ToInt(datalist[4]);
      formCalls := formCalls + [SetUser(Decimal(Rate(user, last.user, elapsed)))];
      formCalls := formCalls + [SetNice(Decimal(Rate(nice, last.nice, elapsed)))];
      formCalls := formCalls + [SetSystem(Decimal(Rate(kernel, last.kernel, elapsed)))];
      lastValueUser, lastValueNice, lastValueKernel := user, nice, kernel;
      lastTimeStamp := timestamp;
    }

    /** A message of the initial load. */
    method InitMsg(index: int, msg: Msg)
      requires dltFile != null ==> Computable(Reference(), msg)
      modifies this
      ensures old(dltFile) == null ==> unchanged(this)
      ensures old(dltFile) != null ==> dltFile == old(dltFile) && State() == Ingest(old(State()), msg)
    {
      UpdateProcesses(index, msg);
    }

    /** A message appended to the open file: ingested, then the message count
        is refreshed from the file. */
    method UpdateMsg(index: int, msg: Msg)
      requires dltFile != null ==> Computable(Reference(), msg)
      modifies this
      ensures old(dltFile) == null ==> unchanged(this)
      ensures old(dltFile) != null ==>
        dltFile == old(dltFile) &&
        State() == (var r := Ingest(old(State()), msg); r.(counters := r.counters.(messages := dltFile.size)))
    {
      if dltFile == null {
        return;
      }
      UpdateProcesses(index, msg);
      counterMessages := dltFile.size;
    }
  }
}
