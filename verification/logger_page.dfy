/** The logger page's session logic: the recent-log buffer, the log worker
    that drains the channel into the CSV writer with its flush rule, the
    forwarding of hook entries, and the start/stop/toggle state machine.

    The UI thread, the worker task and the hook's drain loop run concurrently
    in the program; here each step is an explicit call. The worker's progress
    at shutdown is an input (how many channel items it wrote before it saw the
    cancellation), as is every clock reading. */
module LoggerPage {
  import opened Primitives
  import opened HookService
  import opened CsvLog
  import opened RunningApps

  const RecentLogLimit := 200
  const LogFilePrefix := "operation_log"

  /** Ten seconds in `DateTime` ticks (100 ns): `TotalSeconds >= 10`. */
  const FlushIntervalTicks := 100_000_000

  // ===== Recent logs =====

  /** One line of the recent-log list. */
  datatype InputLogViewItem = InputLogViewItem(
    timestampUtc: string,
    targetPid: int32,
    targetAppName: string,
    operation: string,
    x: string,
    y: string,
    delta: string,
    virtualKey: string)

  /** The list item built for an entry, formatted with invariant-culture
      rules: then it shows the same eight values the CSV row holds,
      unescaped. */
  function ToViewItem(e: InputLogEntry, appName: string): (v: InputLogViewItem)
    ensures v.targetPid == e.targetPid
    ensures [v.timestampUtc, Decimal.FormatInt(v.targetPid), v.targetAppName, v.operation, v.x, v.y, v.delta, v.virtualKey]
         == RowFields(e, appName)
  {
    InputLogViewItem(FormatTimestamp(e.timestampUtc), e.targetPid, appName, e.operation,
                     FormatOptInt(e.x), FormatOptInt(e.y), FormatOptInt(e.delta), FormatOptInt(e.virtualKey))
  }

  /** `recentLogs.Add(item)` followed by removing the first item while there
      are more than 200: the newest items are kept, the new one last. */
  method AppendRecent(recent: seq<InputLogViewItem>, item: InputLogViewItem) returns (r: seq<InputLogViewItem>)
    ensures |r| == if |recent| < RecentLogLimit then |recent| + 1 else RecentLogLimit
    ensures r == (recent + [item])[|recent| + 1 - |r|..]
    ensures r[|r| - 1] == item
  {
    var all := recent + [item];
    r := all;
    while |r| > RecentLogLimit
      invariant 0 < |r| <= |all|
      invariant r == all[|all| - |r|..]
      invariant |all| <= RecentLogLimit ==> r == all
      invariant |all| > RecentLogLimit ==> |r| >= RecentLogLimit
      decreases |r|
    {
      r := r[1..];
    }
  }

  // ===== Log worker =====

  /** The rows the writer emits for `entries`. */
  function Rows(entries: seq<InputLogEntry>, appName: string): (rows: seq<string>)
    ensures |rows| == |entries|
  {
    seq(|entries|, i requires 0 <= i < |entries| => FormatRow(entries[i], appName))
  }

  lemma RowsStep(entries: seq<InputLogEntry>, appName: string, i: nat)
    requires i < |entries|
    ensures Rows(entries[..i + 1], appName) == Rows(entries[..i], appName) + [FormatRow(entries[i], appName)]
  {
  }

  /** The worker's `lastFlush` when it reads entry `i`: the start reading,
      replaced by `resetAt(k)` after every entry `k` that caused a flush.
      `checkAt(k)` is the clock reading of the elapsed-time test after entry
      `k`, `resetAt(k)` the reading stored when that test flushes. */
  function LastFlushAt(start: int, checkAt: nat -> int, resetAt: nat -> int, i: nat): int {
    if i == 0 then start
    else
      var last := LastFlushAt(start, checkAt, resetAt, i - 1);
      if checkAt(i - 1) - last >= FlushIntervalTicks then resetAt(i - 1) else last
  }

  /** Whether the worker flushes right after writing entry `i`. */
  predicate FlushesAfter(start: int, checkAt: nat -> int, resetAt: nat -> int, i: nat) {
    checkAt(i) - LastFlushAt(start, checkAt, resetAt, i) >= FlushIntervalTicks
  }

  function FlushSchedule(start: int, checkAt: nat -> int, resetAt: nat -> int, n: nat): (s: seq<bool>)
    ensures |s| == n
  {
    if n == 0 then [] else FlushSchedule(start, checkAt, resetAt, n - 1) + [FlushesAfter(start, checkAt, resetAt, n - 1)]
  }

  /** Between two consecutive flushes at least ten seconds pass: the later
      test measures from the clock reading the earlier flush stored. */
  lemma {:induction false} FlushesAreSpaced(start: int, checkAt: nat -> int, resetAt: nat -> int, i: nat, j: nat)
    requires i < j
    requires FlushesAfter(start, checkAt, resetAt, i) && FlushesAfter(start, checkAt, resetAt, j)
    requires forall k {:trigger FlushesAfter(start, checkAt, resetAt, k)} :: i < k < j ==> !FlushesAfter(start, checkAt, resetAt, k)
    ensures checkAt(j) - resetAt(i) >= FlushIntervalTicks
  {
    LastFlushAfterFlush(start, checkAt, resetAt, i, j);
  }

  lemma {:induction false} LastFlushAfterFlush(start: int, checkAt: nat -> int, resetAt: nat -> int, i: nat, j: nat)
    requires i < j
    requires FlushesAfter(start, checkAt, resetAt, i)
    requires forall k {:trigger FlushesAfter(start, checkAt, resetAt, k)} :: i < k < j ==> !FlushesAfter(start, checkAt, resetAt, k)
    ensures LastFlushAt(start, checkAt, resetAt, j) == resetAt(i)
    decreases j
  {
    if j > i + 1 {
      LastFlushAfterFlush(start, checkAt, resetAt, i, j - 1);
      assert !FlushesAfter(start, checkAt, resetAt, j - 1);
    }
  }

  /** `durable[i]` is the number of leading records flushed once the `i`-th
      row has been written: every record so far (`base` earlier ones plus
      `i + 1` rows) when a flush followed it, otherwise the count before it. */
  predicate DurableTrace(base: nat, flushed0: nat, flags: seq<bool>, durable: seq<nat>) {
    && |durable| == |flags|
    && forall i {:trigger durable[i]} :: 0 <= i < |durable| ==>
         durable[i] == if flags[i] then base + i + 1 else if i == 0 then flushed0 else durable[i - 1]
  }

  /** The flushed count after the last row of `durable`, or `flushed0`
      before any row. */
  function LastDurable(flushed0: nat, durable: seq<nat>): nat {
    if |durable| == 0 then flushed0 else durable[|durable| - 1]
  }

  /** The counts DurableTrace describes, built row by row. */
  function DurableCounts(base: nat, flushed0: nat, flags: seq<bool>): (d: seq<nat>)
    ensures |d| == |flags|
  {
    if |flags| == 0 then []
    else
      var prev := DurableCounts(base, flushed0, flags[..|flags| - 1]);
      prev + [if flags[|flags| - 1] then base + |flags| else LastDurable(flushed0, prev)]
  }

  lemma DurableCountsStep(base: nat, flushed0: nat, flags: seq<bool>, f: bool)
    ensures DurableCounts(base, flushed0, flags + [f])
         == DurableCounts(base, flushed0, flags)
            + [if f then base + |flags| + 1 else LastDurable(flushed0, DurableCounts(base, flushed0, flags))]
  {
    assert (flags + [f])[..|flags|] == flags;
  }

  lemma {:induction false} DurableCountsTrace(base: nat, flushed0: nat, flags: seq<bool>)
    ensures DurableTrace(base, flushed0, flags, DurableCounts(base, flushed0, flags))
    decreases |flags|
  {
    if |flags| > 0 {
      var init := flags[..|flags| - 1];
      DurableCountsTrace(base, flushed0, init);
      var prev := DurableCounts(base, flushed0, init);
      var d := DurableCounts(base, flushed0, flags);
      assert d == prev + [if flags[|flags| - 1] then base + |flags| else LastDurable(flushed0, prev)];
      forall i | 0 <= i < |d|
        ensures d[i] == if flags[i] then base + i + 1 else if i == 0 then flushed0 else d[i - 1]
      {
        if i < |prev| {
          assert d[i] == prev[i] && flags[i] == init[i];
          if i > 0 {
            assert d[i - 1] == prev[i - 1];
          }
        } else {
          assert d[i] == if flags[i] then base + |flags| else LastDurable(flushed0, prev);
          if i > 0 {
            assert d[i - 1] == prev[i - 1];
          }
        }
      }
    }
  }

  /** What the worker loop keeps after handling the first `i` entries: the
      rows written so far, the last flush's reading, the flush flags and the
      flushed counts of the schedule, and the writer's own flushed count. */
  predicate WorkerInv(writer: CsvWriter, entries: seq<InputLogEntry>, appName: string,
                      start: int, checkAt: nat -> int, resetAt: nat -> int,
                      i: nat, w: CsvWriter, lastFlush: int, flags: seq<bool>, durable: seq<nat>) {
    && i <= |entries|
    && w.path == writer.path
    && w.lines == writer.lines + Rows(entries[..i], appName)
    && |w.lines| == |writer.lines| + i
    && lastFlush == LastFlushAt(start, checkAt, resetAt, i)
    && flags == FlushSchedule(start, checkAt, resetAt, i)
    && durable == DurableCounts(|writer.lines|, writer.flushed, flags)
    && w.flushed == LastDurable(writer.flushed, durable)
  }

  lemma WorkerInvStep(writer: CsvWriter, entries: seq<InputLogEntry>, appName: string,
                      start: int, checkAt: nat -> int, resetAt: nat -> int,
                      i: nat, w: CsvWriter, lastFlush: int, flags: seq<bool>, durable: seq<nat>,
                      w': CsvWriter, lastFlush': int, flushed: bool)
    requires WorkerInv(writer, entries, appName, start, checkAt, resetAt, i, w, lastFlush, flags, durable)
    requires i < |entries|
    requires w'.path == w.path && w'.lines == w.lines + [FormatRow(entries[i], appName)]
    requires flushed <==> checkAt(i) - lastFlush >= FlushIntervalTicks
    requires lastFlush' == if flushed then resetAt(i) else lastFlush
    requires w'.flushed == if flushed then |w'.lines| else w.flushed
    ensures WorkerInv(writer, entries, appName, start, checkAt, resetAt, i + 1, w', lastFlush',
                      flags + [flushed], durable + [w'.flushed])
  {
    RowsStep(entries, appName, i);
    DurableCountsStep(|writer.lines|, writer.flushed, flags, flushed);
  }

  /** `ProcessLogQueueAsync` over the entries it gets to read: writes one row
      per entry, flushes after a row when ten seconds have passed since the
      last flush, and flushes once more on the way out (completion and
      cancellation alike). `flushedAfter[i]` says whether entry `i` was
      followed by a flush, and `durable[i]` how many leading records of the
      file are flushed once entry `i` has been handled: all of them after a
      flush, otherwise as many as before. */
  method ProcessLogQueue(writer: CsvWriter, entries: seq<InputLogEntry>, appName: string,
                         start: int, checkAt: nat -> int, resetAt: nat -> int)
    returns (w: CsvWriter, flushedAfter: seq<bool>, durable: seq<nat>)
    ensures w.path == writer.path
    ensures w.lines == writer.lines + Rows(entries, appName)
    ensures ValidWriter(w) && Durable(w) == w.lines
    ensures flushedAfter == FlushSchedule(start, checkAt, resetAt, |entries|)
    ensures DurableTrace(|writer.lines|, writer.flushed, flushedAfter, durable)
  {
    w := writer;
    flushedAfter := [];
    durable := [];
    var lastFlush := start;
    var i := 0;
    while i < |entries|
      invariant WorkerInv(writer, entries, appName, start, checkAt, resetAt, i, w, lastFlush, flushedAfter, durable)
    {
      var w', lastFlush', flushed := WorkerStep(w, entries[i], appName, lastFlush, checkAt(i), resetAt(i));
      WorkerInvStep(writer, entries, appName, start, checkAt, resetAt, i, w, lastFlush, flushedAfter, durable,
                    w', lastFlush', flushed);
      w, lastFlush := w', lastFlush';
      flushedAfter := flushedAfter + [flushed];
      durable := durable + [w.flushed];
      i := i + 1;
    }
    assert entries[..i] == entries;
    DurableCountsTrace(|writer.lines|, writer.flushed, flushedAfter);
    w := Flush(w);
  }

  /** One turn of the worker loop: write the entry's row, then flush if the
      clock reading `now` is ten seconds past `lastFlush`, taking `reset` as
      the new time of the last flush. */
  method WorkerStep(w: CsvWriter, e: InputLogEntry, appName: string, lastFlush: int, now: int, reset: int)
    returns (w': CsvWriter, lastFlush': int, flushed: bool)
    ensures w'.path == w.path
    ensures w'.lines == w.lines + [FormatRow(e, appName)]
    ensures flushed <==> now - lastFlush >= FlushIntervalTicks
    ensures lastFlush' == if flushed then reset else lastFlush
    ensures flushed ==> ValidWriter(w') && Durable(w') == w'.lines
    ensures w'.flushed == if flushed then |w'.lines| else w.flushed
  {
    w' := Write(w, e, appName);
    flushed := now - lastFlush >= FlushIntervalTicks;
    lastFlush' := lastFlush;
    if flushed {
      w' := Flush(w');
      lastFlush' := reset;
    }
  }

  // ===== Page state =====

  /** The channel between OnLog and the worker. */
  datatype LogChannel = LogChannel(items: seq<InputLogEntry>, completed: bool)

  /** `Writer.TryWrite`: refused once the channel is completed. */
  function TryWrite(c: LogChannel, e: InputLogEntry): (c': LogChannel)
    ensures c'.completed == c.completed
    ensures c.completed ==> c' == c
    ensures !c.completed ==> c'.items == c.items + [e]
  {
    if c.completed then c else c.(items := c.items + [e])
  }

  /** The worker task: the writer it captured and its first clock reading. */
  datatype LogWorker = LogWorker(writer: CsvWriter, startedAt: int)

  datatype Cts = Cts(cancelled: bool)

  /** The fields of the page that the session logic touches. */
  datatype LoggerPageState = LoggerPageState(
    isLogging: bool,
    selectedProcess: Option<ProcessInfo>,
    loggingTargetPid: Option<int32>,
    loggingTargetAppName: Option<string>,
    hookService: Option<HookState>,
    subscribed: bool,
    csvWriter: Option<CsvWriter>,
    logChannel: Option<LogChannel>,
    loggingCts: Option<Cts>,
    loggingTask: Option<LogWorker>,
    recentLogs: seq<InputLogViewItem>)

  /** No session resources held. */
  predicate SessionCleared(p: LoggerPageState) {
    && p.hookService.None?
    && p.csvWriter.None? && p.logChannel.None? && p.loggingCts.None? && p.loggingTask.None?
    && p.loggingTargetPid.None? && p.loggingTargetAppName.None?
  }

  /** The hook service exists and is marked running. */
  predicate HookRunning(p: LoggerPageState) {
    p.hookService.Some? && p.hookService.value.running
  }

  /** Everything downstream of the hook is in place: entries the hook delivers
      reach a live channel read by a worker that writes to an open writer. */
  predicate ConsumerReady(p: LoggerPageState) {
    && p.csvWriter.Some? && p.logChannel.Some? && !p.logChannel.value.completed
    && p.loggingTask.Some? && p.loggingTask.value.writer == p.csvWriter.value
    && p.loggingCts.Some? && !p.loggingCts.value.cancelled
    && p.loggingTargetAppName.Some? && p.subscribed
  }

  // ===== OnLog =====

  /** `HookService_OnLog`: ignored unless an app name and a channel exist;
      otherwise shown in the recent list and offered to the channel. The UI
      update, dispatched to the UI thread in the program, happens at once
      here. */
  method OnLog(p: LoggerPageState, e: InputLogEntry) returns (r: LoggerPageState)
    ensures p.loggingTargetAppName.None? || p.logChannel.None? ==> r == p
    ensures p.loggingTargetAppName.Some? && p.logChannel.Some? ==>
      && r == p.(recentLogs := r.recentLogs, logChannel := r.logChannel)
      && r.logChannel == Some(TryWrite(p.logChannel.value, e))
      && |r.recentLogs| == (if |p.recentLogs| < RecentLogLimit then |p.recentLogs| + 1 else RecentLogLimit)
      && r.recentLogs[|r.recentLogs| - 1] == ToViewItem(e, p.loggingTargetAppName.value)
      && r.recentLogs == (p.recentLogs + [ToViewItem(e, p.loggingTargetAppName.value)])[|p.recentLogs| + 1 - |r.recentLogs|..]
  {
    if p.loggingTargetAppName.None? || p.logChannel.None? {
      return p;
    }
    var recent := AppendRecent(p.recentLogs, ToViewItem(e, p.loggingTargetAppName.value));
    r := p.(recentLogs := recent, logChannel := Some(TryWrite(p.logChannel.value, e)));
  }

  // ===== Start =====

  /** What starting a session observes: the clock, the records already in the
      file of that name, the worker's first clock reading, and what the two
      hook registrations return. */
  datatype StartEnv = StartEnv(now: DateTimeUtc, existingFile: seq<string>, workerClock: int,
                               kbResult: int, msResult: int, lastError: int)

  /** The page after StartLogging, every intermediate state in statement
      order, and the Win32 error if the hook service's Start threw. */
  datatype StartResult = StartResult(page: LoggerPageState, trace: seq<LoggerPageState>, error: Option<int>)

  /** The first five steps of `StartLogging`: the target, the writer just
      opened, the cancellation source, the channel and the worker, in that
      order. The hook service is not touched. */
  function PrepareConsumer(p: LoggerPageState, target: ProcessInfo, writer: CsvWriter, workerClock: int)
    : (steps: seq<LoggerPageState>)
    ensures |steps| == 5
    ensures forall k :: 0 <= k < 5 ==> steps[k].hookService == p.hookService
    ensures var s := steps[4];
      && s.isLogging == p.isLogging && s.selectedProcess == p.selectedProcess
      && s.recentLogs == p.recentLogs && s.subscribed == p.subscribed
      && s.loggingTargetPid == Some(target.processId) && s.loggingTargetAppName == Some(target.processName)
      && s.csvWriter == Some(writer)
      && s.logChannel == Some(LogChannel([], false)) && s.loggingCts == Some(Cts(false))
      && s.loggingTask == Some(LogWorker(writer, workerClock))
  {
    var s1 := p.(loggingTargetPid := Some(target.processId), loggingTargetAppName := Some(target.processName));
    var s2 := s1.(csvWriter := Some(writer));
    var s3 := s2.(loggingCts := Some(Cts(false)));
    var s4 := s3.(logChannel := Some(LogChannel([], false)));
    var s5 := s4.(loggingTask := Some(LogWorker(writer, workerClock)));
    [s1, s2, s3, s4, s5]
  }

  /** `StartLogging`: target first, then writer, cancellation source, channel
      and worker, and only then the hook service, its subscription and its
      start. If Start throws, everything created so far stays in place. */
  function StartLogging(p: LoggerPageState, target: ProcessInfo, env: StartEnv): (r: StartResult)
    ensures 0 < |r.trace| && r.trace[|r.trace| - 1] == r.page
    ensures r.page.loggingTargetPid == Some(target.processId)
    ensures r.page.loggingTargetAppName == Some(target.processName)
    ensures r.page.csvWriter == Some(Open(LogFilePrefix, env.now, env.existingFile))
    ensures r.page.hookService.Some? && r.page.hookService.value.targetPid == Some(target.processId)
    ensures HookRunning(r.page) && ConsumerReady(r.page)
    ensures r.error.None? <==> env.kbResult != 0 && env.msResult != 0
    ensures r.error.None? ==> Installed(r.page.hookService.value)
    ensures r.page.isLogging == p.isLogging && r.page.recentLogs == p.recentLogs
    ensures r.page.selectedProcess == p.selectedProcess
  {
    var prepared := PrepareConsumer(p, target, Open(LogFilePrefix, env.now, env.existingFile), env.workerClock);
    var s5 := prepared[4];
    var s6 := s5.(hookService := Some(NewHookService(Some(target.processId))), subscribed := false);
    var s7 := s6.(subscribed := true);
    var started := Start(s7.hookService.value, env.kbResult, env.msResult, env.lastError);
    var s8 := s7.(hookService := Some(started.state));
    StartResult(s8, prepared + [s6, s7, s8], started.error)
  }

  /** Ordering of StartLogging: from a page without a running hook, no
      intermediate state has a running hook before the last, and every state
      with a running hook already has its consumer in place. */
  lemma StartLoggingOrdering(p: LoggerPageState, target: ProcessInfo, env: StartEnv)
    requires !HookRunning(p)
    ensures var r := StartLogging(p, target, env);
      && (forall k :: 0 <= k < |r.trace| - 1 ==> !HookRunning(r.trace[k]))
      && (forall k :: 0 <= k < |r.trace| && HookRunning(r.trace[k]) ==> ConsumerReady(r.trace[k]))
  {
    var r := StartLogging(p, target, env);
    var prepared := PrepareConsumer(p, target, Open(LogFilePrefix, env.now, env.existingFile), env.workerClock);
    assert r.trace[..5] == prepared;
    assert |r.trace| == 8;
    forall k | 0 <= k < 7 ensures !HookRunning(r.trace[k]) {
      if k < 5 {
        assert r.trace[k] == prepared[k];
      }
    }
  }

  // ===== Stop =====

  /** The steps of stopping that reach outside the page, in program order:
      detaching the page's handler, the hook service cancelling its drain loop
      and unhooking each registered handle, cancelling the worker, and
      completing the channel. */
  datatype StopEffect = Unsubscribe | CancelDrain | Unhook(handle: int) | CancelWorker | CompleteChannel

  /** Where each kind of step falls in the shutdown order. */
  function StopRank(e: StopEffect): nat {
    match e
    case Unsubscribe => 0
    case CancelDrain => 1
    case Unhook(_) => 2
    case CancelWorker => 3
    case CompleteChannel => 4
  }

  /** Steps listed in shutdown order. */
  predicate InStopOrder(es: seq<StopEffect>) {
    forall i, j :: 0 <= i < j < |es| ==> StopRank(es[i]) <= StopRank(es[j])
  }

  predicate RanksAtMost(es: seq<StopEffect>, m: nat) {
    forall i :: 0 <= i < |es| ==> StopRank(es[i]) <= m
  }

  predicate RanksAtLeast(es: seq<StopEffect>, m: nat) {
    forall i :: 0 <= i < |es| ==> m <= StopRank(es[i])
  }

  lemma {:induction false} OrderedConcat(a: seq<StopEffect>, b: seq<StopEffect>, m: nat)
    requires InStopOrder(a) && InStopOrder(b) && RanksAtMost(a, m) && RanksAtLeast(b, m)
    ensures InStopOrder(a + b)
  {
    var ab := a + b;
    forall i, j | 0 <= i < j < |ab| ensures StopRank(ab[i]) <= StopRank(ab[j]) {
      if j < |a| {
        assert ab[i] == a[i] && ab[j] == a[j];
      } else if i >= |a| {
        assert ab[i] == b[i - |a|] && ab[j] == b[j - |a|];
      } else {
        assert ab[i] == a[i] && ab[j] == b[j - |a|];
      }
    }
  }

  /** One Unhook step per handle, in order. */
  function UnhookEach(hs: seq<int>): (es: seq<StopEffect>)
    ensures |es| == |hs|
    ensures forall i :: 0 <= i < |es| ==> es[i] == Unhook(hs[i])
  {
    if |hs| == 0 then [] else [Unhook(hs[0])] + UnhookEach(hs[1..])
  }

  lemma UnhookEachRanked(hs: seq<int>)
    ensures var es := UnhookEach(hs); InStopOrder(es) && RanksAtMost(es, 2) && RanksAtLeast(es, 2)
  {
  }

  lemma UnhookEachHandles(hs: seq<int>)
    ensures var es := UnhookEach(hs);
      && (forall x :: Unhook(x) in es <==> x in hs)
      && !(Unsubscribe in es) && !(CancelDrain in es) && !(CancelWorker in es) && !(CompleteChannel in es)
  {
    var es := UnhookEach(hs);
    forall x ensures Unhook(x) in es <==> x in hs {
      if Unhook(x) in es {
        var i :| 0 <= i < |es| && es[i] == Unhook(x);
        assert hs[i] == x;
      }
      if x in hs {
        var i :| 0 <= i < |hs| && hs[i] == x;
        assert es[i] == Unhook(x);
      }
    }
  }

  /** The steps of `hookService.OnLog -= ...; hookService.Stop()` for the
      page's hook service: the handler is detached, and a running service
      cancels its drain loop before it unhooks its handles. */
  function HookStopEffects(h: HookState): (es: seq<StopEffect>)
    ensures InStopOrder(es) && RanksAtMost(es, 2)
  {
    var stopped := Stop(h);
    var cancel := if stopped.cancelled then [CancelDrain] else [];
    var unhooks := UnhookEach(stopped.unhooked);
    UnhookEachRanked(stopped.unhooked);
    OrderedConcat([Unsubscribe], cancel, 0);
    OrderedConcat([Unsubscribe] + cancel, unhooks, 2);
    [Unsubscribe] + cancel + unhooks
  }

  /** Which steps stopping a hook service takes: the handler is always
      detached; a running service cancels its drain loop iff it holds one and
      unhooks exactly its non-zero handles; a stopped one does neither. */
  lemma {:induction false} HookStopSteps(h: HookState)
    ensures var es := HookStopEffects(h);
      && Unsubscribe in es
      && (CancelDrain in es <==> h.running && h.ctsLive)
      && (forall x :: Unhook(x) in es <==> h.running && x != 0 && (x == h.kbHook || x == h.msHook))
  {
    var stopped := Stop(h);
    var cancel := if stopped.cancelled then [CancelDrain] else [];
    var unhooks := UnhookEach(stopped.unhooked);
    var es := HookStopEffects(h);
    UnhookEachHandles(stopped.unhooked);
    assert es == [Unsubscribe] + cancel + unhooks;
    assert es[0] == Unsubscribe;
    forall x ensures Unhook(x) in es <==> Unhook(x) in unhooks {
    }
    assert CancelDrain in es <==> CancelDrain in cancel;
  }

  /** The page and the steps taken by the part of `StopLoggingIfNeededAsync`
      before its `await`. */
  datatype StopBeginResult = StopBeginResult(page: LoggerPageState, effects: seq<StopEffect>)

  /** `StopLoggingIfNeededAsync` up to its `await`: the hook service is
      detached, stopped and dropped; then the worker is cancelled; then the
      channel is completed. The writer, the worker and the target stay. */
  function StopBegin(p: LoggerPageState): (r: StopBeginResult)
    ensures r.page.hookService.None? && r.page.subscribed == (p.subscribed && p.hookService.None?)
    ensures r.page.loggingCts == (if p.loggingCts.Some? then Some(Cts(true)) else None)
    ensures r.page.logChannel == (if p.logChannel.Some? then Some(p.logChannel.value.(completed := true)) else None)
    ensures r.page == p.(hookService := None, subscribed := r.page.subscribed,
                         loggingCts := r.page.loggingCts, logChannel := r.page.logChannel)
    ensures InStopOrder(r.effects)
  {
    var hookEffects := if p.hookService.Some? then HookStopEffects(p.hookService.value) else [];
    var cancel := if p.loggingCts.Some? then [CancelWorker] else [];
    var complete := if p.logChannel.Some? then [CompleteChannel] else [];
    var page := p.(hookService := None, subscribed := p.subscribed && p.hookService.None?,
                   loggingCts := if p.loggingCts.Some? then Some(Cts(true)) else None,
                   logChannel := if p.logChannel.Some? then Some(p.logChannel.value.(completed := true)) else None);
    OrderedConcat(hookEffects, cancel, 3);
    OrderedConcat(hookEffects + cancel, complete, 4);
    StopBeginResult(page, hookEffects + cancel + complete)
  }

  /** Which steps the part before the `await` takes: the page's hook is
      detached iff it has one, its drain loop cancelled and its non-zero
      handles unhooked iff it runs, the worker cancelled iff a cancellation
      source exists and the channel completed iff a channel exists. */
  lemma {:induction false} StopBeginSteps(p: LoggerPageState)
    ensures var es := StopBegin(p).effects;
      && (Unsubscribe in es <==> p.hookService.Some?)
      && (CancelDrain in es <==> HookRunning(p) && p.hookService.value.ctsLive)
      && (forall x :: Unhook(x) in es <==>
            HookRunning(p) && x != 0 && (x == p.hookService.value.kbHook || x == p.hookService.value.msHook))
      && (CancelWorker in es <==> p.loggingCts.Some?)
      && (CompleteChannel in es <==> p.logChannel.Some?)
  {
    var hookEffects := if p.hookService.Some? then HookStopEffects(p.hookService.value) else [];
    var tail := (if p.loggingCts.Some? then [CancelWorker] else []) + (if p.logChannel.Some? then [CompleteChannel] else []);
    var es := StopBegin(p).effects;
    assert es == hookEffects + tail;
    forall e ensures e in es <==> e in hookEffects || e in tail {
    }
    if p.hookService.Some? {
      HookStopSteps(p.hookService.value);
      HookStepsOnly(hookEffects);
    }
  }

  /** The hook's steps never include the worker's or the channel's. */
  lemma HookStepsOnly(es: seq<StopEffect>)
    requires RanksAtMost(es, 2)
    ensures !(CancelWorker in es) && !(CompleteChannel in es)
  {
    forall i | 0 <= i < |es| ensures es[i] != CancelWorker && es[i] != CompleteChannel {
    }
  }


  /** The page and the log file's records after the part of
      `StopLoggingIfNeededAsync` that follows its `await`. */
  datatype StopFinishResult = StopFinishResult(page: LoggerPageState, file: Option<seq<string>>)

  /** `StopLoggingIfNeededAsync` after its `await`, as written: it disposes
      whatever writer the page holds at that moment and drops every session
      field, whoever put it there. */
  function StopFinish(q: LoggerPageState): (r: StopFinishResult)
    ensures SessionCleared(r.page)
    ensures r.page.isLogging == q.isLogging && r.page.subscribed == q.subscribed
    ensures r.page.selectedProcess == q.selectedProcess && r.page.recentLogs == q.recentLogs
    ensures r.file.Some? <==> q.csvWriter.Some?
    ensures r.file.Some? ==> r.file.value == q.csvWriter.value.lines
  {
    var file := if q.csvWriter.Some? then Some(Flush(q.csvWriter.value).lines) else None;
    StopFinishResult(q.(loggingTask := None, csvWriter := None, logChannel := None, loggingCts := None,
                        hookService := None, loggingTargetPid := None, loggingTargetAppName := None), file)
  }

  /** The click sequence Stop, then Start while the stop awaits its worker.
      The first click has begun stopping; the second runs `StartLogging`,
      which installs a new hook; when the first click resumes, it drops that
      hook without calling Stop on it or detaching the page's handler from it,
      disposes the new writer, and leaves the page marked as logging with no
      session at all. The hook stays
      registered with the system and nothing can unhook it any more. */
  lemma ReentrantStartIsOrphaned(p: LoggerPageState, target: ProcessInfo, env: StartEnv)
    requires p.isLogging && p.selectedProcess == Some(target)
    requires env.kbResult != 0 && env.msResult != 0
    ensures var begun := StopBegin(p.(isLogging := false)).page;
      var started := StartLogging(begun.(isLogging := true), target, env).page;
      var finished := StopFinish(started);
      && Installed(started.hookService.value)
      && finished.page.isLogging && finished.page.hookService.None? && finished.page.csvWriter.None?
      && finished.page.subscribed
      && finished.file == Some(Open(LogFilePrefix, env.now, env.existingFile).lines)
  {
  }

  /** `StopFinish` as evidently intended: dispose the writer this stop
      captured, and drop the session fields only while they still hold the
      worker this stop awaited. A session started during the await is left
      alone, so its hook stays reachable by a later stop. */
  function StopFinishOwned(q: LoggerPageState, awaited: Option<LogWorker>, writer: Option<CsvWriter>)
    : (r: StopFinishResult)
    ensures q.loggingTask == awaited ==> SessionCleared(r.page)
    ensures q.loggingTask == awaited ==>
      && r.page.isLogging == q.isLogging && r.page.subscribed == q.subscribed
      && r.page.selectedProcess == q.selectedProcess && r.page.recentLogs == q.recentLogs
    ensures q.loggingTask != awaited ==> r.page == q
    ensures r.file.Some? <==> writer.Some?
    ensures r.file.Some? ==> r.file.value == writer.value.lines
  {
    var file := if writer.Some? then Some(Flush(writer.value).lines) else None;
    var page := if q.loggingTask == awaited then StopFinish(q).page else q;
    StopFinishResult(page, file)
  }

  /** Without an interleaved click, the corrected finish does what the
      program's finish does. */
  lemma StopFinishOwnedSequential(q: LoggerPageState)
    ensures StopFinishOwned(q, q.loggingTask, q.csvWriter) == StopFinish(q)
  {
  }

  /** The same click sequence with the corrected finish: the session started
      during the await survives whole, hook running and consumer ready. The
      new worker is a different task from the one awaited: it started at
      another clock reading. */
  lemma ReentrantStartSurvivesOwnedFinish(p: LoggerPageState, target: ProcessInfo, env: StartEnv)
    requires p.isLogging && p.selectedProcess == Some(target) && p.loggingTask.Some?
    requires p.loggingTask.value.startedAt != env.workerClock
    ensures var begun := StopBegin(p.(isLogging := false)).page;
      var started := StartLogging(begun.(isLogging := true), target, env).page;
      var finished := StopFinishOwned(started, p.loggingTask, p.csvWriter).page;
      && finished == started
      && finished.isLogging && HookRunning(finished) && ConsumerReady(finished)
  {
  }

  /** What stopping observes: how many channel items the worker wrote before
      it saw the cancellation, and the worker's clock readings. */
  datatype StopEnv = StopEnv(consumed: nat, checkAt: nat -> int, resetAt: nat -> int)

  /** `StopLoggingIfNeededAsync` without an interleaved click: StopBegin, the
      worker running until it sees the cancellation, then the finish. The
      cancellation precedes the completion, so the worker may exit before
      writing every queued item: `written` is how many it wrote. `file` is the
      log file's records once the writer is disposed, and `effects` the steps
      taken before the await. */
  method StopLoggingIfNeeded(p: LoggerPageState, env: StopEnv)
    returns (r: LoggerPageState, file: Option<seq<string>>, written: nat, effects: seq<StopEffect>)
    ensures SessionCleared(r)
    ensures r == p.(hookService := None, subscribed := p.subscribed && p.hookService.None?, csvWriter := None, logChannel := None,
                    loggingCts := None, loggingTask := None, loggingTargetPid := None, loggingTargetAppName := None)
    ensures forall x :: Unhook(x) in effects <==>
      HookRunning(p) && x != 0 && (x == p.hookService.value.kbHook || x == p.hookService.value.msHook)
    ensures CancelDrain in effects <==> HookRunning(p) && p.hookService.value.ctsLive
    ensures Unsubscribe in effects <==> p.hookService.Some?
    ensures CancelWorker in effects <==> p.loggingCts.Some?
    ensures CompleteChannel in effects <==> p.logChannel.Some?
    ensures InStopOrder(effects)
    ensures file.Some? <==> p.csvWriter.Some?
    ensures p.loggingTask.None? ==> written == 0
    ensures p.csvWriter.Some? && p.loggingTask.Some? && p.logChannel.Some?
            && p.loggingTask.value.writer == p.csvWriter.value ==>
      && written <= |p.logChannel.value.items|
      && file == Some(p.csvWriter.value.lines
                      + Rows(p.logChannel.value.items[..written], p.loggingTargetAppName.GetOr("")))
    ensures SessionCleared(p) ==> r == p && file.None? && effects == []
  {
    var begun := StopBegin(p);
    effects := begun.effects;
    StopBeginSteps(p);
    // The worker wrote the first `written` queued entries before it noticed
    // the cancellation.
    var writer := p.csvWriter;
    written := 0;
    if p.loggingTask.Some? {
      var items := if p.logChannel.Some? then p.logChannel.value.items else [];
      written := if env.consumed <= |items| then env.consumed else |items|;
      var task := p.loggingTask.value;
      var w, _, _ := ProcessLogQueue(task.writer, items[..written], p.loggingTargetAppName.GetOr(""),
                                  task.startedAt, env.checkAt, env.resetAt);
      if writer.Some? && task.writer == writer.value {
        writer := Some(w);
      }
    }
    var finished := StopFinishOwned(begun.page.(csvWriter := writer), p.loggingTask, writer);
    r := finished.page;
    file := finished.file;
  }

  // ===== Toggle =====

  /** `ToggleLoggingButton_Click`: flips `isLogging`; turning on without a
      selected process flips it back and starts nothing; turning on with one
      starts a session; turning off stops it. */
  method ToggleLogging(p: LoggerPageState, startEnv: StartEnv, stopEnv: StopEnv)
    returns (r: LoggerPageState, file: Option<seq<string>>, error: Option<int>, effects: seq<StopEffect>)
    ensures !p.isLogging && p.selectedProcess.None? ==> r == p && file.None? && error.None?
    ensures !p.isLogging && p.selectedProcess.Some? ==>
      && r.isLogging && HookRunning(r) && ConsumerReady(r)
      && r.loggingTargetPid == Some(p.selectedProcess.value.processId)
      && (error.None? <==> startEnv.kbResult != 0 && startEnv.msResult != 0)
      && file.None?
    ensures p.isLogging ==> !r.isLogging && SessionCleared(r) && error.None?
    ensures p.isLogging ==> (file.Some? <==> p.csvWriter.Some?)
    ensures p.isLogging ==> forall x :: Unhook(x) in effects <==>
      HookRunning(p) && x != 0 && (x == p.hookService.value.kbHook || x == p.hookService.value.msHook)
    ensures !p.isLogging ==> effects == []
    ensures r.selectedProcess == p.selectedProcess && r.recentLogs == p.recentLogs
  {
    var toggled := p.(isLogging := !p.isLogging);
    error := None;
    file := None;
    effects := [];
    if toggled.isLogging {
      if toggled.selectedProcess.None? {
        r := toggled.(isLogging := false);
        return;
      }
      var started := StartLogging(toggled, toggled.selectedProcess.value, startEnv);
      r := started.page;
      error := started.error;
    } else {
      var written;
      r, file, written, effects := StopLoggingIfNeeded(toggled, stopEnv);
    }
  }
}
