/** The low-level input hook service: which raw hook messages become log
    entries, what those entries hold, the running-flag state machine of
    Start/Stop, and one tick of the drain loop that hands queued entries to the
    subscribers.

    The Win32 calls are inputs: the foreground window and its owning pid, the
    process's own pid, the result of ScreenToClient, the handles returned by
    SetWindowsHookEx, the last Win32 error and the next hook in the chain
    (CallNextHookEx) are all parameters. The clock is an input too. */
module HookService {
  import opened Primitives

  // Hook message identifiers (wParam of a low-level hook callback).
  const WM_KEYDOWN: int32 := 0x0100
  const WM_SYSKEYDOWN: int32 := 0x0104
  const WM_LBUTTONDOWN: int32 := 0x0201
  const WM_RBUTTONDOWN: int32 := 0x0204
  const WM_MBUTTONDOWN: int32 := 0x0207
  const WM_MOUSEWHEEL: int32 := 0x020A
  const WM_MOUSEHWHEEL: int32 := 0x020E

  /** The window and process that passed the foreground filter. */
  datatype ForegroundContext = ForegroundContext(hwnd: int, pid: int32)

  /** One captured input transition. */
  datatype InputLogEntry = InputLogEntry(
    timestampUtc: DateTimeUtc,
    targetPid: int32,
    operation: string,
    x: Option<int32>,
    y: Option<int32>,
    delta: Option<int32>,
    virtualKey: Option<int32>)

  datatype Point = Point(x: int32, y: int32)

  /** The part of MSLLHOOKSTRUCT the callback reads: `pt` (screen coordinates)
      and `mouseData`. */
  datatype MouseHookStruct = MouseHookStruct(pt: Point, mouseData: uint32)

  /** The arguments a low-level hook procedure receives. `lParam` is the
      address of the hook structure; what is read through it is passed
      separately. */
  datatype HookMessage = HookMessage(nCode: int32, wParam: int32, lParam: int)

  /** What GetForegroundWindow and GetWindowThreadProcessId report at the time
      of the message (hwnd 0 means no foreground window). */
  datatype Foreground = Foreground(hwnd: int, pid: uint32)

  /** The world as one callback sees it. */
  datatype CaptureEnv = CaptureEnv(foreground: Foreground, ownPid: uint32, now: DateTimeUtc)

  // ===== Entries =====

  const KeyboardOperation := "keyboard"

  predicate IsKeyboardDownMessage(msg: int32) {
    msg == WM_KEYDOWN || msg == WM_SYSKEYDOWN
  }

  predicate IsWheelMessage(msg: int32) {
    msg == WM_MOUSEWHEEL || msg == WM_MOUSEHWHEEL
  }

  /** The mouse messages that are logged: button downs and wheels. */
  predicate IsCapturedMouseMessage(msg: int32) {
    msg == WM_LBUTTONDOWN || msg == WM_RBUTTONDOWN || msg == WM_MBUTTONDOWN || IsWheelMessage(msg)
  }

  /** The operation names a mouse entry can carry. */
  predicate IsMouseOperationName(op: string) {
    op == "mouse_l" || op == "mouse_r" || op == "mouse_m" || op == "wheel_v" || op == "wheel_h"
  }

  predicate IsWheelOperationName(op: string) {
    op == "wheel_v" || op == "wheel_h"
  }

  /** Shape of a keyboard entry: a key code and nothing positional. */
  predicate IsKeyboardEntry(e: InputLogEntry) {
    && e.operation == KeyboardOperation
    && e.x.None? && e.y.None? && e.delta.None?
    && e.virtualKey.Some?
  }

  /** Shape of a mouse entry as the mouse callback builds it: a position, a
      delta exactly for wheels, and no key code. */
  predicate IsMouseEntry(e: InputLogEntry) {
    && IsMouseOperationName(e.operation)
    && e.x.Some? && e.y.Some?
    && (e.delta.Some? <==> IsWheelOperationName(e.operation))
    && e.virtualKey.None?
  }

  /** Exactly one of {virtual key} and {x, y, [delta]} is populated. */
  predicate WellShaped(e: InputLogEntry) {
    IsKeyboardEntry(e) || IsMouseEntry(e)
  }

  /** Every queued entry is well shaped. */
  predicate QueueWellShaped(q: seq<InputLogEntry>) {
    forall i :: 0 <= i < |q| ==> WellShaped(q[i])
  }

  /** `InputLogEntry.KeyboardDown`. */
  function KeyboardDown(ctx: ForegroundContext, vk: int32, now: DateTimeUtc): (e: InputLogEntry)
    ensures IsKeyboardEntry(e)
    ensures e.targetPid == ctx.pid && e.virtualKey == Some(vk) && e.timestampUtc == now
  {
    InputLogEntry(now, ctx.pid, KeyboardOperation, None, None, None, Some(vk))
  }

  /** `InputLogEntry.MouseDown`: never a key code; a mouse entry whenever the
      caller passes a mouse operation, a position, and a delta exactly for the
      wheel operations. */
  function MouseDown(ctx: ForegroundContext, operation: string, x: Option<int32>, y: Option<int32>,
                     delta: Option<int32>, now: DateTimeUtc): (e: InputLogEntry)
    ensures (IsMouseOperationName(operation) && x.Some? && y.Some?
             && (delta.Some? <==> IsWheelOperationName(operation))) ==> IsMouseEntry(e)
    ensures e.virtualKey.None? && !IsKeyboardEntry(e)
    ensures e.targetPid == ctx.pid && e.operation == operation && e.timestampUtc == now
  {
    InputLogEntry(now, ctx.pid, operation, x, y, delta, None)
  }

  /** `MapMouseOperation`: message identifier to operation name, "mouse" for
      anything else. */
  function MapMouseOperation(msg: int32): (op: string)
    ensures IsCapturedMouseMessage(msg) <==> IsMouseOperationName(op)
    ensures !IsCapturedMouseMessage(msg) ==> op == "mouse"
    ensures IsWheelMessage(msg) <==> IsWheelOperationName(op)
  {
    match msg
    case 0x0201 => "mouse_l"
    case 0x0204 => "mouse_r"
    case 0x0207 => "mouse_m"
    case 0x020A => "wheel_v"
    case 0x020E => "wheel_h"
    case _ => "mouse"
  }

  /** The message an operation name stands for: the inverse of MapMouseOperation. */
  function MouseMessageOf(op: string): Option<int32> {
    if op == "mouse_l" then Some(WM_LBUTTONDOWN)
    else if op == "mouse_r" then Some(WM_RBUTTONDOWN)
    else if op == "mouse_m" then Some(WM_MBUTTONDOWN)
    else if op == "wheel_v" then Some(WM_MOUSEWHEEL)
    else if op == "wheel_h" then Some(WM_MOUSEHWHEEL)
    else None
  }

  /** Distinct captured messages get distinct names, and the name recovers the
      message. */
  lemma MapMouseOperationInverse(msg: int32, op: string)
    ensures IsCapturedMouseMessage(msg) ==> MouseMessageOf(MapMouseOperation(msg)) == Some(msg)
    ensures MouseMessageOf(op) == Some(msg) ==> MapMouseOperation(msg) == op
  {
  }

  /** The wheel delta: the high 16-bit word of `mouseData`, reinterpreted as a
      signed `short`. */
  function WheelDelta(mouseData: uint32): (d: int16)
    ensures d % 0x10000 == mouseData / 0x10000
    ensures d < 0 <==> mouseData >= 0x8000_0000
  {
    var high := (mouseData / 0x10000) % 0x10000;
    if high >= 0x8000 then high - 0x10000 else high
  }

  /** One notch forward and one notch back on a standard wheel. */
  lemma WheelDeltaExamples()
    ensures WheelDelta(0x0078_0000) == 120
    ensures WheelDelta(0xFF88_0000) == -120
    ensures WheelDelta(0xFF88_1234) == -120
  {
  }

  // ===== Foreground filter =====

  /** `TryGetTargetForeground`: accepts only when a target is set, there is a
      foreground window, its process is not this process (checked first), and
      its pid, converted to `int`, equals the target. */
  function TryGetTargetForeground(targetPid: Option<int32>, fg: Foreground, ownPid: uint32)
    : (r: Option<ForegroundContext>)
    ensures r.Some? <==>
      targetPid.Some? && fg.hwnd != 0 && fg.pid != ownPid && UInt32ToInt32(fg.pid) == targetPid.value
    ensures r.Some? ==> r.value.hwnd == fg.hwnd && r.value.pid == targetPid.value
    ensures r.Some? ==> fg.pid == Int32ToUInt32(targetPid.value)
    ensures fg.pid == ownPid ==> r.None?
  {
    if targetPid.None? then None
    else if fg.hwnd == 0 then None
    else if fg.pid == ownPid then None
    else if UInt32ToInt32(fg.pid) != targetPid.value then None
    else Some(ForegroundContext(fg.hwnd, UInt32ToInt32(fg.pid)))
  }

  // ===== Hook state machine =====

  /** The fields of an InputHookService instance. A hook handle of 0 is
      IntPtr.Zero; `kbProc`/`msProc` say whether the callback delegates are
      held; `ctsLive` whether a cancellation source for a drain loop is held. */
  datatype HookState = HookState(
    targetPid: Option<int32>,
    running: bool,
    kbHook: int,
    msHook: int,
    kbProc: bool,
    msProc: bool,
    ctsLive: bool,
    queue: seq<InputLogEntry>)

  /** A freshly constructed service for a target. */
  function NewHookService(targetPid: Option<int32>): (s: HookState)
    ensures Idle(s) && s.queue == [] && s.targetPid == targetPid
  {
    HookState(targetPid, false, 0, 0, false, false, false, [])
  }

  /** Nothing registered, nothing held. */
  predicate Idle(s: HookState) {
    !s.running && s.kbHook == 0 && s.msHook == 0 && !s.kbProc && !s.msProc && !s.ctsLive
  }

  /** Both hooks registered and a drain loop running. */
  predicate Installed(s: HookState) {
    s.running && s.kbHook != 0 && s.msHook != 0 && s.kbProc && s.msProc && s.ctsLive
  }

  /** The result of Start: the new state and, when it threw, the Win32 error
      code carried by the exception. */
  datatype StartOutcome = StartOutcome(state: HookState, error: Option<int>)

  /** `Start`. `kbResult`/`msResult` are what the two SetWindowsHookEx calls
      return (0 on failure) and `lastError` what GetLastWin32Error reports.
      The running flag is set before the registrations, and a failure does not
      release the hook that did register. */
  function Start(s: HookState, kbResult: int, msResult: int, lastError: int): (r: StartOutcome)
    ensures s.running ==> r == StartOutcome(s, None)
    ensures !s.running ==> r.state.running && r.state.kbProc && r.state.msProc
    ensures !s.running ==> r.state.kbHook == kbResult && r.state.msHook == msResult
    ensures !s.running ==> (r.error.Some? <==> kbResult == 0 || msResult == 0)
    ensures r.error.Some? ==> r.error.value == lastError && r.state.ctsLive == s.ctsLive
    ensures !s.running && r.error.None? ==> Installed(r.state)
    ensures r.state.queue == s.queue && r.state.targetPid == s.targetPid
  {
    if s.running then StartOutcome(s, None)
    else
      var s1 := s.(running := true, kbProc := true, msProc := true, kbHook := kbResult, msHook := msResult);
      if kbResult == 0 || msResult == 0 then StartOutcome(s1, Some(lastError))
      else StartOutcome(s1.(ctsLive := true), None)
  }

  /** The result of Stop: the new state, the handles passed to
      UnhookWindowsHookEx (in call order) and whether a drain loop was
      cancelled. */
  datatype StopOutcome = StopOutcome(state: HookState, unhooked: seq<int>, cancelled: bool)

  /** `Stop`: a no-op unless running; otherwise unhooks every non-zero handle,
      cancels the drain loop and drops the handles, callbacks and
      cancellation source. The queue and the target are left as they are. */
  function Stop(s: HookState): (r: StopOutcome)
    ensures !s.running ==> r == StopOutcome(s, [], false)
    ensures s.running ==> Idle(r.state)
    ensures s.running ==> r.cancelled == s.ctsLive
    ensures s.running ==> forall h :: h in r.unhooked <==> h != 0 && (h == s.kbHook || h == s.msHook)
    ensures r.state.queue == s.queue && r.state.targetPid == s.targetPid
  {
    if !s.running then StopOutcome(s, [], false)
    else
      var unhooked := (if s.kbHook != 0 then [s.kbHook] else []) + (if s.msHook != 0 then [s.msHook] else []);
      StopOutcome(s.(running := false, kbHook := 0, msHook := 0, kbProc := false, msProc := false, ctsLive := false),
                  unhooked, s.ctsLive)
  }

  /** Stop twice is Stop once; the second call unhooks nothing. */
  lemma StopIdempotent(s: HookState)
    ensures Stop(Stop(s).state).state == Stop(s).state
    ensures Stop(Stop(s).state).unhooked == []
  {
  }

  /** After any Start, a second Start changes nothing and reports nothing,
      whatever the registrations would return: a failed Start leaves the flag
      set, so the hooks are never retried until Stop. */
  lemma StartTwiceIsNoOp(s: HookState, kb1: int, ms1: int, e1: int, kb2: int, ms2: int, e2: int)
    requires !s.running
    ensures Start(Start(s, kb1, ms1, e1).state, kb2, ms2, e2) == StartOutcome(Start(s, kb1, ms1, e1).state, None)
  {
  }

  /** A Start whose keyboard hook registers and whose mouse hook fails leaves the
      keyboard hook installed and the service marked running; only a later
      Stop unhooks it. */
  lemma PartialStartKeepsHook(s: HookState, kb: int, lastError: int)
    requires Idle(s) && kb != 0
    ensures var r := Start(s, kb, 0, lastError);
      && r.error == Some(lastError)
      && r.state.running && r.state.kbHook == kb && !r.state.ctsLive
      && Stop(r.state).unhooked == [kb]
  {
  }

  // ===== Callbacks =====

  /** The result of a hook callback: the service state after the callback (only
      the queue can differ) and the value returned to the OS. */
  datatype CallbackResult = CallbackResult(state: HookState, returned: int)

  /** `KeyboardHookCallback`. `vkCode` is the first field of the structure at
      lParam; `next` stands for CallNextHookEx. */
  function KeyboardHookCallback(s: HookState, msg: HookMessage, vkCode: int32, env: CaptureEnv,
                                next: HookMessage -> int): (r: CallbackResult)
    ensures r.returned == next(msg)
    ensures r.state == s.(queue := r.state.queue)
    ensures s.queue <= r.state.queue && |r.state.queue| <= |s.queue| + 1
    ensures |r.state.queue| == |s.queue| + 1 <==>
      && msg.nCode >= 0
      && IsKeyboardDownMessage(msg.wParam)
      && TryGetTargetForeground(s.targetPid, env.foreground, env.ownPid).Some?
    ensures |r.state.queue| == |s.queue| + 1 ==>
      var e := r.state.queue[|s.queue|];
      && IsKeyboardEntry(e)
      && e.virtualKey == Some(vkCode)
      && Some(e.targetPid) == s.targetPid
      && e.timestampUtc == env.now
  {
    var queue :=
      if msg.nCode >= 0 && IsKeyboardDownMessage(msg.wParam) then
        match TryGetTargetForeground(s.targetPid, env.foreground, env.ownPid)
        case Some(ctx) => s.queue + [KeyboardDown(ctx, vkCode, env.now)]
        case None => s.queue
      else s.queue;
    CallbackResult(s.(queue := queue), next(msg))
  }

  /** `MouseHookCallback`. `info` is the structure at lParam and `converted`
      what ScreenToClient makes of `info.pt` for the foreground window (None
      when it fails). */
  function MouseHookCallback(s: HookState, msg: HookMessage, info: MouseHookStruct,
                             converted: Option<Point>, env: CaptureEnv,
                             next: HookMessage -> int): (r: CallbackResult)
    ensures r.returned == next(msg)
    ensures r.state == s.(queue := r.state.queue)
    ensures s.queue <= r.state.queue && |r.state.queue| <= |s.queue| + 1
    ensures |r.state.queue| == |s.queue| + 1 <==>
      && msg.nCode >= 0
      && IsCapturedMouseMessage(msg.wParam)
      && TryGetTargetForeground(s.targetPid, env.foreground, env.ownPid).Some?
    ensures |r.state.queue| == |s.queue| + 1 ==>
      var e := r.state.queue[|s.queue|];
      var p := converted.GetOr(info.pt);
      && IsMouseEntry(e)
      && MouseMessageOf(e.operation) == Some(msg.wParam)
      && e.x == Some(p.x) && e.y == Some(p.y)
      && (IsWheelMessage(msg.wParam) ==> e.delta == Some(WheelDelta(info.mouseData) as int32))
      && Some(e.targetPid) == s.targetPid
      && e.timestampUtc == env.now
  {
    var queue :=
      if msg.nCode >= 0 && IsCapturedMouseMessage(msg.wParam) then
        match TryGetTargetForeground(s.targetPid, env.foreground, env.ownPid)
        case Some(ctx) =>
          var cx: int32 := if converted.Some? then converted.value.x else info.pt.x;
          var cy: int32 := if converted.Some? then converted.value.y else info.pt.y;
          var delta: Option<int32> := if IsWheelMessage(msg.wParam) then Some(WheelDelta(info.mouseData) as int32) else None;
          s.queue + [MouseDown(ctx, MapMouseOperation(msg.wParam), Some(cx), Some(cy), delta, env.now)]
        case None => s.queue
      else s.queue;
    CallbackResult(s.(queue := queue), next(msg))
  }

  /** Neither callback ever queues an entry that has both or neither of a key
      code and a position. */
  lemma {:induction false} CallbacksKeepQueueWellShaped(s: HookState, msg: HookMessage, vkCode: int32,
                                                       info: MouseHookStruct, converted: Option<Point>,
                                                       env: CaptureEnv, next: HookMessage -> int)
    requires QueueWellShaped(s.queue)
    ensures QueueWellShaped(KeyboardHookCallback(s, msg, vkCode, env, next).state.queue)
    ensures QueueWellShaped(MouseHookCallback(s, msg, info, converted, env, next).state.queue)
  {
    var kq := KeyboardHookCallback(s, msg, vkCode, env, next).state.queue;
    forall i | 0 <= i < |kq| ensures WellShaped(kq[i]) {
      if i < |s.queue| {
        assert kq[i] == s.queue[i];
      }
    }
    var mq := MouseHookCallback(s, msg, info, converted, env, next).state.queue;
    forall i | 0 <= i < |mq| ensures WellShaped(mq[i]) {
      if i < |s.queue| {
        assert mq[i] == s.queue[i];
      }
    }
  }

  // ===== Drain loop =====

  /** One subscriber invocation: subscriber `index` (position in the event's
      invocation list) was called with `entry`. */
  datatype Delivery = Delivery(index: nat, entry: InputLogEntry)

  /** Invoking the multicast OnLog delegate on `e` from subscriber `k` on:
      subscribers run in order, and one that throws ends the invocation for
      this entry (the exception leaves the delegate and is swallowed by the
      loop). `throws(e, i)` says whether subscriber `i` throws on `e`. */
  function InvokeFrom(e: InputLogEntry, count: nat, throws: (InputLogEntry, nat) -> bool, k: nat)
    : seq<Delivery>
    decreases count - k
  {
    if k >= count then []
    else [Delivery(k, e)] + (if throws(e, k) then [] else InvokeFrom(e, count, throws, k + 1))
  }

  /** Reference for a drain tick: every queued entry, in FIFO order, invoked on
      the subscribers. */
  function Deliveries(q: seq<InputLogEntry>, count: nat, throws: (InputLogEntry, nat) -> bool)
    : seq<Delivery>
  {
    if |q| == 0 then [] else InvokeFrom(q[0], count, throws, 0) + Deliveries(q[1..], count, throws)
  }

  /** The entries subscriber `i` received, in order. */
  function ReceivedBy(ds: seq<Delivery>, i: nat): seq<InputLogEntry> {
    if |ds| == 0 then []
    else (if ds[0].index == i then [ds[0].entry] else []) + ReceivedBy(ds[1..], i)
  }

  lemma {:induction false} ReceivedByAppend(a: seq<Delivery>, b: seq<Delivery>, i: nat)
    ensures ReceivedBy(a + b, i) == ReceivedBy(a, i) + ReceivedBy(b, i)
  {
    if |a| > 0 {
      assert (a + b)[1..] == a[1..] + b;
      ReceivedByAppend(a[1..], b, i);
      assert (a + b)[0] == a[0];
    } else {
      assert a + b == b;
    }
  }

  lemma {:induction false} InvokeFromFirstOnly(e: InputLogEntry, count: nat, throws: (InputLogEntry, nat) -> bool, k: nat)
    requires k >= 1
    ensures ReceivedBy(InvokeFrom(e, count, throws, k), 0) == []
    decreases count - k
  {
    if k < count && !throws(e, k) {
      InvokeFromFirstOnly(e, count, throws, k + 1);
      ReceivedByAppend([Delivery(k, e)], InvokeFrom(e, count, throws, k + 1), 0);
    }
  }

  /** Subscriber failures never cost the first subscriber an entry: it gets
      every queued entry, once each, in FIFO order. */
  lemma {:induction false} FirstSubscriberGetsQueueInOrder(q: seq<InputLogEntry>, count: nat,
                                                          throws: (InputLogEntry, nat) -> bool)
    requires count > 0
    ensures ReceivedBy(Deliveries(q, count, throws), 0) == q
  {
    if |q| > 0 {
      var head := InvokeFrom(q[0], count, throws, 0);
      FirstSubscriberGetsQueueInOrder(q[1..], count, throws);
      ReceivedByAppend(head, Deliveries(q[1..], count, throws), 0);
      if !throws(q[0], 0) {
        InvokeFromFirstOnly(q[0], count, throws, 1);
      }
      ReceivedByAppend([Delivery(0, q[0])], if throws(q[0], 0) then [] else InvokeFrom(q[0], count, throws, 1), 0);
      assert q == [q[0]] + q[1..];
    }
  }

  /** Subscriber `j` is called with an entry exactly when it exists and no
      subscriber before it threw on that entry. */
  lemma {:induction false} InvokeFromReaches(e: InputLogEntry, count: nat, throws: (InputLogEntry, nat) -> bool,
                                             k: nat, j: nat)
    requires k <= j
    ensures Delivery(j, e) in InvokeFrom(e, count, throws, k) <==>
      j < count && forall i {:trigger throws(e, i)} :: k <= i < j ==> !throws(e, i)
    decreases count - k
  {
    var ds := InvokeFrom(e, count, throws, k);
    if k >= count {
      assert ds == [];
    } else if j == k {
      assert ds[0] == Delivery(j, e);
    } else if throws(e, k) {
      assert ds == [Delivery(k, e)];
    } else {
      InvokeFromReaches(e, count, throws, k + 1, j);
      assert ds == [Delivery(k, e)] + InvokeFrom(e, count, throws, k + 1);
    }
  }

  /** `OnLog?.Invoke(e)` inside the drain loop's `try`: subscribers in order
      until one throws. */
  method InvokeSubscribers(e: InputLogEntry, count: nat, throws: (InputLogEntry, nat) -> bool)
    returns (ds: seq<Delivery>)
    ensures ds == InvokeFrom(e, count, throws, 0)
  {
    ds := [];
    var k := 0;
    while k < count
      invariant k <= count
      invariant InvokeFrom(e, count, throws, 0) == ds + InvokeFrom(e, count, throws, k)
    {
      var d := [Delivery(k, e)];
      if throws(e, k) {
        assert InvokeFrom(e, count, throws, k) == d;
        ds := ds + d;
        return;
      }
      assert InvokeFrom(e, count, throws, k) == d + InvokeFrom(e, count, throws, k + 1);
      assert ds + (d + InvokeFrom(e, count, throws, k + 1)) == (ds + d) + InvokeFrom(e, count, throws, k + 1);
      ds := ds + d;
      k := k + 1;
    }
  }

  /** One pass of the inner `while (_queue.TryDequeue(...))` loop of DrainLoop
      over the entries queued when the pass starts: with `count` subscribers,
      each is delivered in FIFO order, a throwing subscriber is swallowed, and
      the queue is left empty. */
  method DrainTick(s: HookState, count: nat, throws: (InputLogEntry, nat) -> bool)
    returns (s': HookState, calls: seq<Delivery>)
    ensures s' == s.(queue := [])
    ensures calls == Deliveries(s.queue, count, throws)
  {
    var q := s.queue;
    calls := [];
    while |q| > 0
      invariant calls + Deliveries(q, count, throws) == Deliveries(s.queue, count, throws)
    {
      var ds := InvokeSubscribers(q[0], count, throws);
      assert Deliveries(q, count, throws) == ds + Deliveries(q[1..], count, throws);
      calls := calls + ds;
      q := q[1..];
    }
    s' := s.(queue := []);
  }
}
