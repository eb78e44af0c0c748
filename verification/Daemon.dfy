/** The daemon of src/daemon/daemon.cpp with everything that runs beside it: the hotkey thread,
    clicks on the companion, the tray's quit, signals, the delayed-mute timer and other
    applications, in every interleaving. */
module Daemon {
  import opened SeqFacts
  import opened Hotkey
  import M = MuteEpisode

  datatype DaemonState = IDLE | RECORDING | PROCESSING | SHUTDOWN

  /** Where the daemon thread stands. The event being handled is the last one taken. */
  datatype Pc =
    | Check | Reload | Wait                                            // the loop of `run` and `process_events`
    | Start0 | Start1 | StartMute                                      // handle_start
    | Stop0 | Stop1 | StopUnmute | StopMic | Transcribing              // handle_stop
    | Cancel0 | CancelMic | CancelUnmute | CancelEnd                   // handle_cancel
    | Clean0 | CleanMic | CleanUnmute | Done                           // cleanup

  const QUEUE_LIMIT: nat := 100

  /** `accepted`, `taken` and `takenLate` are the history of the queue: events let in, events taken
      out, and how many of these were taken out after shutdown had been requested. `disturbed` is
      set by a dropped event, a click or the tray's quit; `reconfigured` by a change of
      configuration or an input reset. */
  datatype Sys = Sys(
    keys: Hotkey.State, log: seq<Event>,
    queue: seq<Event>, accepted: seq<Event>, taken: seq<Event>, takenLate: nat,
    shutdown: bool, state: DaemonState, pc: Pc, mic: bool, pulse: M.Pulse,
    disturbed: bool, reconfigured: bool)

  // ---------------------------------------------------------------- the other threads

  /** on_hotkey_event */
  function Enqueue(s: Sys, e: Event): Sys {
    if |s.queue| < QUEUE_LIMIT then s.(queue := s.queue + [e], accepted := s.accepted + [e])
    else s.(disturbed := true)
  }

  /** A hotkey handler runs under its lock and emits at most one event. */
  function KeyInput(s: Sys, input: Input): Sys {
    var (keys, out) := Handle(s.keys, input);
    var s1 := s.(keys := keys, log := s.log + out,
                 reconfigured := s.reconfigured || input.SetConfig? || input.ResetInput?);
    if out == [] then s1 else Enqueue(s1, out[0])
  }

  ghost predicate KeyStep(s: Sys, t: Sys) {
    exists input: Input :: !input.SetConfig? && t == KeyInput(s, input)
  }

  /** A click on the companion, from whatever it has read of the state. */
  ghost predicate ClickStep(s: Sys, t: Sys) {
    exists e: Event :: e != CANCEL && t == Enqueue(s, e).(disturbed := true)
  }

  /** The tray's quit stores SHUTDOWN and then the flag; a signal handler stores the flag only. */
  ghost predicate ShutdownStep(s: Sys, t: Sys) {
    || t == s.(state := SHUTDOWN, disturbed := true)
    || t == s.(shutdown := true)
  }

  function Take(s: Sys): Sys
    requires s.queue != []
  {
    var e := s.queue[0];
    s.(queue := s.queue[1..], taken := s.taken + [e], takenLate := s.takenLate + (if s.shutdown then 1 else 0),
       pc := match e case START => Start0 case STOP => Stop0 case CANCEL => Cancel0)
  }

  ghost predicate LoopStep(s: Sys, t: Sys) {
    match s.pc
    case Check => t == s.(pc := if s.shutdown then Clean0 else Reload)
    case Reload => t == s.(pc := Wait) || exists c: HotkeyConfig :: t == KeyInput(s, SetConfig(c)).(pc := Wait)
    case Wait => if s.queue == [] then t == s.(pc := Check) else t == Take(s)
    case _ => false
  }

  function Begin(s: Sys, call: M.Call, pc: Pc): Sys { s.(pulse := s.pulse.(call := call), pc := pc) }

  ghost predicate StartStep(s: Sys, t: Sys) {
    match s.pc
    case Start0 => t == s.(pc := if s.state != IDLE then Check else Start1)
    case Start1 => t == Begin(s.(state := RECORDING), M.MuteCheck(true), StartMute)
    case StartMute => s.pulse.call == M.Idle && t == s.(mic := true, pc := Check)
    case _ => false
  }

  ghost predicate StopStep(s: Sys, t: Sys) {
    match s.pc
    case Stop0 => t == s.(pc := if s.state != RECORDING then Check else Stop1)
    case Stop1 => t == Begin(s.(state := PROCESSING), M.UnmuteCheck, StopUnmute)
    case StopUnmute => s.pulse.call == M.Idle && t == s.(pc := StopMic)
    case StopMic => t == s.(mic := false, pc := Transcribing)
    case Transcribing => t == s.(state := IDLE, pc := Check)
    case _ => false
  }

  ghost predicate CancelStep(s: Sys, t: Sys) {
    match s.pc
    case Cancel0 =>
      t == s.(pc := match s.state case RECORDING => CancelMic case PROCESSING => Check case _ => CancelEnd)
    case CancelMic => t == Begin(s.(mic := false), M.UnmuteCheck, CancelUnmute)
    case CancelUnmute => s.pulse.call == M.Idle && t == s.(pc := CancelEnd)
    case CancelEnd => t == s.(state := IDLE, pc := Check)
    case _ => false
  }

  ghost predicate CleanStep(s: Sys, t: Sys) {
    match s.pc
    case Clean0 => t == s.(pc := CleanMic)
    case CleanMic => t == Begin(s.(mic := false), M.UnmuteCheck, CleanUnmute)
    case CleanUnmute => s.pulse.call == M.Idle && t == s.(pc := Done)
    case _ => false
  }

  ghost predicate DaemonStep(s: Sys, t: Sys) {
    LoopStep(s, t) || StartStep(s, t) || StopStep(s, t) || CancelStep(s, t) || CleanStep(s, t)
  }

  /** The timer thread and other applications; and the daemon thread inside a mute or unmute call. */
  ghost predicate PulseStep(s: Sys, t: Sys) {
    exists q :: M.Step(s.pulse, q) && t == s.(pulse := q)
  }

  ghost predicate Step(s: Sys, t: Sys) {
    KeyStep(s, t) || ClickStep(s, t) || ShutdownStep(s, t) || PulseStep(s, t) || DaemonStep(s, t)
  }

  // ---------------------------------------------------------------- the daemon thread

  predicate Initial(s: Sys) {
    && s.keys == Hotkey.Initial(s.keys.config) && s.log == [] && s.queue == [] && s.accepted == [] && s.taken == []
    && s.takenLate == 0 && !s.shutdown && s.state == IDLE && s.pc == Check && !s.mic
    && M.Quiet(s.pulse) && (forall x :: x in s.pulse.sinks ==> x < s.pulse.next)
    && !s.disturbed && !s.reconfigured
  }

  // ---------------------------------------------------------------- safety

  predicate Unmuting(pc: Pc) { pc == StopUnmute || pc == CancelUnmute || pc == CleanUnmute }

  predicate UnmuteCall(c: M.Call) {
    c.UnmuteCheck? || c.UnmuteCancel? || c.UnmuteJoin? || c.UnmuteLock? || c.Restoring?
  }

  /** The daemon thread is inside a call of the mute manager only where it says so; an unmute that
      has returned has left everything as it was. */
  predicate CallInv(s: Sys) {
    && (s.pc != StartMute && !Unmuting(s.pc) ==> s.pulse.call == M.Idle)
    && (s.pc == StartMute ==> !UnmuteCall(s.pulse.call))
    && (Unmuting(s.pc) ==> UnmuteCall(s.pulse.call) || M.Quiet(s.pulse))
    && (s.pc == Done ==> M.Quiet(s.pulse))
    && (s.pc == CleanUnmute || s.pc == Done ==> !s.mic)
  }

  predicate QueueInv(s: Sys) {
    && |s.queue| <= QUEUE_LIMIT
    && s.accepted == s.taken + s.queue
    && s.takenLate <= 1
    && (!s.shutdown ==> s.takenLate == 0)
    && (s.takenLate == 1 ==> s.pc != Reload && s.pc != Wait)
  }

  predicate Safe(s: Sys) {
    Hotkey.Inv(s.keys, s.log) && M.Inv(s.pulse) && CallInv(s) && QueueInv(s)
  }

  lemma InitialSafe(s: Sys)
    requires Initial(s)
    ensures Safe(s)
  {
    InvStart(s.keys.config);
    M.QuietInv(s.pulse);
    assert CallInv(s);
    hide M.Inv, Hotkey.Inv, CallInv, M.Quiet;
  }

  predicate SameQueue(s: Sys, t: Sys) {
    && t.queue == s.queue && t.accepted == s.accepted && t.taken == s.taken && t.takenLate == s.takenLate
    && t.shutdown == s.shutdown && t.pc == s.pc
  }

  lemma EnqueueKeeps(s: Sys, s1: Sys, e: Event)
    requires QueueInv(s) && SameQueue(s, s1)
    ensures QueueInv(Enqueue(s1, e))
  {
    Assoc(s.taken, s.queue, [e]);
  }

  lemma TakeKeeps(s: Sys)
    requires QueueInv(s) && s.pc == Wait && s.queue != []
    ensures QueueInv(Take(s))
  {
    Cut(s.queue, 1);
    assert s.queue[..1] == [s.queue[0]];
    Assoc(s.taken, [s.queue[0]], s.queue[1..]);
  }

  lemma ShutdownKept(s: Sys, e: Event)
    ensures Enqueue(s, e).shutdown == s.shutdown
  {
  }

  lemma QueueOnly(s: Sys, t: Sys)
    requires QueueInv(s) && SameQueue(s, t)
    ensures QueueInv(t)
  {
  }

  lemma KeyInputQueue(s: Sys, input: Input)
    requires QueueInv(s)
    ensures QueueInv(KeyInput(s, input)) && KeyInput(s, input).shutdown == s.shutdown
    ensures input.SetConfig? ==> SameQueue(s, KeyInput(s, input))
  {
    hide QueueInv, Enqueue;
    var (keys, out) := Handle(s.keys, input);
    var s1 := s.(keys := keys, log := s.log + out,
                 reconfigured := s.reconfigured || input.SetConfig? || input.ResetInput?);
    if out == [] { QueueOnly(s, s1); } else { EnqueueKeeps(s, s1, out[0]); ShutdownKept(s1, out[0]); }
  }

  lemma QueueLoop(s: Sys, t: Sys)
    requires QueueInv(s) && LoopStep(s, t)
    ensures QueueInv(t) && (s.shutdown ==> t.shutdown)
  {
    hide Handle, KeyInput, Enqueue;
    if s.pc == Wait && s.queue != [] {
      TakeKeeps(s);
    } else if s.pc == Reload && t != s.(pc := Wait) {
      var c: HotkeyConfig :| t == KeyInput(s, SetConfig(c)).(pc := Wait);
      KeyInputQueue(s, SetConfig(c));
    }
  }

  /** Only what belongs to the daemon thread has changed. */
  predicate Frame(s: Sys, t: Sys) {
    t == s.(state := t.state, pc := t.pc, mic := t.mic, pulse := t.pulse)
  }

  predicate InHandler(pc: Pc) { pc != Reload && pc != Wait }

  lemma StartFrame(s: Sys, t: Sys)
    requires StartStep(s, t)
    ensures Frame(s, t) && InHandler(t.pc)
  {
  }

  lemma StopFrame(s: Sys, t: Sys)
    requires StopStep(s, t)
    ensures Frame(s, t) && InHandler(t.pc)
  {
  }

  lemma CancelFrame(s: Sys, t: Sys)
    requires CancelStep(s, t)
    ensures Frame(s, t) && InHandler(t.pc)
  {
  }

  lemma CleanFrame(s: Sys, t: Sys)
    requires CleanStep(s, t)
    ensures Frame(s, t) && InHandler(t.pc)
  {
  }

  lemma HandlerFrame(s: Sys, t: Sys)
    requires StartStep(s, t) || StopStep(s, t) || CancelStep(s, t) || CleanStep(s, t)
    ensures Frame(s, t) && InHandler(t.pc)
  {
    hide *;
    if StartStep(s, t) {
      StartFrame(s, t);
    } else if StopStep(s, t) {
      StopFrame(s, t);
    } else if CancelStep(s, t) {
      CancelFrame(s, t);
    } else {
      CleanFrame(s, t);
    }
  }

  lemma QueueFrame(s: Sys, t: Sys)
    requires QueueInv(s) && Frame(s, t) && InHandler(t.pc)
    ensures QueueInv(t)
  {
  }

  /** The handlers leave the queue alone. */
  lemma QueueHandlers(s: Sys, t: Sys)
    requires QueueInv(s) && (StartStep(s, t) || StopStep(s, t) || CancelStep(s, t) || CleanStep(s, t))
    ensures QueueInv(t) && (s.shutdown ==> t.shutdown)
  {
    hide QueueInv;
    HandlerFrame(s, t);
    QueueFrame(s, t);
  }

  /** The bound, the order, the flag that is never cleared, and the one event that may still be
      taken after shutdown has been requested. */
  lemma QueueStep(s: Sys, t: Sys)
    requires QueueInv(s) && Step(s, t)
    ensures QueueInv(t) && (s.shutdown ==> t.shutdown)
  {
    hide Handle, M.Step, KeyInput, Enqueue, Take, StartStep, StopStep, CancelStep, CleanStep;
    if KeyStep(s, t) {
      var input: Input :| !input.SetConfig? && t == KeyInput(s, input);
      KeyInputQueue(s, input);
    } else if ClickStep(s, t) {
      var e: Event :| e != CANCEL && t == Enqueue(s, e).(disturbed := true);
      EnqueueKeeps(s, s, e);
      ShutdownKept(s, e);
    } else if LoopStep(s, t) {
      QueueLoop(s, t);
    } else if DaemonStep(s, t) {
      QueueHandlers(s, t);
    }
  }

  // ---------------------------------------------------------------- the mute manager, seen from the daemon

  lemma PulseCall(p: M.Pulse, q: M.Pulse)
    requires M.Inv(p) && M.Step(p, q)
    ensures p.call == M.Idle ==> q.call == M.Idle
    ensures UnmuteCall(p.call) ==> UnmuteCall(q.call) || M.Quiet(q)
    ensures !UnmuteCall(p.call) ==> !UnmuteCall(q.call)
  {
    hide M.Inv, M.Quiet, M.Lists;
    if UnmuteCall(p.call) && !UnmuteCall(q.call) {
      M.OnlyDaemonMovesCall(p, q);
      M.UnmuteEndsQuiet(p, q);
    }
  }

  predicate SamePulse(s: Sys, t: Sys) { t.pulse == s.pulse && t.pc == s.pc && t.mic == s.mic }

  lemma OtherThreads(s: Sys, t: Sys)
    requires KeyStep(s, t) || ClickStep(s, t) || ShutdownStep(s, t)
    ensures SamePulse(s, t)
  {
    hide Handle;
  }

  lemma CallPulse(s: Sys, q: M.Pulse)
    requires CallInv(s) && M.Inv(s.pulse) && M.Step(s.pulse, q)
    ensures CallInv(s.(pulse := q)) && M.Inv(q) && (M.Quiet(s.pulse) ==> M.Quiet(q))
  {
    hide M.Inv, M.Step;
    PulseCall(s.pulse, q);
    M.StepKeepsInv(s.pulse, q);
    if M.Quiet(s.pulse) { M.QuietStays(s.pulse, q); }
    hide M.Quiet;
  }

  lemma DaemonCases(s: Sys, t: Sys)
    requires DaemonStep(s, t)
    ensures LoopStep(s, t) || StartStep(s, t) || StopStep(s, t) || CancelStep(s, t) || CleanStep(s, t)
  {
  }

  lemma KeyInputPulse(s: Sys, input: Input)
    ensures KeyInput(s, input).pulse == s.pulse
  {
    hide Handle;
  }

  lemma LoopFrame(s: Sys, t: Sys)
    requires LoopStep(s, t)
    ensures t.pulse == s.pulse && (s.pc == Check || s.pc == Reload || s.pc == Wait)
    ensures t.pc != StartMute && !Unmuting(t.pc) && t.pc != Done
  {
    hide KeyInput;
    if s.pc == Reload && t != s.(pc := Wait) {
      var c: HotkeyConfig :| t == KeyInput(s, SetConfig(c)).(pc := Wait);
      KeyInputPulse(s, SetConfig(c));
    }
  }

  /** In the loop the daemon thread is in no call of the mute manager. */
  lemma CallInvLoop(s: Sys, t: Sys)
    requires CallInv(s) && t.pulse == s.pulse && (s.pc == Check || s.pc == Reload || s.pc == Wait)
    requires t.pc != StartMute && !Unmuting(t.pc) && t.pc != Done
    ensures CallInv(t)
  {
    hide M.Quiet;
  }

  lemma CallLoop(s: Sys, t: Sys)
    requires CallInv(s) && LoopStep(s, t)
    ensures CallInv(t) && t.pulse == s.pulse
  {
    hide *;
    LoopFrame(s, t);
    CallInvLoop(s, t);
  }

  lemma CallStart(s: Sys, t: Sys)
    requires CallInv(s) && M.Inv(s.pulse) && StartStep(s, t)
    ensures CallInv(t) && M.Inv(t.pulse)
  {
    hide M.Inv, M.Quiet;
    if s.pc == Start1 { M.BeginKeepsInv(s.pulse, t.pulse); }
  }

  lemma CallStop(s: Sys, t: Sys)
    requires CallInv(s) && M.Inv(s.pulse) && StopStep(s, t)
    ensures CallInv(t) && M.Inv(t.pulse)
  {
    hide M.Inv, M.Quiet;
    if s.pc == Stop1 { M.BeginKeepsInv(s.pulse, t.pulse); }
  }

  lemma CallCancel(s: Sys, t: Sys)
    requires CallInv(s) && M.Inv(s.pulse) && CancelStep(s, t)
    ensures CallInv(t) && M.Inv(t.pulse)
  {
    hide M.Inv, M.Quiet;
    if s.pc == CancelMic { M.BeginKeepsInv(s.pulse, t.pulse); }
  }

  lemma CallClean(s: Sys, t: Sys)
    requires CallInv(s) && M.Inv(s.pulse) && CleanStep(s, t)
    ensures CallInv(t) && M.Inv(t.pulse)
  {
    hide M.Inv, M.Quiet;
    if s.pc == CleanMic { M.BeginKeepsInv(s.pulse, t.pulse); }
  }

  lemma CallDaemon(s: Sys, t: Sys)
    requires CallInv(s) && M.Inv(s.pulse) && DaemonStep(s, t)
    ensures CallInv(t) && M.Inv(t.pulse)
  {
    hide *;
    DaemonCases(s, t);
    if LoopStep(s, t) {
      CallLoop(s, t);
    } else if StartStep(s, t) {
      CallStart(s, t);
    } else if StopStep(s, t) {
      CallStop(s, t);
    } else if CancelStep(s, t) {
      CallCancel(s, t);
    } else {
      CallClean(s, t);
    }
  }

  lemma StepCases(s: Sys, t: Sys)
    requires Step(s, t)
    ensures KeyStep(s, t) || ClickStep(s, t) || ShutdownStep(s, t) || PulseStep(s, t) || DaemonStep(s, t)
  {
  }

  lemma PulseOf(s: Sys, t: Sys) returns (q: M.Pulse)
    requires PulseStep(s, t)
    ensures M.Step(s.pulse, q) && t == s.(pulse := q)
  {
    q :| M.Step(s.pulse, q) && t == s.(pulse := q);
  }

  lemma CallSame(s: Sys, t: Sys)
    requires CallInv(s) && SamePulse(s, t)
    ensures CallInv(t) && t.pulse == s.pulse
  {
  }

  lemma CallStep(s: Sys, t: Sys)
    requires CallInv(s) && M.Inv(s.pulse) && Step(s, t)
    ensures CallInv(t) && M.Inv(t.pulse)
  {
    hide *;
    StepCases(s, t);
    if PulseStep(s, t) {
      var q := PulseOf(s, t);
      CallPulse(s, q);
    } else if DaemonStep(s, t) {
      CallDaemon(s, t);
    } else {
      OtherThreads(s, t);
      CallSame(s, t);
    }
  }

  // ---------------------------------------------------------------- the hotkeys, seen from the daemon

  lemma KeysOfInput(s: Sys, input: Input)
    requires Hotkey.Inv(s.keys, s.log)
    ensures var t := KeyInput(s, input); Hotkey.Inv(t.keys, t.log)
    ensures var t := KeyInput(s, input); t.reconfigured == (s.reconfigured || input.SetConfig? || input.ResetInput?)
  {
    hide Hotkey.Inv, Handle;
    InvStep(s.keys, s.log, input);
  }

  lemma LoopKeys(s: Sys, t: Sys)
    requires Hotkey.Inv(s.keys, s.log) && LoopStep(s, t)
    ensures Hotkey.Inv(t.keys, t.log)
  {
    hide Hotkey.Inv, KeyInput;
    if s.pc == Reload && t != s.(pc := Wait) {
      var c: HotkeyConfig :| t == KeyInput(s, SetConfig(c)).(pc := Wait);
      KeysOfInput(s, SetConfig(c));
    }
  }

  lemma OtherKeys(s: Sys, t: Sys)
    requires ClickStep(s, t) || ShutdownStep(s, t) || PulseStep(s, t)
    ensures t.keys == s.keys && t.log == s.log
  {
    hide M.Step;
  }

  /** Only the hotkey machine itself, and a reload, change its state and its log. */
  lemma KeysStep(s: Sys, t: Sys)
    requires Hotkey.Inv(s.keys, s.log) && Step(s, t)
    ensures Hotkey.Inv(t.keys, t.log)
  {
    hide Hotkey.Inv, KeyInput, LoopStep, StartStep, StopStep, CancelStep, CleanStep, ClickStep, ShutdownStep, PulseStep;
    if KeyStep(s, t) {
      var input: Input :| !input.SetConfig? && t == KeyInput(s, input);
      KeysOfInput(s, input);
    } else if LoopStep(s, t) {
      LoopKeys(s, t);
    } else if DaemonStep(s, t) {
      HandlerFrame(s, t);
    } else {
      OtherKeys(s, t);
    }
  }

  lemma SafeStep(s: Sys, t: Sys)
    requires Safe(s) && Step(s, t)
    ensures Safe(t) && (s.shutdown ==> t.shutdown)
  {
    hide Hotkey.Inv, M.Inv, CallInv, QueueInv, Step;
    KeysStep(s, t);
    CallStep(s, t);
    QueueStep(s, t);
  }

  // ---------------------------------------------------------------- every run

  ghost predicate IsRun(run: seq<Sys>) {
    run != [] && Initial(run[0]) && forall i :: 0 <= i < |run| - 1 ==> Step(run[i], run[i + 1])
  }

  lemma RunInit(run: seq<Sys>)
    requires IsRun(run) && |run| > 1
    ensures IsRun(run[..|run| - 1]) && Step(run[|run| - 2], run[|run| - 1])
  {
    hide Step;
    var init := run[..|run| - 1];
    forall i | 0 <= i < |init| - 1 ensures Step(init[i], init[i + 1]) {
      assert init[i] == run[i] && init[i + 1] == run[i + 1];
    }
    assert Step(run[|run| - 2], run[|run| - 2 + 1]);
  }

  lemma RunNotEmpty(run: seq<Sys>)
    requires IsRun(run)
    ensures run != []
  {
  }

  lemma FirstSafe(run: seq<Sys>)
    requires IsRun(run)
    ensures Safe(run[0])
  {
    InitialSafe(run[0]);
  }

  lemma {:induction false} RunSafe(run: seq<Sys>)
    requires IsRun(run)
    ensures Safe(run[|run| - 1])
    decreases |run|
  {
    hide IsRun, Safe, Step;
    RunNotEmpty(run);
    if |run| == 1 {
      FirstSafe(run);
    } else {
      RunInit(run);
      RunSafe(run[..|run| - 1]);
      SafeStep(run[|run| - 2], run[|run| - 1]);
    }
  }

  /** In every run, under every interleaving of the hotkey, click, quit, signal and timer threads:
      the queue is bounded and first in first out, at most one event is taken after shutdown has
      been requested, and once `run` has returned the microphone is off, no timer can mute any more
      and every stream has its own mute flag again. */
  lemma EveryRunSafe(run: seq<Sys>)
    requires IsRun(run)
    ensures var s := run[|run| - 1];
            && |s.queue| <= QUEUE_LIMIT && s.accepted == s.taken + s.queue && s.takenLate <= 1
            && StopsFollowStarts(s.log)
            && (s.pc == Done ==> !s.mic && M.Quiet(s.pulse))
  {
    hide M.Quiet, M.Inv, Step, Initial;
    RunSafe(run);
  }

  /** Shutdown, once requested, stays requested. */
  lemma {:induction false} ShutdownStays(run: seq<Sys>, i: nat, j: nat)
    requires IsRun(run) && i <= j < |run| && run[i].shutdown
    ensures run[j].shutdown
    decreases j
  {
    hide Step, Initial, Safe;
    if i < j {
      ShutdownStays(run, i, j - 1);
      var init := run[..j];
      assert IsRun(init) by {
        forall k | 0 <= k < |init| - 1 ensures Step(init[k], init[k + 1]) {
          assert init[k] == run[k] && init[k + 1] == run[k + 1];
        }
      }
      RunSafe(init);
      assert Step(run[j - 1], run[j - 1 + 1]);
      SafeStep(run[j - 1], run[j]);
    }
  }

  // ---------------------------------------------------------------- agreement

  /** Between two events: recording with the microphone on, or idle with everything restored. */
  predicate Settled(s: Sys) {
    if s.state == RECORDING then s.mic else s.state == IDLE && !s.mic && M.Quiet(s.pulse)
  }

  predicate InHand(s: Sys, e: Event) { s.taken != [] && s.taken[|s.taken| - 1] == e }

  /** What the state, the microphone and the mute manager are while an event is being handled and
      after it. The state between events is a function of the last event taken. */
  predicate Progress(s: Sys) {
    match s.pc
    case Start0 => InHand(s, START) && Settled(s)
    case Start1 => InHand(s, START) && s.state == IDLE && !s.mic && M.Quiet(s.pulse)
    case StartMute => InHand(s, START) && s.state == RECORDING && !s.mic
    case Stop0 => InHand(s, STOP) && Settled(s)
    case Stop1 => InHand(s, STOP) && s.state == RECORDING && s.mic
    case StopUnmute => InHand(s, STOP) && s.state == PROCESSING && s.mic
    case StopMic => InHand(s, STOP) && s.state == PROCESSING && s.mic && M.Quiet(s.pulse)
    case Transcribing => InHand(s, STOP) && s.state == PROCESSING && !s.mic && M.Quiet(s.pulse)
    case Cancel0 => InHand(s, CANCEL) && Settled(s)
    case CancelMic => InHand(s, CANCEL) && s.state == RECORDING && s.mic
    case CancelUnmute => InHand(s, CANCEL) && s.state == RECORDING && !s.mic
    case CancelEnd => InHand(s, CANCEL) && !s.mic && M.Quiet(s.pulse)
    case CleanUnmute => s.state == (if LastIsStart(s.taken) then RECORDING else IDLE)
    case Done => s.state == (if LastIsStart(s.taken) then RECORDING else IDLE)
    case _ => Settled(s) && s.state == (if LastIsStart(s.taken) then RECORDING else IDLE)
  }

  predicate Agree(s: Sys) {
    && (!s.disturbed ==> s.accepted == s.log && Progress(s))
    && (!s.reconfigured ==> (s.keys.triggerPressed <==> LastIsStart(s.log)))
  }

  lemma InitialAgree(s: Sys)
    requires Initial(s)
    ensures Agree(s)
  {
    hide M.Quiet;
  }

  lemma AtMostOne(k: Hotkey.State, input: Input)
    ensures var out := Handle(k, input).1; out == [] || out == [out[0]]
  {
    hide CheckCombo, AnyTrigger, AnyCancel;
  }

  /** A hotkey event that is let into the queue is the next one of the log. */
  lemma KeyInputAgree(s: Sys, input: Input)
    requires Agree(s)
    ensures var t := KeyInput(s, input);
            && (!t.disturbed ==> t.accepted == t.log && !s.disturbed)
            && (!t.reconfigured ==> (t.keys.triggerPressed <==> LastIsStart(t.log)))
            && t == s.(keys := t.keys, log := t.log, queue := t.queue, accepted := t.accepted,
                       disturbed := t.disturbed, reconfigured := t.reconfigured)
  {
    hide Progress, Handle, LastIsStart, StopsFollowStarts;
    var (keys, out) := Handle(s.keys, input);
    AtMostOne(s.keys, input);
    if !s.reconfigured && !input.SetConfig? && !input.ResetInput? { PressedStep(s.keys, s.log, input); }
  }

  /** Progress looks at the daemon thread and the events taken only. */
  lemma ProgressFrame(s: Sys, t: Sys)
    requires Progress(s) && t.pc == s.pc && t.state == s.state && t.mic == s.mic && t.taken == s.taken
    requires M.Quiet(s.pulse) ==> M.Quiet(t.pulse)
    ensures Progress(t)
  {
    hide M.Quiet, LastIsStart;
  }

  lemma TakeProgress(s: Sys)
    requires Progress(s) && s.pc == Wait && s.queue != []
    ensures Progress(Take(s))
  {
    hide M.Quiet;
  }

  lemma LoopProgress(s: Sys, t: Sys)
    requires Progress(s) && LoopStep(s, t) && s.pc != Reload && (s.pc == Wait ==> s.queue == [])
    ensures Progress(t)
  {
    hide M.Quiet, LastIsStart;
  }

  lemma StartProgress(s: Sys, t: Sys)
    requires Progress(s) && StartStep(s, t)
    ensures Progress(t)
  {
    hide M.Quiet;
  }

  lemma StopProgress(s: Sys, t: Sys)
    requires Progress(s) && CallInv(s) && StopStep(s, t)
    ensures Progress(t)
  {
    if s.pc == StopUnmute { assert M.Quiet(s.pulse); }
    hide M.Quiet;
  }

  lemma CancelProgress(s: Sys, t: Sys)
    requires Progress(s) && CallInv(s) && CancelStep(s, t)
    ensures Progress(t)
  {
    if s.pc == CancelUnmute { assert M.Quiet(s.pulse); }
    hide M.Quiet;
  }

  lemma CleanProgress(s: Sys, t: Sys)
    requires Progress(s) && CleanStep(s, t)
    ensures Progress(t)
  {
    hide M.Quiet, LastIsStart;
  }

  lemma AgreeKey(s: Sys, t: Sys)
    requires Agree(s) && KeyStep(s, t)
    ensures Agree(t)
  {
    hide Progress, KeyInput, LastIsStart;
    var input: Input :| !input.SetConfig? && t == KeyInput(s, input);
    KeyInputAgree(s, input);
    if !t.disturbed { ProgressFrame(s, t); }
  }

  lemma AgreeClick(s: Sys, t: Sys)
    requires Agree(s) && ClickStep(s, t)
    ensures Agree(t)
  {
    hide Progress, LastIsStart;
  }

  lemma AgreeShutdown(s: Sys, t: Sys)
    requires Agree(s) && ShutdownStep(s, t)
    ensures Agree(t)
  {
    hide Progress, LastIsStart, M.Quiet;
    if t == s.(shutdown := true) && !t.disturbed { ProgressFrame(s, t); }
  }

  lemma AgreePulse(s: Sys, t: Sys)
    requires Agree(s) && CallInv(s) && M.Inv(s.pulse) && PulseStep(s, t)
    ensures Agree(t)
  {
    hide Progress, LastIsStart, M.Quiet, M.Step, M.Inv, CallInv;
    var q := PulseOf(s, t);
    CallPulse(s, q);
    if !t.disturbed { ProgressFrame(s, t); }
  }

  lemma ReloadProgress(s: Sys, s1: Sys, t: Sys)
    requires Progress(s) && s.pc == Reload && t == s1.(pc := Wait)
    requires s1.state == s.state && s1.mic == s.mic && s1.taken == s.taken && s1.pulse == s.pulse
    ensures Progress(t)
  {
    hide M.Quiet, LastIsStart;
  }

  lemma AgreeLoop(s: Sys, t: Sys)
    requires Agree(s) && LoopStep(s, t)
    ensures Agree(t)
  {
    hide Progress, KeyInput, LastIsStart;
    if s.pc == Reload {
      if t == s.(pc := Wait) {
        if !t.disturbed { ReloadProgress(s, s, t); }
      } else {
        var c: HotkeyConfig :| t == KeyInput(s, SetConfig(c)).(pc := Wait);
        KeyInputAgree(s, SetConfig(c));
        if !t.disturbed { ReloadProgress(s, KeyInput(s, SetConfig(c)), t); }
      }
    } else if !s.disturbed {
      if s.pc == Wait && s.queue != [] { TakeProgress(s); } else { LoopProgress(s, t); }
    }
  }

  lemma AgreeHandlers(s: Sys, t: Sys)
    requires Agree(s) && CallInv(s) && (StartStep(s, t) || StopStep(s, t) || CancelStep(s, t) || CleanStep(s, t))
    ensures Agree(t)
  {
    hide Progress, LastIsStart, StartStep, StopStep, CancelStep, CleanStep, CallInv;
    HandlerFrame(s, t);
    if !s.disturbed {
      if StartStep(s, t) {
        StartProgress(s, t);
      } else if StopStep(s, t) {
        StopProgress(s, t);
      } else if CancelStep(s, t) {
        CancelProgress(s, t);
      } else {
        CleanProgress(s, t);
      }
    }
  }

  lemma AgreeStep(s: Sys, t: Sys)
    requires Agree(s) && CallInv(s) && M.Inv(s.pulse) && Step(s, t)
    ensures Agree(t)
  {
    hide *;
    StepCases(s, t);
    if KeyStep(s, t) {
      AgreeKey(s, t);
    } else if ClickStep(s, t) {
      AgreeClick(s, t);
    } else if ShutdownStep(s, t) {
      AgreeShutdown(s, t);
    } else if PulseStep(s, t) {
      AgreePulse(s, t);
    } else {
      DaemonCases(s, t);
      if LoopStep(s, t) { AgreeLoop(s, t); } else { AgreeHandlers(s, t); }
    }
  }

  lemma SafeParts(s: Sys)
    requires Safe(s)
    ensures CallInv(s) && M.Inv(s.pulse)
  {
  }

  lemma FirstAgree(run: seq<Sys>)
    requires IsRun(run)
    ensures Agree(run[0])
  {
    InitialAgree(run[0]);
  }

  lemma {:induction false} RunAgree(run: seq<Sys>)
    requires IsRun(run)
    ensures Agree(run[|run| - 1])
    decreases |run|
  {
    hide IsRun, Safe, Step, Agree;
    RunNotEmpty(run);
    if |run| == 1 {
      FirstAgree(run);
    } else {
      RunInit(run);
      var init := run[..|run| - 1];
      RunAgree(init);
      RunSafe(init);
      SafeParts(run[|run| - 2]);
      AgreeStep(run[|run| - 2], run[|run| - 1]);
    }
  }

  /** The daemon thread is not in the middle of an event. */
  predicate BetweenEvents(pc: Pc) { pc == Check || pc == Reload || pc == Wait || pc == Clean0 || pc == CleanMic }

  /** In every run without a dropped event, a click or the tray's quit: whenever the queue is
      drained, the daemon is recording exactly when the last hotkey event was START. The microphone
      is on exactly then, and otherwise every other application has its own mute flag. If moreover
      the configuration has not changed and the input has not been reset, this is exactly when the
      trigger is pressed. */
  lemma DrainedAgrees(run: seq<Sys>)
    requires IsRun(run)
    requires var s := run[|run| - 1]; !s.disturbed && s.queue == [] && BetweenEvents(s.pc)
    ensures var s := run[|run| - 1];
            && (s.state == RECORDING <==> LastIsStart(s.log))
            && (s.mic <==> LastIsStart(s.log))
            && (!LastIsStart(s.log) ==> s.state == IDLE && M.Quiet(s.pulse))
            && (!s.reconfigured ==> (s.keys.triggerPressed <==> s.state == RECORDING))
  {
    hide M.Quiet, M.Inv, Step, Initial, LastIsStart, Hotkey.Inv;
    RunAgree(run);
    RunSafe(run);
    var s := run[|run| - 1];
    assert s.taken + s.queue == s.taken;
  }
}
