/** The daemon thread of src/daemon/daemon.cpp as the code it runs. Between any two of its
    statements the other threads may do what they like; everything that happens is a run of the
    step system of module Daemon. */
module DaemonLoop {
  import opened Hotkey
  import opened Daemon
  import M = MuteEpisode

  lemma StepOfKey(s: Sys, t: Sys, input: Input)
    requires !input.SetConfig? && t == KeyInput(s, input)
    ensures Step(s, t)
  {
    hide KeyInput;
    assert KeyStep(s, t);
  }

  lemma StepOfClick(s: Sys, t: Sys, e: Event)
    requires e != CANCEL && t == Enqueue(s, e).(disturbed := true)
    ensures Step(s, t)
  {
    hide Enqueue;
    assert ClickStep(s, t);
  }

  lemma StepOfShutdown(s: Sys, t: Sys)
    requires ShutdownStep(s, t)
    ensures Step(s, t)
  {
    hide ShutdownStep;
  }

  lemma StepOfPulse(s: Sys, t: Sys, q: M.Pulse)
    requires M.Step(s.pulse, q) && t == s.(pulse := q)
    ensures Step(s, t)
  {
    hide M.Step;
    assert PulseStep(s, t);
  }

  lemma StepOfDaemon(s: Sys, t: Sys)
    requires LoopStep(s, t) || StartStep(s, t) || StopStep(s, t) || CancelStep(s, t) || CleanStep(s, t)
    ensures Step(s, t)
  {
    hide LoopStep, StartStep, StopStep, CancelStep, CleanStep;
    assert DaemonStep(s, t);
  }

  lemma RunExtends(run: seq<Sys>, t: Sys)
    requires IsRun(run) && Step(run[|run| - 1], t)
    ensures IsRun(run + [t]) && (run + [t])[|run + [t]| - 1] == t
  {
    hide Step, Daemon.Initial;
    var more := run + [t];
    forall i | 0 <= i < |more| - 1 ensures Step(more[i], more[i + 1]) {
      if i < |run| - 1 { assert more[i] == run[i] && more[i + 1] == run[i + 1]; }
    }
  }

  /** The answer of the server to a listing. */
  method Listing(sinks: map<nat, M.Sink>) returns (listing: seq<M.Saved>)
    ensures M.Lists(sinks, listing)
  {
    listing := [];
    var rest := set x | x in sinks && !sinks[x].excluded;
    while rest != {}
      invariant forall x :: x in rest ==> x in sinks && !sinks[x].excluded
      invariant forall i, j :: 0 <= i < j < |listing| ==> listing[i].index != listing[j].index
      invariant forall i :: 0 <= i < |listing| ==>
                  listing[i].index !in rest && listing[i].index in sinks && !sinks[listing[i].index].excluded
                  && listing[i].wasMuted == sinks[listing[i].index].muted
      invariant forall x :: x in sinks && !sinks[x].excluded && x !in rest ==>
                  exists i :: 0 <= i < |listing| && listing[i].index == x
    {
      var x :| x in rest;
      ghost var before, todo := listing, rest;
      listing := listing + [M.Saved(x, sinks[x].muted)];
      rest := rest - {x};
      assert listing[|before|].index == x;
      forall y | y in sinks && !sinks[y].excluded && y !in rest
        ensures exists i :: 0 <= i < |listing| && listing[i].index == y
      {
        if y != x {
          var i :| 0 <= i < |before| && before[i].index == y;
          assert listing[i].index == y;
        }
      }
    }
  }

  /** The history variables of `Sys`. */
  datatype Past = Past(log: seq<Event>, accepted: seq<Event>, taken: seq<Event>, takenLate: nat,
                       disturbed: bool, reconfigured: bool)

  class AutoWhisperDaemon {
    // state_, event_queue_, shutdown_requested_
    var state: DaemonState
    var eventQueue: seq<Event>
    var shutdownRequested: bool
    // hotkey_, audio_ (recording or not) and pulseaudio_
    var keys: Hotkey.State
    var recording: bool
    var pulse: M.Pulse
    // where the daemon thread is, and what has happened
    ghost var pc: Pc
    ghost var past: Past
    ghost var run: seq<Sys>

    ghost function Now(): Sys
      reads this
    {
      Sys(keys, past.log, eventQueue, past.accepted, past.taken, past.takenLate, shutdownRequested, state, pc,
          recording, pulse, past.disturbed, past.reconfigured)
    }

    /** What has happened so far is a run that ends here. */
    ghost predicate Valid()
      reads this
    {
      IsRun(run) && run[|run| - 1] == Now()
    }

    constructor (config: HotkeyConfig, pulse: M.Pulse)
      requires M.Quiet(pulse) && forall x :: x in pulse.sinks ==> x < pulse.next
      ensures Valid() && pc == Check && |run| == 1
    {
      hide M.Quiet;
      state, eventQueue, shutdownRequested := IDLE, [], false;
      keys, recording, this.pulse := Hotkey.Initial(config), false, pulse;
      pc, past := Check, Past([], [], [], 0, false, false);
      new;
      run := [Now()];
    }

    /** A statement has been executed. */
    ghost method Advance()
      requires IsRun(run) && Step(run[|run| - 1], Now())
      modifies `run
      ensures Valid() && run == old(run) + [Now()]
    {
      hide Step, IsRun;
      RunExtends(run, Now());
      run := run + [Now()];
    }

    ghost method DaemonAdvance()
      requires IsRun(run)
      requires var s, t := run[|run| - 1], Now();
               LoopStep(s, t) || StartStep(s, t) || StopStep(s, t) || CancelStep(s, t) || CleanStep(s, t)
      modifies `run
      ensures Valid() && run == old(run) + [Now()]
    {
      hide Step, LoopStep, StartStep, StopStep, CancelStep, CleanStep;
      StepOfDaemon(run[|run| - 1], Now());
      hide *;
      Advance();
    }

    // -------------------------------------------------------------- the other threads

    method OnHotkeyEvent(e: Event)
      modifies `eventQueue, `past
      ensures Now() == Enqueue(old(Now()), e)
    {
      if |eventQueue| < QUEUE_LIMIT {
        eventQueue := eventQueue + [e];
        past := past.(accepted := past.accepted + [e]);
      } else {
        past := past.(disturbed := true);
      }
    }

    /** A handler of the hotkey machine, and the callback it makes. */
    method HandleInput(input: Input)
      modifies `keys, `eventQueue, `past
      ensures Now() == KeyInput(old(Now()), input)
    {
      hide Handle, Enqueue;
      var (next, out) := Handle(keys, input);
      keys := next;
      past := past.(log := past.log + out, reconfigured := past.reconfigured || input.SetConfig? || input.ResetInput?);
      if out != [] { OnHotkeyEvent(out[0]); }
    }

    method Key()
      requires Valid()
      modifies this
      ensures Valid() && old(run) <= run && pc == old(pc) && recording == old(recording) && pulse == old(pulse)
    {
      hide Handle, Enqueue, Step, IsRun;
      var input: Input := *;
      if !input.SetConfig? {
        HandleInput(input);
        StepOfKey(old(Now()), Now(), input);
        Advance();
      }
    }

    /** A click toggles by what the state is, or was. */
    method Click()
      requires Valid()
      modifies this
      ensures Valid() && old(run) <= run && pc == old(pc) && recording == old(recording) && pulse == old(pulse)
    {
      hide Step, IsRun;
      var stop: bool := *;
      var e := if stop then STOP else START;
      OnHotkeyEvent(e);
      past := past.(disturbed := true);
      StepOfClick(old(Now()), Now(), e);
      Advance();
    }

    /** The first half of the tray's quit, or the second, which is all that a signal does. */
    method RequestShutdown()
      requires Valid()
      modifies this
      ensures Valid() && old(run) <= run && pc == old(pc) && recording == old(recording) && pulse == old(pulse)
    {
      hide Step, IsRun;
      var first: bool := *;
      if first {
        state := SHUTDOWN;
        past := past.(disturbed := true);
      } else {
        shutdownRequested := true;
      }
      StepOfShutdown(old(Now()), Now());
      Advance();
    }

    /** Playback streams come and go. */
    method Applications()
      requires Valid()
      modifies this
      ensures Valid() && old(run) <= run
      ensures pc == old(pc) && recording == old(recording) && pulse.call == old(pulse.call)
      ensures pulse == old(pulse).(sinks := pulse.sinks, next := pulse.next)
    {
      hide Step, IsRun;
      var arrival: bool, excluded: bool, muted: bool, x: int := *, *, *, *;
      if arrival {
        pulse := pulse.(sinks := pulse.sinks[pulse.next := M.Sink(muted, excluded, muted)], next := pulse.next + 1);
      } else if 0 <= x && x in pulse.sinks {
        pulse := pulse.(sinks := pulse.sinks - {x});
      } else {
        return;
      }
      StepOfPulse(old(Now()), Now(), pulse);
      Advance();
    }

    /** One statement of the timer thread. */
    method Timer()
      requires Valid()
      modifies this
      ensures Valid() && old(run) <= run
      ensures pc == old(pc) && recording == old(recording) && pulse.call == old(pulse.call)
      ensures if M.TimerCan(old(pulse)) then M.Nearer(pulse, old(pulse)) else pulse == old(pulse)
    {
      hide Step, IsRun, M.Inv, M.Nearer, M.TimerNext, M.TimerCan;
      SafeNow();
      if M.TimerCan(pulse) {
        var listing := Listing(pulse.sinks);
        assert M.TimerThreadStep(pulse, M.TimerNext(pulse, listing));
        M.TimerMoves(pulse, M.TimerNext(pulse, listing));
        pulse := M.TimerNext(pulse, listing);
        StepOfPulse(old(Now()), Now(), pulse);
        Advance();
      }
    }

    lemma SafeNow()
      requires Valid()
      ensures Safe(Now()) && M.Inv(pulse) && CallInv(Now())
    {
      hide IsRun, M.Inv, CallInv, Hotkey.Inv, QueueInv;
      RunSafe(run);
    }

    /** Any number of statements of the other threads. */
    method Others()
      requires Valid()
      modifies this
      ensures Valid() && old(run) <= run
      ensures pc == old(pc) && recording == old(recording) && pulse.call == old(pulse.call)
    {
      hide Step, IsRun, M.Nearer, M.TimerCan;
      var n: int := *;
      while n > 0
        invariant Valid() && old(run) <= run
        invariant pc == old(pc) && recording == old(recording) && pulse.call == old(pulse.call)
        decreases n
      {
        var who: int := *;
        if who == 0 { Key(); }
        else if who == 1 { Click(); }
        else if who == 2 { RequestShutdown(); }
        else if who == 3 { Applications(); }
        else { Timer(); }
        n := n - 1;
      }
    }

    // -------------------------------------------------------------- the daemon thread

    /** The rest of a call of the mute manager; the call always returns. */
    method FinishCall()
      requires Valid()
      modifies this
      ensures Valid() && old(run) <= run && pc == old(pc) && recording == old(recording) && pulse.call == M.Idle
    {
      hide Step, IsRun, M.Inv, M.DaemonNext, M.DaemonCan, M.TimerCan, M.Lists;
      var n: int := *;
      while pulse.call != M.Idle
        invariant Valid() && old(run) <= run && pc == old(pc) && recording == old(recording)
        decreases M.CallPhase(pulse.call), M.TimerPhase(pulse.timer), M.Work(pulse), n
      {
        SafeNow();
        M.SomeoneCan(pulse);
        var who: int := *;
        if n > 0 && 0 <= who <= 3 {
          if who == 0 { Key(); }
          else if who == 1 { Click(); }
          else if who == 2 { RequestShutdown(); }
          else { Applications(); }
          n := n - 1;
        } else if M.TimerCan(pulse) && (who == 4 || !M.DaemonCan(pulse)) {
          Timer();
        } else {
          MoveDaemon();
        }
      }
    }

    /** One statement of the mute manager on the daemon thread. */
    method MoveDaemon()
      requires Valid() && M.DaemonCan(pulse)
      modifies this
      ensures Valid() && old(run) <= run && pc == old(pc) && recording == old(recording) && M.Nearer(pulse, old(pulse))
    {
      hide Step, IsRun, M.Inv, M.DaemonNext, M.DaemonCan, M.TimerCan, M.Lists, M.Nearer;
      var listing := Listing(pulse.sinks);
      assert M.DaemonStep(pulse, M.DaemonNext(pulse, listing));
      M.DaemonMoves(pulse, M.DaemonNext(pulse, listing));
      pulse := M.DaemonNext(pulse, listing);
      StepOfPulse(old(Now()), Now(), pulse);
      Advance();
    }

    method HandleStart()
      requires Valid() && pc == Start0
      modifies this
      ensures Valid() && old(run) <= run && pc == Check
    {
      hide *;
      Others();
      if state != IDLE {
        StartGoes();
        Goto(Check);
        return;
      }
      StartGoes();
      Goto(Start1);
      Others();
      StoreRecording();
      FinishCall();
      Others();
      StartRecording();
    }

    method HandleStop()
      requires Valid() && pc == Stop0
      modifies this
      ensures Valid() && old(run) <= run && pc == Check
    {
      hide *;
      Others();
      if state != RECORDING {
        StopGoes();
        Goto(Check);
        return;
      }
      StopGoes();
      Goto(Stop1);
      Others();
      StoreProcessing();
      FinishCall();
      Others();
      StopGoes();
      Goto(StopMic);
      Others();
      StopRecording();
      Others();
      StoreIdle();
    }

    method HandleCancel()
      requires Valid() && pc == Cancel0
      modifies this
      ensures Valid() && old(run) <= run && pc == Check
    {
      hide *;
      Others();
      if state == RECORDING {
        CancelGoes();
        Goto(CancelMic);
        Others();
        StopThenUnmute();
        FinishCall();
        Others();
        CancelGoes();
        Goto(CancelEnd);
      } else if state == PROCESSING {
        CancelGoes();
        Goto(Check);
        return;
      } else {
        CancelGoes();
        Goto(CancelEnd);
      }
      Others();
      StoreIdle();
    }

    method Cleanup()
      requires Valid() && pc == Clean0
      modifies this
      ensures Valid() && old(run) <= run && pc == Done
    {
      hide *;
      Others();
      CleanGoes();
      Goto(CleanMic);
      Others();
      StopThenUnmute();
      FinishCall();
      Others();
      CleanGoes();
      Goto(Done);
    }

    method ProcessEvents()
      requires Valid() && pc == Reload
      modifies this
      ensures Valid() && old(run) <= run && pc == Check
    {
      hide *;
      Others();
      MaybeReloadConfig();
      Others();
      if eventQueue == [] {
        LoopGoes();
        Goto(Check);
        return;
      }
      var event := PopEvent();
      match event {
        case START => HandleStart();
        case STOP => HandleStop();
        case CANCEL => HandleCancel();
      }
    }

    /** The loop of `run`, for as many rounds as it takes or `rounds` allows. Once it has returned the
        microphone is off, no timer can mute any more, and every other application has its own mute
        flag again. */
    method Run(rounds: nat) returns (done: bool)
      requires Valid() && pc == Check
      modifies this
      ensures Valid() && old(run) <= run
      ensures done ==> pc == Done && !recording && M.Quiet(pulse)
    {
      hide *;
      var n := rounds;
      Others();
      while n > 0 && !shutdownRequested
        invariant Valid() && old(run) <= run && pc == Check
      {
        LoopGoes();
        Goto(Reload);
        ProcessEvents();
        Others();
        n := n - 1;
      }
      done := shutdownRequested;
      if done {
        LoopGoes();
        Goto(Clean0);
        Cleanup();
        Finished();
      }
    }

    lemma Finished()
      requires Valid() && pc == Done
      ensures !recording && M.Quiet(pulse)
    {
      hide IsRun, M.Quiet;
      EveryRunSafe(run);
    }

    // -------------------------------------------------------------- single statements

    lemma StartGoes()
      ensures pc == Start0 ==> Goes(if state != IDLE then Check else Start1)
    {
      hide LoopStep, StopStep, CancelStep, CleanStep;
    }

    lemma StopGoes()
      ensures pc == Stop0 ==> Goes(if state != RECORDING then Check else Stop1)
      ensures pc == StopUnmute && pulse.call == M.Idle ==> Goes(StopMic)
    {
      hide LoopStep, StartStep, CancelStep, CleanStep;
    }

    lemma CancelGoes()
      ensures pc == Cancel0 ==>
                Goes(match state case RECORDING => CancelMic case PROCESSING => Check case _ => CancelEnd)
      ensures pc == CancelUnmute && pulse.call == M.Idle ==> Goes(CancelEnd)
    {
      hide LoopStep, StartStep, StopStep, CleanStep;
    }

    lemma CleanGoes()
      ensures pc == Clean0 ==> Goes(CleanMic)
      ensures pc == CleanUnmute && pulse.call == M.Idle ==> Goes(Done)
    {
      hide LoopStep, StartStep, StopStep, CancelStep;
    }

    lemma LoopGoes()
      ensures pc == Check ==> Goes(if shutdownRequested then Clean0 else Reload)
      ensures pc == Reload ==> Goes(Wait)
      ensures pc == Wait && eventQueue == [] ==> Goes(Check)
    {
      hide StartStep, StopStep, CancelStep, CleanStep, Handle;
    }

    ghost predicate Goes(next: Pc)
      reads this
    {
      var s := Now();
      var t := s.(pc := next);
      LoopStep(s, t) || StartStep(s, t) || StopStep(s, t) || CancelStep(s, t) || CleanStep(s, t)
    }

    /** A statement that only moves on. */
    ghost method Goto(next: Pc)
      requires Valid() && Goes(next)
      modifies `pc, `run
      ensures Valid() && old(run) <= run && pc == next
    {
      hide IsRun, Step, LoopStep, StartStep, StopStep, CancelStep, CleanStep;
      pc := next;
      DaemonAdvance();
    }

    method StoreRecording()
      requires Valid() && pc == Start1
      modifies this
      ensures Valid() && old(run) <= run && pc == StartMute
    {
      hide Step, IsRun, LoopStep, StopStep, CancelStep, CleanStep;
      state := RECORDING;
      pulse := pulse.(call := M.MuteCheck(true));
      pc := StartMute;
      DaemonAdvance();
    }

    method StartRecording()
      requires Valid() && pc == StartMute && pulse.call == M.Idle
      modifies this
      ensures Valid() && old(run) <= run && pc == Check
    {
      hide Step, IsRun, LoopStep, StopStep, CancelStep, CleanStep;
      recording := true;
      pc := Check;
      DaemonAdvance();
    }

    method StoreProcessing()
      requires Valid() && pc == Stop1
      modifies this
      ensures Valid() && old(run) <= run && pc == StopUnmute
    {
      hide Step, IsRun, LoopStep, StartStep, CancelStep, CleanStep;
      state := PROCESSING;
      pulse := pulse.(call := M.UnmuteCheck);
      pc := StopUnmute;
      DaemonAdvance();
    }

    method StopRecording()
      requires Valid() && pc == StopMic
      modifies this
      ensures Valid() && old(run) <= run && pc == Transcribing
    {
      hide Step, IsRun, LoopStep, StartStep, CancelStep, CleanStep;
      recording := false;
      pc := Transcribing;
      DaemonAdvance();
    }

    /** On a cancel and in the end the microphone is stopped first, then the others are unmuted. */
    method StopThenUnmute()
      requires Valid() && (pc == CancelMic || pc == CleanMic)
      modifies this
      ensures Valid() && old(run) <= run && pc == if old(pc) == CancelMic then CancelUnmute else CleanUnmute
    {
      hide Step, IsRun, LoopStep, StartStep, StopStep;
      recording := false;
      pulse := pulse.(call := M.UnmuteCheck);
      pc := if pc == CancelMic then CancelUnmute else CleanUnmute;
      DaemonAdvance();
    }

    method StoreIdle()
      requires Valid() && (pc == Transcribing || pc == CancelEnd)
      modifies this
      ensures Valid() && old(run) <= run && pc == Check
    {
      hide Step, IsRun, LoopStep, StartStep, CleanStep;
      state := IDLE;
      pc := Check;
      DaemonAdvance();
    }

    /** The configuration file has changed, or not. */
    method MaybeReloadConfig()
      requires Valid() && pc == Reload
      modifies this
      ensures Valid() && old(run) <= run && pc == Wait
    {
      hide Step, IsRun, StartStep, StopStep, CancelStep, CleanStep, KeyInput;
      var changed: bool, config: HotkeyConfig := *, *;
      if changed { HandleInput(SetConfig(config)); }
      pc := Wait;
      DaemonAdvance();
    }

    method PopEvent() returns (event: Event)
      requires Valid() && pc == Wait && eventQueue != []
      modifies this
      ensures Valid() && old(run) <= run
      ensures event == old(eventQueue)[0]
      ensures pc == match event case START => Start0 case STOP => Stop0 case CANCEL => Cancel0
    {
      hide Step, IsRun, StartStep, StopStep, CancelStep, CleanStep;
      event := eventQueue[0];
      eventQueue := eventQueue[1..];
      past := past.(taken := past.taken + [event], takenLate := past.takenLate + if shutdownRequested then 1 else 0);
      pc := match event case START => Start0 case STOP => Stop0 case CANCEL => Cancel0;
      DaemonAdvance();
    }
  }
}
