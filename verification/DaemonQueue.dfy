/** What the event queue of the daemon does in every step and in every run. */
module DaemonQueue {
  import opened Hotkey
  import opened Daemon
  import M = MuteEpisode

  /** An event comes in: it goes to the end of the queue, or is dropped if 100 events wait there already. */
  predicate Offered(s: Sys, t: Sys, e: Event) {
    && t.taken == s.taken
    && if |s.queue| < 100 then t.queue == s.queue + [e] && t.accepted == s.accepted + [e]
       else t.queue == s.queue && t.accepted == s.accepted && t.disturbed
  }

  predicate AtRest(s: Sys, t: Sys) { t.queue == s.queue && t.accepted == s.accepted && t.taken == s.taken }

  /** The oldest event leaves the queue and is handled by the handler of its kind. */
  predicate TakenOut(s: Sys, t: Sys) {
    && s.pc == Wait && s.queue != [] && s.queue == [s.queue[0]] + t.queue
    && t.taken == s.taken + [s.queue[0]] && t.accepted == s.accepted
    && (s.queue[0] == START ==> t.pc == Start0)
    && (s.queue[0] == STOP ==> t.pc == Stop0)
    && (s.queue[0] == CANCEL ==> t.pc == Cancel0)
  }

  ghost predicate Emitted(s: Sys, t: Sys) { exists e: Event :: t.log == s.log + [e] && Offered(s, t, e) }

  /** A click asks for a start or a stop; the log of the hotkey machine does not know of it. */
  ghost predicate Clicked(s: Sys, t: Sys) {
    t.log == s.log && t.disturbed && exists e: Event :: e != CANCEL && Offered(s, t, e)
  }

  lemma OfferedBy(s: Sys, s1: Sys, e: Event)
    requires AtRest(s, s1)
    ensures Offered(s, Enqueue(s1, e), e)
    ensures Enqueue(s1, e).log == s1.log && Enqueue(s1, e).pc == s1.pc
    ensures Enqueue(s1, e).state == s1.state
    ensures |s1.queue| < 100 ==> Enqueue(s1, e).disturbed == s1.disturbed
  {
  }

  lemma InputLaw(s: Sys, input: Input)
    ensures var t := KeyInput(s, input);
            && (Emitted(s, t) || (t.log == s.log && AtRest(s, t)))
            && (input.SetConfig? ==> t.log == s.log && AtRest(s, t))
            && (|s.queue| < 100 ==> t.disturbed == s.disturbed)
  {
    hide Enqueue, Offered;
    AtMostOne(s.keys, input);
    var (keys, out) := Handle(s.keys, input);
    assert input.SetConfig? ==> out == [];
    hide Handle;
    var s1 := s.(keys := keys, log := s.log + out,
                 reconfigured := s.reconfigured || input.SetConfig? || input.ResetInput?);
    if out != [] {
      OfferedBy(s, s1, out[0]);
      assert KeyInput(s, input) == Enqueue(s1, out[0]);
      assert s1.log == s.log + [out[0]];
    }
  }

  lemma KeyInputState(s: Sys, input: Input)
    ensures KeyInput(s, input).state == s.state
  {
    hide Handle;
  }

  lemma KeyLaw(s: Sys, t: Sys)
    requires KeyStep(s, t)
    ensures Emitted(s, t) || (t.log == s.log && AtRest(s, t))
    ensures t.state == s.state && (|s.queue| < 100 ==> t.disturbed == s.disturbed)
  {
    hide KeyInput, Emitted, AtRest;
    var input: Input :| !input.SetConfig? && t == KeyInput(s, input);
    InputLaw(s, input);
    KeyInputState(s, input);
  }

  lemma ClickLaw(s: Sys, t: Sys)
    requires ClickStep(s, t)
    ensures Clicked(s, t)
  {
    var e: Event :| e != CANCEL && t == Enqueue(s, e).(disturbed := true);
    assert Offered(s, t, e);
  }

  lemma LoopLaw(s: Sys, t: Sys)
    requires LoopStep(s, t)
    ensures t.log == s.log && (if s.pc == Wait && s.queue != [] then TakenOut(s, t) else AtRest(s, t))
    ensures |s.queue| < 100 ==> t.disturbed == s.disturbed
  {
    hide KeyInput;
    if s.pc == Reload && t != s.(pc := Wait) {
      var c: HotkeyConfig :| t == KeyInput(s, SetConfig(c)).(pc := Wait);
      InputLaw(s, SetConfig(c));
    } else if s.pc == Wait && s.queue != [] {
      assert s.queue == [s.queue[0]] + s.queue[1..];
    }
  }

  lemma FrameLaw(s: Sys, t: Sys)
    requires Frame(s, t)
    ensures t.log == s.log && AtRest(s, t) && t.disturbed == s.disturbed
  {
  }

  lemma DaemonLaw(s: Sys, t: Sys)
    requires DaemonStep(s, t)
    ensures t.log == s.log && (TakenOut(s, t) || AtRest(s, t))
    ensures |s.queue| < 100 ==> t.disturbed == s.disturbed
  {
    hide *;
    DaemonCases(s, t);
    if LoopStep(s, t) {
      LoopLaw(s, t);
    } else {
      HandlerFrame(s, t);
      FrameLaw(s, t);
    }
  }

  lemma QuitLaw(s: Sys, t: Sys)
    requires ShutdownStep(s, t) || PulseStep(s, t)
    ensures t.log == s.log && AtRest(s, t) && (t.state != SHUTDOWN ==> t.disturbed == s.disturbed)
  {
    hide M.Step;
  }

  /** In every step: an event the hotkey machine emits is offered to the queue; a click offers one that the
      machine has not emitted; the daemon thread takes the oldest event out and goes to its handler; nothing else
      touches the queue. */
  lemma QueueLaw(s: Sys, t: Sys)
    requires Step(s, t)
    ensures Emitted(s, t) || Clicked(s, t) || (t.log == s.log && (TakenOut(s, t) || AtRest(s, t)))
  {
    hide *;
    StepCases(s, t);
    if KeyStep(s, t) {
      KeyLaw(s, t);
    } else if ClickStep(s, t) {
      ClickLaw(s, t);
    } else if DaemonStep(s, t) {
      DaemonLaw(s, t);
    } else {
      QuitLaw(s, t);
    }
  }

  lemma RoomStep(s: Sys, t: Sys)
    requires Step(s, t) && !ClickStep(s, t) && |s.queue| < 100 && t.state != SHUTDOWN
    ensures t.disturbed == s.disturbed
  {
    hide *;
    StepCases(s, t);
    if KeyStep(s, t) {
      KeyLaw(s, t);
    } else if DaemonStep(s, t) {
      DaemonLaw(s, t);
    } else {
      QuitLaw(s, t);
    }
  }

  /** Nobody clicks, nobody quits, and fewer than 100 events ever wait. */
  ghost predicate Roomy(run: seq<Sys>) {
    && (forall i :: 0 <= i < |run| - 1 ==> !ClickStep(run[i], run[i + 1]))
    && (forall i :: 0 <= i < |run| ==> |run[i].queue| < 100 && run[i].state != SHUTDOWN)
  }

  lemma FirstClean(run: seq<Sys>)
    requires IsRun(run)
    ensures !run[0].disturbed
  {
  }

  lemma RoomyInit(run: seq<Sys>)
    requires Roomy(run) && |run| > 1
    ensures Roomy(run[..|run| - 1])
    ensures var s, t := run[|run| - 2], run[|run| - 1];
            !ClickStep(s, t) && |s.queue| < 100 && t.state != SHUTDOWN
  {
    hide ClickStep;
    var init := run[..|run| - 1];
    forall i | 0 <= i < |init| - 1 ensures !ClickStep(init[i], init[i + 1]) {
      assert init[i] == run[i] && init[i + 1] == run[i + 1];
    }
    assert !ClickStep(run[|run| - 2], run[|run| - 2 + 1]);
  }

  lemma {:induction false} RoomyRun(run: seq<Sys>)
    requires IsRun(run) && Roomy(run)
    ensures !run[|run| - 1].disturbed
    decreases |run|
  {
    hide IsRun, Roomy, Step;
    RunNotEmpty(run);
    if |run| == 1 {
      FirstClean(run);
    } else {
      RunInit(run);
      RoomyInit(run);
      RoomyRun(run[..|run| - 1]);
      RoomStep(run[|run| - 2], run[|run| - 1]);
    }
  }

  lemma AgreeAccepted(s: Sys)
    requires Agree(s) && !s.disturbed
    ensures s.accepted == s.log
  {
    hide Progress;
  }

  lemma SafeOrder(s: Sys)
    requires Safe(s)
    ensures s.accepted == s.taken + s.queue
  {
    hide Hotkey.Inv, M.Inv, CallInv;
  }

  /** As long as fewer than 100 events wait no event of the hotkey machine is lost, and none is doubled or
      overtaken: what has been taken and what waits are together what was emitted, in order. */
  lemma NothingLost(run: seq<Sys>)
    requires IsRun(run) && Roomy(run)
    ensures var s := run[|run| - 1]; s.taken + s.queue == s.log
  {
    hide *;
    RunNotEmpty(run);
    RoomyRun(run);
    RunAgree(run);
    RunSafe(run);
    AgreeAccepted(run[|run| - 1]);
    SafeOrder(run[|run| - 1]);
  }
}
