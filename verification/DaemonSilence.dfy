/** While the daemon records, the other applications are silent: carried from the mute manager to the whole
    daemon, in every run. */
module DaemonSilence {
  import opened Options
  import opened Hotkey
  import opened Daemon
  import opened MuteSilence
  import M = MuteEpisode

  /** From the start of a recording until something ends it. */
  predicate Recording(s: Sys) {
    && s.state == RECORDING
    && (s.pc == StartMute || s.pc == Check || s.pc == Reload || s.pc == Wait || s.pc == Start0 || s.pc == Stop0
        || s.pc == Stop1 || s.pc == Cancel0 || s.pc == CancelMic || s.pc == Clean0 || s.pc == CleanMic)
  }

  /** The streams were listed in step i, and the recording that was then on is still on. */
  predicate ListedAt(run: seq<Sys>, i: nat, sinks: map<nat, M.Sink>) {
    && i + 1 < |run| && ListingStep(run[i].pulse, run[i + 1].pulse) && run[i].pulse.sinks == sinks
    && forall k :: i <= k < |run| ==> Recording(run[k])
  }

  ghost predicate FromRun(run: seq<Sys>, listed: Option<map<nat, M.Sink>>) {
    listed.None? || exists i: nat :: ListedAt(run, i, listed.value)
  }

  ghost predicate MuteUnderWay(run: seq<Sys>)
    requires run != []
  {
    exists listed :: OnItsWay(run[|run| - 1].pulse, listed) && FromRun(run, listed)
  }

  // ---------------------------------------------------------------- one step

  lemma KeyInputState(s: Sys, input: Input)
    ensures var t := KeyInput(s, input); t.state == s.state && t.pc == s.pc && t.pulse == s.pulse
  {
    hide Handle;
  }

  lemma LoopRecords(s: Sys, t: Sys)
    requires LoopStep(s, t) && Recording(t)
    ensures Recording(s) && t.pulse == s.pulse
  {
    hide KeyInput;
    if s.pc == Reload && t != s.(pc := Wait) {
      var c: HotkeyConfig :| t == KeyInput(s, SetConfig(c)).(pc := Wait);
      KeyInputPulse(s, SetConfig(c));
      KeyInputState(s, SetConfig(c));
    }
  }

  lemma StartRecords(s: Sys, t: Sys)
    requires Recording(t) && StartStep(s, t)
    ensures if s.pc == Start1 then OnItsWay(t.pulse, None) else Recording(s) && t.pulse == s.pulse
  {
    hide HushedOrDue, Earlier, Todo;
  }

  lemma StopRecords(s: Sys, t: Sys)
    requires Recording(t) && StopStep(s, t)
    ensures Recording(s) && t.pulse == s.pulse && s.pc != Start1
  {
    match s.pc
    case Stop0 =>
    case Stop1 =>
    case StopUnmute =>
    case StopMic =>
    case _ =>
  }

  lemma CancelRecords(s: Sys, t: Sys)
    requires Recording(t) && CancelStep(s, t)
    ensures Recording(s) && t.pulse == s.pulse && s.pc != Start1
  {
    match s.pc
    case Cancel0 =>
    case CancelMic =>
    case _ =>
  }

  lemma CleanRecords(s: Sys, t: Sys)
    requires Recording(t) && CleanStep(s, t)
    ensures Recording(s) && t.pulse == s.pulse && s.pc != Start1
  {
  }

  lemma HandlersRecord(s: Sys, t: Sys)
    requires Recording(t) && (StartStep(s, t) || StopStep(s, t) || CancelStep(s, t) || CleanStep(s, t))
    ensures if s.pc == Start1 then OnItsWay(t.pulse, None) else Recording(s) && t.pulse == s.pulse
  {
    hide *;
    if StartStep(s, t) {
      StartRecords(s, t);
    } else if StopStep(s, t) {
      StopRecords(s, t);
    } else if CancelStep(s, t) {
      CancelRecords(s, t);
    } else {
      CleanRecords(s, t);
    }
  }

  lemma OthersRecord(s: Sys, t: Sys)
    requires Recording(t) && (KeyStep(s, t) || ClickStep(s, t) || ShutdownStep(s, t))
    ensures Recording(s) && t.pulse == s.pulse
  {
    hide KeyInput;
    if KeyStep(s, t) {
      var input: Input :| !input.SetConfig? && t == KeyInput(s, input);
      KeyInputState(s, input);
    }
  }

  /** A recording begins with a delayed mute, and goes on with steps of the mute manager or none. */
  lemma RecordingStep(s: Sys, t: Sys)
    requires Step(s, t) && Recording(t)
    ensures OnItsWay(t.pulse, None) || (Recording(s) && (t.pulse == s.pulse || M.Step(s.pulse, t.pulse)))
  {
    hide KeyStep, ClickStep, ShutdownStep, PulseStep, LoopStep, StartStep, StopStep, CancelStep, CleanStep, M.Step;
    hide OnItsWay;
    if PulseStep(s, t) {
      var q := PulseOf(s, t);
    } else if DaemonStep(s, t) {
      if LoopStep(s, t) { LoopRecords(s, t); } else { HandlersRecord(s, t); }
    } else {
      OthersRecord(s, t);
    }
  }

  lemma MuteGoesOn(p: M.Pulse, q: M.Pulse, listed: Option<map<nat, M.Sink>>) returns (next: Option<map<nat, M.Sink>>)
    requires M.Inv(p) && OnItsWay(p, listed) && M.Step(p, q)
    ensures OnItsWay(q, next)
    ensures next == listed || (next == Some(p.sinks) && ListingStep(p, q))
  {
    hide M.Inv, M.Step, OnItsWay, ListingStep;
    next := listed;
    if listed.Some? {
      ListedGoesOn(listed.value, p, q);
    } else if OwnListing(p, q) {
      ListingBegins(p, q);
      next := Some(p.sinks);
    } else {
      ArmingGoesOn(p, q);
    }
  }

  // ---------------------------------------------------------------- every run

  lemma StillListed(run: seq<Sys>, t: Sys, listed: Option<map<nat, M.Sink>>)
    requires FromRun(run, listed) && Recording(t)
    ensures FromRun(run + [t], listed)
  {
    hide Recording, ListingStep;
    if listed.Some? {
      var i: nat :| ListedAt(run, i, listed.value);
      assert ListedAt(run + [t], i, listed.value);
    }
  }

  lemma NowListed(run: seq<Sys>, t: Sys)
    requires run != [] && Recording(t) && Recording(run[|run| - 1]) && ListingStep(run[|run| - 1].pulse, t.pulse)
    ensures FromRun(run + [t], Some(run[|run| - 1].pulse.sinks))
  {
    hide Recording, ListingStep;
    assert ListedAt(run + [t], |run| - 1, run[|run| - 1].pulse.sinks);
  }

  lemma NothingListed(run: seq<Sys>)
    ensures FromRun(run, None)
  {
  }

  lemma UnderWayNext(run: seq<Sys>, t: Sys)
    requires run != [] && Step(run[|run| - 1], t) && M.Inv(run[|run| - 1].pulse) && Recording(t)
    requires Recording(run[|run| - 1]) ==> MuteUnderWay(run)
    ensures MuteUnderWay(run + [t])
  {
    hide Step, M.Inv, M.Step, Recording, OnItsWay, FromRun, ListingStep;
    var s, more := run[|run| - 1], run + [t];
    RecordingStep(s, t);
    if OnItsWay(t.pulse, None) {
      NothingListed(more);
    } else {
      var listed :| OnItsWay(s.pulse, listed) && FromRun(run, listed);
      if t.pulse == s.pulse {
        StillListed(run, t, listed);
      } else {
        var next := MuteGoesOn(s.pulse, t.pulse, listed);
        if next == listed { StillListed(run, t, listed); } else { NowListed(run, t); }
      }
    }
  }

  lemma FirstIdle(run: seq<Sys>)
    requires IsRun(run)
    ensures !Recording(run[0])
  {
  }

  lemma SafePulse(s: Sys)
    requires Safe(s)
    ensures M.Inv(s.pulse) && (s.pc != StartMute && !Unmuting(s.pc) ==> s.pulse.call == M.Idle)
  {
    hide M.Inv, Hotkey.Inv, M.Quiet;
  }

  lemma {:induction false} RecordingRun(run: seq<Sys>)
    requires IsRun(run) && run != []
    ensures Recording(run[|run| - 1]) ==> MuteUnderWay(run)
    decreases |run|
  {
    hide IsRun, Step, Safe, Recording, MuteUnderWay, M.Inv;
    if |run| == 1 {
      FirstIdle(run);
    } else {
      var init, t := run[..|run| - 1], run[|run| - 1];
      RunInit(run);
      RecordingRun(init);
      RunSafe(init);
      SafePulse(init[|init| - 1]);
      if Recording(t) {
        UnderWayNext(init, t);
        assert init + [t] == run;
      }
    }
  }

  /** In every run: while a recording is on and its timer has done its work, the streams have been listed
      during this recording, and each of them that was not excluded and still is there is muted. */
  lemma RecordingIsSilent(run: seq<Sys>)
    requires IsRun(run)
    requires var s := run[|run| - 1]; Recording(s) && s.pc != StartMute && s.pulse.timer.Finished?
    ensures exists i: nat, sinks :: ListedAt(run, i, sinks) && Hushed(sinks, run[|run| - 1].pulse)
  {
    var s := run[|run| - 1];
    assert !Unmuting(s.pc);
    hide IsRun, Safe, Recording, OnItsWay, Hushed, ListedAt, M.Inv;
    RecordingRun(run);
    RunSafe(run);
    SafePulse(s);
    var listed :| OnItsWay(s.pulse, listed) && FromRun(run, listed);
    DoneIsHushed(s.pulse, listed);
    var i: nat :| ListedAt(run, i, listed.value);
  }

  /** Said of a drained queue: after START, with nothing dropped, clicked or quit, and the timer done, the
      microphone is on and the applications are silent. */
  lemma DrainedIsSilent(run: seq<Sys>)
    requires IsRun(run)
    requires var s := run[|run| - 1];
             !s.disturbed && s.queue == [] && BetweenEvents(s.pc) && LastIsStart(s.log) && s.pulse.timer.Finished?
    ensures run[|run| - 1].state == RECORDING && run[|run| - 1].mic
    ensures exists i: nat, sinks :: ListedAt(run, i, sinks) && Hushed(sinks, run[|run| - 1].pulse)
  {
    hide IsRun, ListedAt, Hushed, LastIsStart;
    DrainedAgrees(run);
    RecordingIsSilent(run);
  }
}
