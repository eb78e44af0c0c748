/** Muting other applications while the microphone is open: src/pulseaudio/pulseaudio.cpp as a
    state machine. The daemon thread, the delayed-mute timer thread and the applications take
    their steps in any interleaving. */
module MuteEpisode {
  import opened SeqFacts

  /** A playback stream of another application. `original` is the mute flag it came with. */
  datatype Sink = Sink(muted: bool, excluded: bool, original: bool)

  /** An entry of `muted_inputs`. */
  datatype Saved = Saved(index: nat, wasMuted: bool)

  /** The timer thread: asleep; awake, having found its flag set; muting the listed streams one by
      one; about to clear its flag; gone, but not joined. */
  datatype Timer = NoTimer | Sleeping | Awake | Muting(todo: seq<Saved>) | Finishing | Finished

  /** Where the daemon thread stands inside a call. */
  datatype Call =
    | Idle
    // mute_other_apps
    | MuteCheck(delay: bool) | MuteCancel(delay: bool) | MuteJoin(delay: bool) | MuteArm(delay: bool)
    | MuteNow(todo: seq<Saved>)
    // unmute_other_apps
    | UnmuteCheck | UnmuteCancel | UnmuteJoin | UnmuteLock | Restoring(k: nat)

  datatype Pulse = Pulse(sinks: map<nat, Sink>, next: nat, saved: seq<Saved>, active: bool, timer: Timer, call: Call)

  function SetMuted(sinks: map<nat, Sink>, index: nat, muted: bool): map<nat, Sink> {
    if index in sinks then sinks[index := sinks[index].(muted := muted)] else sinks
  }

  /** The answer of the server to a listing: every stream that is not excluded, once, in some order. */
  predicate Lists(sinks: map<nat, Sink>, todo: seq<Saved>) {
    && (forall i, j :: 0 <= i < j < |todo| ==> todo[i].index != todo[j].index)
    && (forall i :: 0 <= i < |todo| ==> todo[i].index in sinks && !sinks[todo[i].index].excluded
                                        && todo[i].wasMuted == sinks[todo[i].index].muted)
    && (forall x :: x in sinks && !sinks[x].excluded ==> exists i :: 0 <= i < |todo| && todo[i].index == x)
  }

  /** One round of the loop in `do_mute`: remember the stream, then mute it if it was not. */
  function MuteOne(p: Pulse, si: Saved): Pulse {
    p.(saved := p.saved + [si], sinks := if si.wasMuted then p.sinks else SetMuted(p.sinks, si.index, true))
  }

  predicate LockHeldByTimer(p: Pulse) { p.timer.Muting? }

  predicate LockHeldByDaemon(p: Pulse) { p.call.MuteNow? || p.call.Restoring? }

  predicate TimerAlive(t: Timer) { t.Sleeping? || t.Awake? || t.Muting? || t.Finishing? }

  // ---------------------------------------------------------------- the steps

  /** What a thread does next when it is its turn; `listing` is the server's answer if it asks for one. */
  function DaemonNext(p: Pulse, listing: seq<Saved>): Pulse {
    match p.call
    case Idle => p
    case MuteCheck(d) => p.(call := if p.active && p.timer != NoTimer then MuteCancel(d) else MuteArm(d))
    case MuteCancel(d) => p.(active := false, call := MuteJoin(d))
    case MuteJoin(d) => p.(timer := NoTimer, call := MuteArm(d))
    case MuteArm(d) => if d then p.(active := true, timer := Sleeping, call := Idle) else p.(call := MuteNow(listing))
    case MuteNow(todo) => if todo == [] then p.(call := Idle) else MuteOne(p, todo[0]).(call := MuteNow(todo[1..]))
    case UnmuteCheck => p.(call := if p.active then UnmuteCancel else UnmuteLock)
    case UnmuteCancel => p.(active := false, call := UnmuteJoin)
    case UnmuteJoin => p.(timer := NoTimer, call := UnmuteLock)
    case UnmuteLock => p.(call := Restoring(0))
    case Restoring(k) =>
      if k >= |p.saved| then p.(saved := [], call := Idle)
      else p.(sinks := if p.saved[k].wasMuted then p.sinks else SetMuted(p.sinks, p.saved[k].index, false),
              call := Restoring(k + 1))
  }

  function TimerNext(p: Pulse, listing: seq<Saved>): Pulse {
    match p.timer
    case Sleeping => p.(timer := if p.active then Awake else Finishing)
    case Awake => p.(timer := Muting(listing))
    case Muting(todo) => if todo == [] then p.(timer := Finishing) else MuteOne(p, todo[0]).(timer := Muting(todo[1..]))
    case Finishing => p.(active := false, timer := Finished)
    case _ => p
  }

  /** A join waits for the timer thread, and the lock for whoever holds it. */
  predicate DaemonCan(p: Pulse) {
    match p.call
    case Idle => false
    case MuteJoin(_) => !TimerAlive(p.timer)
    case UnmuteJoin => !TimerAlive(p.timer)
    case MuteArm(d) => d || !LockHeldByTimer(p)
    case UnmuteLock => !LockHeldByTimer(p)
    case _ => true
  }

  predicate TimerCan(p: Pulse) { TimerAlive(p.timer) && (p.timer.Awake? ==> !LockHeldByDaemon(p)) }

  /** The next step of the daemon thread inside a call. */
  ghost predicate DaemonStep(p: Pulse, q: Pulse) {
    DaemonCan(p) && exists listing :: Lists(p.sinks, listing) && q == DaemonNext(p, listing)
  }

  /** The next step of the timer thread. */
  ghost predicate TimerThreadStep(p: Pulse, q: Pulse) {
    TimerCan(p) && exists listing :: Lists(p.sinks, listing) && q == TimerNext(p, listing)
  }

  /** Applications come and go; they do not touch mute flags. */
  ghost predicate WorldStep(p: Pulse, q: Pulse) {
    || (exists excluded: bool, muted: bool ::
          q == p.(sinks := p.sinks[p.next := Sink(muted, excluded, muted)], next := p.next + 1))
    || (exists x :: x in p.sinks && q == p.(sinks := p.sinks - {x}))
  }

  ghost predicate Step(p: Pulse, q: Pulse) {
    DaemonStep(p, q) || TimerThreadStep(p, q) || WorldStep(p, q)
  }

  /** A new call of the daemon thread. */
  ghost predicate Begins(p: Pulse, q: Pulse) {
    p.call == Idle && (q == p.(call := UnmuteCheck) || exists d :: q == p.(call := MuteCheck(d)))
  }

  // ---------------------------------------------------------------- what every step keeps

  predicate Joining(c: Call) { c.MuteJoin? || c.UnmuteJoin? }

  /** Past the point at which a pending timer has been dealt with. */
  predicate PastTimer(c: Call) { c.MuteArm? || c.MuteNow? || c.UnmuteLock? || c.Restoring? }

  /** A live timer has its flag set, unless it is being joined. */
  predicate TimerInv(p: Pulse) {
    && (TimerAlive(p.timer) ==> p.active || Joining(p.call))
    && (p.active ==> TimerAlive(p.timer))
    && (PastTimer(p.call) ==> !TimerAlive(p.timer))
  }

  /** The stream will be unmuted when the saved list is worked off. */
  predicate Pending(saved: seq<Saved>, x: nat) {
    exists i :: 0 <= i < |saved| && saved[i].index == x && !saved[i].wasMuted
  }

  /** The flag a stream has once the saved list has been worked off is the one it came with. */
  predicate Conserved(p: Pulse) {
    forall x :: x in p.sinks ==> p.sinks[x].original == (!Pending(p.saved, x) && p.sinks[x].muted)
  }

  /** Indices are never used again. */
  predicate IndicesOld(p: Pulse) {
    && (forall x :: x in p.sinks ==> x < p.next)
    && (forall i :: 0 <= i < |p.saved| ==> p.saved[i].index < p.next)
  }

  /** A listing still to be worked off is up to date, and lists no stream twice and none of our own. */
  predicate TodoOk(p: Pulse, todo: seq<Saved>) {
    && (forall i, j :: 0 <= i < j < |todo| ==> todo[i].index != todo[j].index)
    && (forall i :: 0 <= i < |todo| ==> todo[i].index < p.next)
    && (forall i :: 0 <= i < |todo| && todo[i].index in p.sinks ==>
          todo[i].wasMuted == p.sinks[todo[i].index].muted && !p.sinks[todo[i].index].excluded)
  }

  predicate SavedNotExcluded(p: Pulse) {
    forall i :: 0 <= i < |p.saved| && p.saved[i].index in p.sinks ==> !p.sinks[p.saved[i].index].excluded
  }

  predicate RestoredUpTo(p: Pulse, k: nat) {
    forall i :: 0 <= i < k && i < |p.saved| && !p.saved[i].wasMuted && p.saved[i].index in p.sinks ==>
      !p.sinks[p.saved[i].index].muted
  }

  predicate Inv(p: Pulse) {
    && TimerInv(p) && Conserved(p) && IndicesOld(p) && SavedNotExcluded(p)
    && (p.timer.Muting? ==> TodoOk(p, p.timer.todo))
    && (p.call.MuteNow? ==> TodoOk(p, p.call.todo))
    && (p.call.Restoring? ==> RestoredUpTo(p, p.call.k))
  }

  /** Nothing is muted, nothing is going to be, and every stream has the flag it came with. */
  predicate Quiet(p: Pulse) {
    && p.call == Idle && !p.active && !TimerAlive(p.timer) && p.saved == []
    && forall x :: x in p.sinks ==> p.sinks[x].muted == p.sinks[x].original
  }

  lemma PendingMore(saved: seq<Saved>, si: Saved, x: nat)
    ensures Pending(saved + [si], x) <==> Pending(saved, x) || (si.index == x && !si.wasMuted)
  {
    var more := saved + [si];
    assert more[|saved|] == si;
    if Pending(saved, x) {
      var i :| 0 <= i < |saved| && saved[i].index == x && !saved[i].wasMuted;
      assert more[i] == saved[i];
    }
  }

  /** Muting one stream, having remembered it, leaves the account balanced. */
  lemma MuteOneKeeps(p: Pulse, todo: seq<Saved>)
    requires Conserved(p) && IndicesOld(p) && SavedNotExcluded(p) && TodoOk(p, todo) && todo != []
    ensures var q := MuteOne(p, todo[0]);
            Conserved(q) && IndicesOld(q) && SavedNotExcluded(q) && TodoOk(q, todo[1..])
  {
    var si := todo[0];
    var q := MuteOne(p, si);
    forall x | x in q.sinks ensures q.sinks[x].original == (!Pending(q.saved, x) && q.sinks[x].muted) {
      PendingMore(p.saved, si, x);
    }
    hide Pending;
    assert forall i :: 0 <= i < |todo| - 1 ==> todo[1..][i] == todo[i + 1];
    assert forall i :: 0 <= i < |p.saved| ==> q.saved[i] == p.saved[i];
  }

  lemma ListsTodo(p: Pulse, todo: seq<Saved>)
    requires IndicesOld(p) && Lists(p.sinks, todo)
    ensures TodoOk(p, todo)
  {
  }

  /** Only the position of a thread has changed. */
  lemma SameStreams(p: Pulse, q: Pulse)
    requires Conserved(p) && IndicesOld(p) && SavedNotExcluded(p)
    requires q.sinks == p.sinks && q.saved == p.saved && q.next == p.next
    ensures Conserved(q) && IndicesOld(q) && SavedNotExcluded(q)
  {
  }

  lemma SameTodo(p: Pulse, q: Pulse, todo: seq<Saved>)
    requires TodoOk(p, todo) && q.sinks == p.sinks && q.next == p.next
    ensures TodoOk(q, todo)
  {
  }

  lemma NothingRestored(q: Pulse)
    ensures RestoredUpTo(q, 0)
  {
  }

  lemma AllRestored(p: Pulse, q: Pulse, k: nat)
    requires Conserved(p) && IndicesOld(p) && RestoredUpTo(p, k) && k >= |p.saved|
    requires q.sinks == p.sinks && q.saved == [] && q.next == p.next
    ensures Conserved(q) && IndicesOld(q) && SavedNotExcluded(q)
    ensures forall x :: x in q.sinks ==> q.sinks[x].muted == q.sinks[x].original
  {
    forall x | x in q.sinks ensures q.sinks[x].muted == q.sinks[x].original && !Pending(q.saved, x) {
      if Pending(p.saved, x) {
        var i :| 0 <= i < |p.saved| && p.saved[i].index == x && !p.saved[i].wasMuted;
        assert !p.sinks[x].muted;
      }
    }
  }

  lemma RestoreKeepsInv(p: Pulse, q: Pulse, k: nat)
    requires Inv(p) && p.call == Restoring(k) && DaemonStep(p, q)
    ensures Conserved(q) && IndicesOld(q) && SavedNotExcluded(q)
    ensures q.call.Restoring? ==> RestoredUpTo(q, q.call.k)
  {
    if k >= |p.saved| {
      AllRestored(p, q, k);
    } else {
      var si := p.saved[k];
      assert Pending(p.saved, si.index) || si.wasMuted;
      hide Pending;
    }
  }

  lemma DaemonKeepsInv(p: Pulse, q: Pulse)
    requires Inv(p) && DaemonStep(p, q)
    ensures Inv(q)
  {
    hide Conserved, IndicesOld, SavedNotExcluded, TodoOk, RestoredUpTo, Lists, Pending;
    match p.call {
      case Idle =>
      case MuteCheck(d) => SameStreams(p, q);
      case MuteCancel(d) => SameStreams(p, q);
      case MuteJoin(d) => SameStreams(p, q);
      case MuteArm(d) =>
        SameStreams(p, q);
        if !d {
          var todo :| Lists(p.sinks, todo) && q == p.(call := MuteNow(todo));
          ListsTodo(p, todo);
          SameTodo(p, q, todo);
        }
      case MuteNow(todo) =>
        if todo == [] {
          SameStreams(p, q);
        } else {
          MuteOneKeeps(p, todo);
          SameStreams(MuteOne(p, todo[0]), q);
          SameTodo(MuteOne(p, todo[0]), q, todo[1..]);
        }
      case UnmuteCheck => SameStreams(p, q);
      case UnmuteCancel => SameStreams(p, q);
      case UnmuteJoin => SameStreams(p, q);
      case UnmuteLock =>
        SameStreams(p, q);
        NothingRestored(q);
      case Restoring(k) => RestoreKeepsInv(p, q, k);
    }
    if q.timer.Muting? { SameTodo(p, q, q.timer.todo); }
  }

  lemma TimerKeepsInv(p: Pulse, q: Pulse)
    requires Inv(p) && TimerThreadStep(p, q)
    ensures Inv(q)
  {
    hide Conserved, IndicesOld, SavedNotExcluded, TodoOk, RestoredUpTo, Lists, Pending;
    match p.timer {
      case NoTimer =>
      case Finished =>
      case Sleeping => SameStreams(p, q);
      case Awake =>
        SameStreams(p, q);
        var todo :| Lists(p.sinks, todo) && q == p.(timer := Muting(todo));
        ListsTodo(p, todo);
        SameTodo(p, q, todo);
      case Muting(todo) =>
        if todo == [] {
          SameStreams(p, q);
        } else {
          MuteOneKeeps(p, todo);
          SameStreams(MuteOne(p, todo[0]), q);
          SameTodo(MuteOne(p, todo[0]), q, todo[1..]);
        }
      case Finishing => SameStreams(p, q);
    }
  }

  lemma ArrivalKeepsInv(p: Pulse, excluded: bool, muted: bool)
    requires Inv(p)
    ensures Inv(p.(sinks := p.sinks[p.next := Sink(muted, excluded, muted)], next := p.next + 1))
  {
    assert !Pending(p.saved, p.next);
    hide Pending;
  }

  lemma DepartureKeepsInv(p: Pulse, x: nat)
    requires Inv(p)
    ensures Inv(p.(sinks := p.sinks - {x}))
  {
    hide Pending;
  }

  lemma WorldKeepsInv(p: Pulse, q: Pulse)
    requires Inv(p) && WorldStep(p, q)
    ensures Inv(q)
  {
    hide Inv;
    if x :| x in p.sinks && q == p.(sinks := p.sinks - {x}) {
      DepartureKeepsInv(p, x);
    } else {
      var excluded: bool, muted: bool :|
        q == p.(sinks := p.sinks[p.next := Sink(muted, excluded, muted)], next := p.next + 1);
      ArrivalKeepsInv(p, excluded, muted);
    }
  }

  lemma StepKeepsInv(p: Pulse, q: Pulse)
    requires Inv(p) && Step(p, q)
    ensures Inv(q)
  {
    hide DaemonStep, TimerThreadStep, WorldStep, Inv;
    if DaemonStep(p, q) {
      DaemonKeepsInv(p, q);
    } else if TimerThreadStep(p, q) {
      TimerKeepsInv(p, q);
    } else {
      WorldKeepsInv(p, q);
    }
  }

  lemma BeginKeepsInv(p: Pulse, q: Pulse)
    requires Inv(p) && Begins(p, q)
    ensures Inv(q)
  {
    hide Conserved, IndicesOld, SavedNotExcluded, TodoOk, RestoredUpTo, Pending;
    SameStreams(p, q);
    if q.timer.Muting? { SameTodo(p, q, q.timer.todo); }
  }

  // ---------------------------------------------------------------- episodes

  /** Any run: calls of the daemon thread, steps of the timer thread, applications coming and going. */
  ghost predicate IsRun(ps: seq<Pulse>) {
    ps != [] && forall i :: 0 <= i < |ps| - 1 ==> Step(ps[i], ps[i + 1]) || Begins(ps[i], ps[i + 1])
  }

  lemma {:induction false} RunKeepsInv(ps: seq<Pulse>)
    requires IsRun(ps) && Inv(ps[0])
    ensures Inv(ps[|ps| - 1])
    decreases |ps|
  {
    hide Step, Begins, Inv;
    if |ps| > 1 {
      var init := ps[..|ps| - 1];
      assert IsRun(init) by {
        forall i | 0 <= i < |init| - 1 ensures Step(init[i], init[i + 1]) || Begins(init[i], init[i + 1]) {
          assert init[i] == ps[i] && init[i + 1] == ps[i + 1];
        }
      }
      RunKeepsInv(init);
      var p, q := ps[|ps| - 2], ps[|ps| - 1];
      assert Step(ps[|ps| - 2], ps[|ps| - 2 + 1]) || Begins(ps[|ps| - 2], ps[|ps| - 2 + 1]);
      if Step(p, q) { StepKeepsInv(p, q); } else { BeginKeepsInv(p, q); }
    }
  }

  lemma QuietInv(p: Pulse)
    requires Quiet(p) && forall x :: x in p.sinks ==> x < p.next
    ensures Inv(p)
  {
  }

  /** Where an unmute returns, nothing is muted, no timer can mute any more, and every stream that is
      there has the flag it came with. */
  lemma UnmuteEndsQuiet(p: Pulse, q: Pulse)
    requires Inv(p) && p.call.Restoring? && DaemonStep(p, q) && q.call == Idle
    ensures Quiet(q)
  {
    hide Conserved, IndicesOld, SavedNotExcluded, RestoredUpTo;
    AllRestored(p, q, p.call.k);
  }

  lemma OnlyDaemonMovesCall(p: Pulse, q: Pulse)
    requires p.call != q.call && p.call != Idle && (Step(p, q) || Begins(p, q))
    ensures DaemonStep(p, q)
  {
  }

  /** Whatever happened before, any number of mutes, delayed or not, under every interleaving: a run
      from a quiet state that ends with the return of an unmute ends in a quiet state. */
  lemma EpisodeConserves(ps: seq<Pulse>)
    requires IsRun(ps) && Quiet(ps[0]) && forall x :: x in ps[0].sinks ==> x < ps[0].next
    requires |ps| > 1 && ps[|ps| - 2].call.Restoring? && ps[|ps| - 1].call == Idle
    ensures Quiet(ps[|ps| - 1])
  {
    var init := ps[..|ps| - 1];
    hide Quiet, Inv, DaemonStep, TimerThreadStep, WorldStep;
    assert IsRun(init) by {
      forall i | 0 <= i < |init| - 1 ensures Step(init[i], init[i + 1]) || Begins(init[i], init[i + 1]) {
        assert init[i] == ps[i] && init[i + 1] == ps[i + 1];
      }
    }
    QuietInv(ps[0]);
    RunKeepsInv(init);
    var p, q := ps[|ps| - 2], ps[|ps| - 1];
    assert Step(ps[|ps| - 2], ps[|ps| - 2 + 1]) || Begins(ps[|ps| - 2], ps[|ps| - 2 + 1]);
    OnlyDaemonMovesCall(p, q);
    UnmuteEndsQuiet(p, q);
  }

  /** A quiet state stays quiet until the daemon mutes again. */
  lemma QuietStays(p: Pulse, q: Pulse)
    requires Quiet(p) && Step(p, q)
    ensures Quiet(q)
  {
  }

  /** Streams of our own are never touched. */
  lemma OwnStreamsUntouched(p: Pulse, x: nat)
    requires Inv(p) && x in p.sinks && p.sinks[x].excluded
    ensures p.sinks[x].muted == p.sinks[x].original
  {
  }

  // ---------------------------------------------------------------- no deadlock

  lemma ListingExists(sinks: map<nat, Sink>)
    ensures exists todo :: Lists(sinks, todo)
  {
    var listed := set x | x in sinks && !sinks[x].excluded;
    var xs := Enumerate(listed);
    var todo := seq(|xs|, i requires 0 <= i < |xs| =>
      (if xs[i] in sinks then Saved(xs[i], sinks[xs[i]].muted) else Saved(0, false)));
    forall i | 0 <= i < |todo|
      ensures todo[i].index == xs[i] && xs[i] in sinks
      ensures !sinks[xs[i]].excluded && todo[i].wasMuted == sinks[xs[i]].muted
    {
      assert xs[i] in xs;
    }
    forall x | x in sinks && !sinks[x].excluded ensures exists i :: 0 <= i < |todo| && todo[i].index == x {
      assert x in xs;
    }
    assert Lists(sinks, todo);
  }

  function CallPhase(c: Call): nat {
    match c
    case Idle => 0
    case MuteNow(_) => 1 case MuteArm(_) => 2 case MuteJoin(_) => 3 case MuteCancel(_) => 4 case MuteCheck(_) => 5
    case Restoring(_) => 1 case UnmuteLock => 2 case UnmuteJoin => 3 case UnmuteCancel => 4 case UnmuteCheck => 5
  }

  function TimerPhase(t: Timer): nat {
    match t case Sleeping => 4 case Awake => 3 case Muting(_) => 2 case Finishing => 1 case _ => 0
  }

  /** Rounds left of the loop a thread is in. */
  function Work(p: Pulse): nat {
    if p.call.Restoring? then (if p.call.k < |p.saved| then |p.saved| - p.call.k else 0)
    else if p.call.MuteNow? then |p.call.todo|
    else if p.timer.Muting? then |p.timer.todo|
    else 0
  }

  /** Nearer to the end of the call. */
  predicate Nearer(q: Pulse, p: Pulse) {
    || CallPhase(q.call) < CallPhase(p.call)
    || (CallPhase(q.call) == CallPhase(p.call)
        && (TimerPhase(q.timer) < TimerPhase(p.timer)
            || (TimerPhase(q.timer) == TimerPhase(p.timer) && Work(q) < Work(p))))
  }

  lemma DaemonMoves(p: Pulse, q: Pulse)
    requires DaemonStep(p, q)
    ensures Nearer(q, p)
  {
    hide Lists;
  }

  lemma TimerMoves(p: Pulse, q: Pulse)
    requires Inv(p) && TimerThreadStep(p, q)
    ensures Nearer(q, p) && q.call == p.call
  {
    hide Lists, Conserved, IndicesOld, SavedNotExcluded, TodoOk, RestoredUpTo;
  }

  lemma SomeoneCan(p: Pulse)
    requires Inv(p) && p.call != Idle
    ensures DaemonCan(p) || TimerCan(p)
  {
    hide Conserved, IndicesOld, SavedNotExcluded, TodoOk, RestoredUpTo;
  }

  /** A call never gets stuck, and never goes round in circles: the daemon thread can go on, or the timer
      thread it waits for can, and every step of either brings the call nearer to its end. */
  lemma NoDeadlock(p: Pulse)
    requires Inv(p) && p.call != Idle
    ensures exists q :: DaemonStep(p, q) || TimerThreadStep(p, q)
    ensures forall q :: DaemonStep(p, q) || TimerThreadStep(p, q) ==> Nearer(q, p)
  {
    ListingExists(p.sinks);
    var listing :| Lists(p.sinks, listing);
    SomeoneCan(p);
    hide Lists, DaemonNext, TimerNext, DaemonCan, TimerCan, Nearer, Inv;
    if DaemonCan(p) {
      assert DaemonStep(p, DaemonNext(p, listing));
    } else {
      assert TimerThreadStep(p, TimerNext(p, listing));
    }
    forall q | DaemonStep(p, q) || TimerThreadStep(p, q) ensures Nearer(q, p) {
      if DaemonStep(p, q) { DaemonMoves(p, q); } else { TimerMoves(p, q); }
    }
  }
}
