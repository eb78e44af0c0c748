/** That muting mutes: once the streams that a mute has found have been worked off, each of them that is
    still there is muted, until an unmute begins to restore. */
module MuteSilence {
  import opened Options
  import opened MuteEpisode

  /** The streams a thread still has to mute. */
  function Todo(p: Pulse): seq<Saved> {
    if p.timer.Muting? then p.timer.todo else if p.call.MuteNow? then p.call.todo else []
  }

  predicate Working(p: Pulse) { p.timer.Muting? || p.call.MuteNow? }

  /** A mute asks which streams there are. */
  predicate ListingStep(p: Pulse, q: Pulse) { !Working(p) && Working(q) }

  predicate Awaits(todo: seq<Saved>, x: nat) { exists i :: 0 <= i < |todo| && todo[i].index == x }

  predicate HushedOrDue(sinks: map<nat, Sink>, p: Pulse, todo: seq<Saved>) {
    forall x :: x in sinks && !sinks[x].excluded && x in p.sinks ==> p.sinks[x].muted || Awaits(todo, x)
  }

  /** Every stream there was that is not excluded, and still is there, is muted. */
  predicate Hushed(sinks: map<nat, Sink>, p: Pulse) {
    forall x :: x in sinks && !sinks[x].excluded && x in p.sinks ==> p.sinks[x].muted
  }

  /** Streams that were there by now; later ones have later indices. */
  predicate Earlier(sinks: map<nat, Sink>, p: Pulse) { forall x :: x in sinks ==> x < p.next }

  // ---------------------------------------------------------------- one step

  lemma ListedIsDue(p: Pulse, q: Pulse, todo: seq<Saved>)
    requires Lists(p.sinks, todo) && q.sinks == p.sinks
    ensures HushedOrDue(p.sinks, q, todo)
  {
    forall x | x in p.sinks && !p.sinks[x].excluded ensures Awaits(todo, x) {
      var i :| 0 <= i < |todo| && todo[i].index == x;
    }
  }

  /** What has been listed is due. */
  lemma ListingIsDue(p: Pulse, q: Pulse)
    requires Inv(p) && Step(p, q) && ListingStep(p, q)
    ensures q.sinks == p.sinks && HushedOrDue(p.sinks, q, Todo(q)) && q.call.MuteNow? != q.timer.Muting?
    ensures Earlier(p.sinks, q) && q.next == p.next
  {
    hide Lists, Conserved, SavedNotExcluded, TodoOk, RestoredUpTo, Lists, HushedOrDue, MuteOne;
    if DaemonStep(p, q) {
      var todo :| Lists(p.sinks, todo) && q == DaemonNext(p, todo);
      ListedIsDue(p, q, todo);
    } else if TimerThreadStep(p, q) {
      var todo :| Lists(p.sinks, todo) && q == TimerNext(p, todo);
      ListedIsDue(p, q, todo);
    }
  }

  /** Working off the first: it is muted afterwards, and nothing that was muted is unmuted. */
  lemma OneLess(sinks: map<nat, Sink>, p: Pulse, q: Pulse, todo: seq<Saved>)
    requires todo != [] && TodoOk(p, todo) && HushedOrDue(sinks, p, todo)
    requires q.sinks == MuteOne(p, todo[0]).sinks
    ensures HushedOrDue(sinks, q, todo[1..])
  {
    forall x | x in sinks && !sinks[x].excluded && x in q.sinks ensures q.sinks[x].muted || Awaits(todo[1..], x) {
      if Awaits(todo, x) && !p.sinks[x].muted {
        var i :| 0 <= i < |todo| && todo[i].index == x;
        if i > 0 { assert todo[1..][i - 1] == todo[i]; }
      }
    }
  }

  lemma NothingDue(sinks: map<nat, Sink>, p: Pulse)
    ensures HushedOrDue(sinks, p, []) <==> Hushed(sinks, p)
  {
    assert forall x :: !Awaits([], x);
  }

  lemma SameSinks(sinks: map<nat, Sink>, p: Pulse, q: Pulse, todo: seq<Saved>)
    requires HushedOrDue(sinks, p, todo) && q.sinks == p.sinks
    ensures HushedOrDue(sinks, q, todo)
  {
  }

  lemma WorldHush(sinks: map<nat, Sink>, p: Pulse, q: Pulse, todo: seq<Saved>)
    requires Earlier(sinks, p) && WorldStep(p, q) && HushedOrDue(sinks, p, todo)
    ensures HushedOrDue(sinks, q, todo) && Earlier(sinks, q)
    ensures Todo(q) == Todo(p) && q.call == p.call && q.timer == p.timer
  {
    hide Awaits;
  }

  predicate Restores(p: Pulse) { p.call.Restoring? }

  lemma MuteOneFrame(p: Pulse, si: Saved)
    ensures var q := MuteOne(p, si); q.next == p.next && q.timer == p.timer && q.call == p.call && q.active == p.active
  {
  }

  /** The daemon thread: it mutes the next, or leaves all flags alone, unless it restores. */
  lemma DaemonHush(sinks: map<nat, Sink>, p: Pulse, q: Pulse)
    requires Inv(p) && DaemonStep(p, q) && !Restores(p) && !ListingStep(p, q)
    requires HushedOrDue(sinks, p, Todo(p))
    ensures HushedOrDue(sinks, q, Todo(q)) && q.next == p.next
  {
    hide Lists, Conserved, IndicesOld, SavedNotExcluded, TodoOk, RestoredUpTo, HushedOrDue, MuteOne;
    if p.call.MuteNow? && p.call.todo != [] {
      OneLess(sinks, p, q, p.call.todo);
      MuteOneFrame(p, p.call.todo[0]);
    } else {
      SameSinks(sinks, p, q, Todo(p));
    }
  }

  lemma TimerHush(sinks: map<nat, Sink>, p: Pulse, q: Pulse)
    requires Inv(p) && TimerThreadStep(p, q) && !ListingStep(p, q)
    requires HushedOrDue(sinks, p, Todo(p))
    ensures HushedOrDue(sinks, q, Todo(q)) && q.next == p.next
  {
    hide Lists, Conserved, IndicesOld, SavedNotExcluded, TodoOk, RestoredUpTo, HushedOrDue, MuteOne;
    if p.timer.Muting? && p.timer.todo != [] {
      OneLess(sinks, p, q, p.timer.todo);
      MuteOneFrame(p, p.timer.todo[0]);
    } else {
      SameSinks(sinks, p, q, Todo(p));
    }
  }

  /** A new listing only adds to what is due. */
  lemma MoreDue(sinks: map<nat, Sink>, p: Pulse, q: Pulse, todo: seq<Saved>)
    requires Hushed(sinks, p) && q.sinks == p.sinks
    ensures HushedOrDue(sinks, q, todo)
  {
    hide Awaits;
  }

  lemma NothingTodo(p: Pulse, q: Pulse)
    requires ListingStep(p, q)
    ensures Todo(p) == []
  {
  }

  /** Any step, and any call that begins: what was muted or due is, as long as nothing is restored. */
  lemma StepHush(sinks: map<nat, Sink>, p: Pulse, q: Pulse)
    requires Inv(p) && Earlier(sinks, p) && HushedOrDue(sinks, p, Todo(p)) && !Restores(p)
    requires Step(p, q) || Begins(p, q)
    ensures HushedOrDue(sinks, q, Todo(q)) && Earlier(sinks, q)
  {
    hide Inv, HushedOrDue, DaemonStep, TimerThreadStep, WorldStep, ListingStep;
    if Begins(p, q) {
      SameSinks(sinks, p, q, Todo(p));
    } else if WorldStep(p, q) {
      WorldHush(sinks, p, q, Todo(p));
    } else if ListingStep(p, q) {
      NothingTodo(p, q);
      NothingDue(sinks, p);
      ListingIsDue(p, q);
      MoreDue(sinks, p, q, Todo(q));
    } else if DaemonStep(p, q) {
      DaemonHush(sinks, p, q);
    } else {
      TimerHush(sinks, p, q);
    }
  }

  /** While something is due, nothing is restored: the lock is taken. */
  lemma LockTaken(p: Pulse)
    requires Inv(p) && Working(p)
    ensures !Restores(p)
  {
    hide Conserved, IndicesOld, SavedNotExcluded, TodoOk, RestoredUpTo;
  }

  /** Flags that are up stay up while nothing is restored. */
  lemma StaysMuted(sinks: map<nat, Sink>, p: Pulse, q: Pulse)
    requires Inv(p) && Earlier(sinks, p) && Hushed(sinks, p) && !Restores(p)
    requires Step(p, q) || Begins(p, q)
    ensures Hushed(sinks, q) && Earlier(sinks, q)
  {
    hide Lists, Conserved, SavedNotExcluded, TodoOk, RestoredUpTo, Pending;
  }

  // ---------------------------------------------------------------- every run

  lemma RunPrefix(ps: seq<Pulse>, k: nat)
    requires IsRun(ps) && Inv(ps[0]) && k < |ps|
    ensures Inv(ps[k])
  {
    hide Step, Begins, Inv;
    var init := ps[..k + 1];
    assert IsRun(init) by {
      forall i | 0 <= i < |init| - 1 ensures Step(init[i], init[i + 1]) || Begins(init[i], init[i + 1]) {
        assert init[i] == ps[i] && init[i + 1] == ps[i + 1];
      }
    }
    RunKeepsInv(init);
  }

  lemma RunStep(ps: seq<Pulse>, k: nat)
    requires IsRun(ps) && k + 1 < |ps|
    ensures Step(ps[k], ps[k + 1]) || Begins(ps[k], ps[k + 1])
  {
    hide Step, Begins;
  }

  lemma BeginsNoListing(p: Pulse, q: Pulse)
    requires Begins(p, q)
    ensures !ListingStep(p, q)
  {
  }

  /** A listing is made in step i and worked off by w. */
  predicate WorkedOff(ps: seq<Pulse>, i: nat, w: nat) {
    && i < w < |ps| && ListingStep(ps[i], ps[i + 1])
    && (forall k :: i < k < w ==> Working(ps[k])) && !Working(ps[w])
  }

  lemma {:induction false} WorkGoesOn(ps: seq<Pulse>, i: nat, w: nat, k: nat)
    requires IsRun(ps) && Inv(ps[0]) && WorkedOff(ps, i, w) && i < k <= w
    ensures HushedOrDue(ps[i].sinks, ps[k], Todo(ps[k])) && Earlier(ps[i].sinks, ps[k])
    decreases k
  {
    hide Step, Begins, Inv, HushedOrDue, ListingStep, IsRun, Working, Todo, Restores, Earlier;
    var before := k - 1;
    RunPrefix(ps, before);
    RunStep(ps, before);
    if before == i {
      if Begins(ps[i], ps[i + 1]) { BeginsNoListing(ps[i], ps[i + 1]); }
      ListingIsDue(ps[i], ps[i + 1]);
    } else {
      WorkGoesOn(ps, i, w, before);
      LockTaken(ps[before]);
      StepHush(ps[i].sinks, ps[before], ps[k]);
    }
  }

  lemma NotWorking(p: Pulse)
    requires !Working(p)
    ensures Todo(p) == []
  {
  }

  /** In every run: once a listing has been worked off, and until an unmute begins to restore, every stream
      that was there and not excluded when it was made, and still is there, is muted. */
  lemma {:induction false} ListedIsMuted(ps: seq<Pulse>, i: nat, w: nat, n: nat)
    requires IsRun(ps) && Inv(ps[0]) && WorkedOff(ps, i, w) && w <= n < |ps|
    requires forall k :: w <= k < n ==> !Restores(ps[k])
    ensures Hushed(ps[i].sinks, ps[n]) && Earlier(ps[i].sinks, ps[n])
    decreases n
  {
    hide Step, Begins, Inv, HushedOrDue, Hushed, IsRun, Todo, Restores, Earlier;
    if n == w {
      WorkGoesOn(ps, i, w, w);
      NotWorking(ps[w]);
      NothingDue(ps[i].sinks, ps[w]);
    } else {
      var before := n - 1;
      ListedIsMuted(ps, i, w, before);
      RunPrefix(ps, before);
      RunStep(ps, before);
      StaysMuted(ps[i].sinks, ps[before], ps[n]);
    }
  }

  // ---------------------------------------------------------------- a delayed mute gets there

  predicate Arming(c: Call) {
    match c
    case MuteCheck(d) => d case MuteCancel(d) => d case MuteJoin(d) => d case MuteArm(d) => d
    case _ => false
  }

  /** A delayed mute that nothing has cancelled: the call is under way, or the timer is, and has not listed
      yet; or it has listed these streams, and is muting them or has muted them. */
  predicate OnItsWay(p: Pulse, listed: Option<map<nat, Sink>>) {
    match listed
    case None => Arming(p.call) || (p.call == Idle && p.active && (p.timer.Sleeping? || p.timer.Awake?))
    case Some(sinks) =>
      && p.call == Idle && Earlier(sinks, p)
      && (p.timer.Muting? || p.timer.Finishing? || p.timer.Finished?) && HushedOrDue(sinks, p, Todo(p))
  }

  /** The listing of the timer that this mute has set. */
  predicate OwnListing(p: Pulse, q: Pulse) { p.call == Idle && ListingStep(p, q) }

  lemma ArmingDaemon(p: Pulse, q: Pulse)
    requires Inv(p) && Arming(p.call) && DaemonStep(p, q)
    ensures OnItsWay(q, None)
  {
    hide Lists, Conserved, IndicesOld, SavedNotExcluded, TodoOk, RestoredUpTo, MuteOne;
  }

  lemma CallKept(p: Pulse, q: Pulse)
    requires TimerThreadStep(p, q) || WorldStep(p, q)
    ensures q.call == p.call && (WorldStep(p, q) ==> q.timer == p.timer && q.active == p.active)
  {
    hide Lists;
    if TimerThreadStep(p, q) && p.timer.Muting? && p.timer.todo != [] { MuteOneFrame(p, p.timer.todo[0]); }
    hide MuteOne;
  }

  lemma TimerWakes(p: Pulse, q: Pulse)
    requires p.call == Idle && p.active && (p.timer.Sleeping? || p.timer.Awake?)
    requires TimerThreadStep(p, q) && !ListingStep(p, q)
    ensures q.call == Idle && q.active && q.timer.Awake?
  {
    hide Lists, MuteOne;
  }

  lemma IdleDaemon(p: Pulse, q: Pulse)
    requires p.call == Idle
    ensures !DaemonStep(p, q)
  {
  }

  lemma ArmingGoesOn(p: Pulse, q: Pulse)
    requires Inv(p) && OnItsWay(p, None) && Step(p, q) && !OwnListing(p, q)
    ensures OnItsWay(q, None)
  {
    hide Inv, DaemonStep, TimerThreadStep, WorldStep, ListingStep;
    if DaemonStep(p, q) {
      if Arming(p.call) { ArmingDaemon(p, q); } else { IdleDaemon(p, q); }
    } else {
      CallKept(p, q);
      if TimerThreadStep(p, q) && !Arming(p.call) { TimerWakes(p, q); }
    }
  }

  lemma ListingBegins(p: Pulse, q: Pulse)
    requires Inv(p) && OnItsWay(p, None) && Step(p, q) && OwnListing(p, q)
    ensures OnItsWay(q, Some(p.sinks))
  {
    hide Inv, DaemonStep, TimerThreadStep, WorldStep, HushedOrDue, Earlier, Todo;
    ListingIsDue(p, q);
    IdleDaemon(p, q);
    CallKept(p, q);
  }

  lemma ListedPlace(p: Pulse, q: Pulse)
    requires Inv(p) && p.call == Idle && (p.timer.Muting? || p.timer.Finishing? || p.timer.Finished?) && Step(p, q)
    ensures q.call == Idle && (q.timer.Muting? || q.timer.Finishing? || q.timer.Finished?)
  {
    hide Lists, Conserved, IndicesOld, SavedNotExcluded, TodoOk, RestoredUpTo, MuteOne;
    if TimerThreadStep(p, q) && p.timer.Muting? && p.timer.todo != [] { MuteOneFrame(p, p.timer.todo[0]); }
  }

  lemma ListedGoesOn(sinks: map<nat, Sink>, p: Pulse, q: Pulse)
    requires Inv(p) && OnItsWay(p, Some(sinks)) && Step(p, q)
    ensures OnItsWay(q, Some(sinks))
  {
    hide Inv, Step, HushedOrDue, Earlier, Todo;
    ListedPlace(p, q);
    StepHush(sinks, p, q);
  }

  /** Where the timer is done, every stream of its listing that is still there is muted. */
  lemma DoneIsHushed(p: Pulse, listed: Option<map<nat, Sink>>)
    requires OnItsWay(p, listed) && p.call == Idle && p.timer.Finished?
    ensures listed.Some? && Hushed(listed.value, p)
  {
    if listed.Some? { NothingDue(listed.value, p); }
    hide HushedOrDue, Hushed;
  }
}
