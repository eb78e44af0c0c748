/** LocalServiceClient of protocol.py: one child at a time, one request at a time, one retry. A
    stale answer is never delivered, and a client that has lost step with its child heals within
    one call once children behave, if what it asks fits on the wire. */
module FabricClient {
  import opened Options
  import opened Json
  import opened LocalProtocol
  import opened ResponseChecks
  import opened Wire
  import opened ChildProcesses

  // ---------------------------------------------------------------- whose answer a reply is

  /** The reply is what the client makes of a payload with the id of request n, said by the child
      that n was written to. */
  ghost predicate Received(env: Env, st: State, n: nat, r: Reply) {
    n < |st.log| && exists k ::
      && 0 <= k < |st.said| && st.said[k].gen == st.log[n].gen && HasId(st.said[k].payload, env.uuid(n))
      && r == ValidateResponse(st.said[k].payload, env.uuid(n))
  }

  /** The result was said by the child that request n was written to, after it was written, in answer to n. */
  ghost predicate AnswersRequest(env: Env, st: State, n: nat, r: Reply) {
    n < |st.log| && exists k ::
      && 0 <= k < |st.said| && st.said[k].cause == Some(n) && st.said[k].gen == st.log[n].gen
      && st.log[n].saidBefore <= k && r == ValidateResponse(st.said[k].payload, env.uuid(n))
  }

  /** What an orderly child's answer to request n comes to. */
  function Final(env: Env, st: State, n: nat): Reply
    requires n < |st.log|
  {
    OutcomeOf(AnswerTo(env, st.log, n), env.uuid(n))
  }

  /** Nothing stale can pass for an answer. This rests on the two assumptions about the environment, that
      ids are fresh and that no child forges the id of a request; the client adds the comparison. */
  lemma ReceivedAnswers(env: Env, st: State, n: nat, r: Reply)
    requires Ok(env, st) && Received(env, st, n, r) && FreshIds(env, st)
    ensures AnswersRequest(env, st, n, r)
    ensures Settled(st, n) ==> r == Final(env, st, n)
  {
    hide ValidateResponse, AnswerTo, GoodEnv, ChildOk;
    var k :| 0 <= k < |st.said| && st.said[k].gen == st.log[n].gen && HasId(st.said[k].payload, env.uuid(n))
             && r == ValidateResponse(st.said[k].payload, env.uuid(n));
    assert Honest(env, st, k, st.said[k]) && RequestOk(st, st.log[n]);
    assert st.log[n].saidBefore <= k;
    assert st.said[k].cause.Some?;
    assert st.said[k].cause.value == n;
  }

  lemma ReceivedFrom(env: Env, st: State, n: nat, g: nat, item: Item)
    requires n < |st.log| && st.log[n].gen == g && ItemOk(st, g, item)
    ensures var r := OutcomeOf(item, env.uuid(n)); Understood(r) ==> Received(env, st, n, r)
  {
    RetriedOutcome(item, env.uuid(n));
    if item.Line? && item.payload.Some? { WrongIdRejected(item.payload.value, env.uuid(n)); }
    hide ValidateResponse, Lookup, OutcomeOf;
  }

  /** An orderly child's answer is the server's own answer exactly when both messages fit. */
  lemma FinalExact(env: Env, st: State, n: nat)
    requires GoodEnv(env) && n < |st.log|
    ensures Understood(Final(env, st, n)) <==> RequestFits(env, st.log, n)
    ensures RequestFits(env, st.log, n) ==>
              Final(env, st, n) == Answered(env.services, env.uuid(n), st.log[n].name, st.log[n].params)
    ensures !RequestFits(env, st.log, n) ==> Retried(Final(env, st, n))
  {
    assert |env.uuid(n)| == 36;
    OutcomeExact(env.services, env.codec, env.uuid(n), st.log[n].name, st.log[n].params);
    hide OutcomeOf, Heard, Fits, Answered, RequestJson;
  }

  /** What `transcribe_file` makes of the answer to its request. */
  function Transcript(env: Env, st: State, n: nat): Reply
    requires n < |st.log|
  {
    var r := Final(env, st, n);
    if r.Result? then ValidateTranscription(r.fields, env.uuid(n)) else r
  }

  /** The engine labels its results with the id it was given. */
  ghost predicate GoodEngine(services: Services) {
    forall path: string, options: TranscriptionOptions ::
      services.transcribe(path, options).Transcribed? ==>
        services.transcribe(path, options).result.requestId == options.requestId
  }

  lemma TranscriptionAccepted(services: Services, id: string, params: map<string, Json>)
    requires 0 < |id| <= 128 && GoodEngine(services)
    ensures var r := Answered(services, id, "transcribe_file", params);
            r.Result? ==> ValidateTranscription(r.fields, id) == r
  {
    AnswersAreUnderstood(services, id, "transcribe_file", params);
    var r := Answered(services, id, "transcribe_file", params);
    hide Answered, ValidateTranscription, ResultFields;
    if r.Result? {
      var path: string, options: TranscriptionOptions, result: TranscriptionResult :|
        options.requestId == id && services.transcribe(path, options) == Transcribed(result)
        && r.fields == ResultFields(result);
      ResultAccepted(result, id);
    }
  }

  /** The server's result or structured error passes both checks exactly when request and answer fit. */
  lemma TranscriptExact(env: Env, st: State, n: nat)
    requires GoodEnv(env) && n < |st.log| && st.log[n].name == "transcribe_file" && GoodEngine(env.services)
    ensures Understood(Transcript(env, st, n)) <==> RequestFits(env, st.log, n)
    ensures RequestFits(env, st.log, n) ==>
              Transcript(env, st, n) == Answered(env.services, env.uuid(n), st.log[n].name, st.log[n].params)
    ensures !RequestFits(env, st.log, n) ==> Retried(Transcript(env, st, n))
  {
    FinalExact(env, st, n);
    assert |env.uuid(n)| == 36;
    hide Final, RequestFits, GoodEnv;
    if RequestFits(env, st.log, n) {
      TranscriptionAccepted(env.services, env.uuid(n), st.log[n].params);
    }
    hide Answered, ValidateTranscription;
  }

  /** The requests written from `from` on, other than `own`, fit together with their answers. */
  predicate OthersFit(env: Env, log: seq<Request>, from: nat, own: seq<nat>) {
    forall k :: from <= k < |log| && k !in own ==> RequestFits(env, log, k)
  }

  lemma FitEarlier(env: Env, log: seq<Request>, from: nat, own: seq<nat>,
                   log': seq<Request>, from': nat, own': seq<nat>)
    requires OthersFit(env, log', from', own') && log <= log' && from' <= from
    requires forall k :: k in own' && from <= k < |log| ==> k in own
    ensures OthersFit(env, log, from, own)
  {
    hide Fits, RequestJson;
    forall k | from <= k < |log| && k !in own ensures RequestFits(env, log, k) {
      assert RequestFits(env, log', k) && log'[k] == log[k];
    }
  }

  lemma TranscriptLater(env: Env, st: State, st': State, n: nat)
    requires n < |st.log| && st.log <= st'.log
    ensures Transcript(env, st', n) == Transcript(env, st, n)
  {
    assert st'.log[n] == st.log[n];
    hide Heard, OutcomeOf, ValidateTranscription;
  }

  // ---------------------------------------------------------------- the client

  lemma FitsBefore(env: Env, log: seq<Request>, log': seq<Request>, from: nat, own: seq<nat>, more: seq<nat>)
    requires log <= log' && forall i :: 0 <= i < |more| ==> |log| <= more[i]
    ensures OthersFit(env, log', from, own + more) ==> OthersFit(env, log, from, own)
  {
    if OthersFit(env, log', from, own + more) { FitEarlier(env, log, from, own, log', from, own + more); }
  }

  lemma FitsSince(env: Env, log: seq<Request>, log': seq<Request>, from: nat, own: seq<nat>, more: seq<nat>)
    requires from <= |log| && forall i :: 0 <= i < |own| ==> own[i] < |log|
    ensures OthersFit(env, log', from, own + more) ==> OthersFit(env, log', |log|, more)
  {
    if OthersFit(env, log', from, own + more) { FitEarlier(env, log', |log|, more, log', from, own + more); }
  }

  lemma FitsOwn(env: Env, log: seq<Request>, from: nat, n: nat)
    requires OthersFit(env, log, from, []) && from <= n < |log|
    ensures RequestFits(env, log, n)
  {
  }

  lemma AfterWrite(env: Env, s: State, t: State, g: nat, name: string, params: map<string, Json>)
    requires Ok(env, s) && g < |s.children|
    requires exists received :: t == Written(s, g, name, params, received)
               && (s.children[g].orderly && s.children[g].alive ==> received)
    ensures t.log == s.log + [Request(g, name, params, |s.said|)] && t.said == s.said && t.settledAt == s.settledAt
    ensures |t.children| == |s.children| && t.children[g].taken == s.children[g].taken
    ensures (Sure(t, g) <==> Sure(s, g)) && (Prompt(t, g) <==> Prompt(s, g))
    ensures Prompt(s, g) ==> s.children[g].orderly && s.children[g].alive && Sure(s, g)
    ensures var before := Stream(env, s.log, s.children[g]);
            Sure(s, g) ==>
              Stream(env, t.log, t.children[g])
              == if s.children[g].open && Clean(before) then before + [AnswerTo(env, t.log, |t.log| - 1)] else before
    ensures Prompt(s, g) ==> s.children[g].open
  {
    hide Ok, Answers, AnswerTo, Clean;
    if s.children[g].open { WrittenStream(env, s, g, name, params); }
  }

  lemma CleanTail(due: seq<Item>, answer: Item)
    ensures Clean(due) && !answer.StreamFailure? ==> Clean(due + [answer]) && Clean((due + [answer])[1..])
    ensures due != [] ==> (due + [answer])[0] == due[0]
    ensures due == [] ==> Clean(due) && (due + [answer])[0] == answer && (due + [answer])[1..] == []
    ensures (due + [answer]) != []
  {
  }

  lemma NotUnderstood()
    ensures forall what: string :: !Understood(TransportError(what))
  {
  }

  lemma SameCount(env: Env, s: State, t: State, g: nat)
    requires Evolved(env, s, t) && g < |s.children|
    ensures (CaughtUp(t, g) <==> CaughtUp(s, g)) && (Behind(t, g) <==> Behind(s, g))
  {
    hide Stream, Asked;
    assert ChildEvolved(env, s, s.children[g], t.children[g]);
  }

  /** The ledger after a request has been written and at most one item has been taken. */
  lemma CountAfter(s: State, t: State, r: Request)
    requires t.log == s.log + [r] && |t.children| == |s.children| && r.gen < |s.children|
    requires t.children[r.gen].taken <= s.children[r.gen].taken + 1
    ensures Behind(s, r.gen) ==> Behind(t, r.gen)
    ensures CaughtUp(s, r.gen) && t.children[r.gen].taken == s.children[r.gen].taken + 1 ==> CaughtUp(t, r.gen)
  {
    AskedSnoc(s.log, r, r.gen);
  }

  lemma OkEnv(env: Env, st: State)
    requires Ok(env, st)
    ensures GoodEnv(env)
  {
  }

  lemma OkFits(env: Env, st: State, n: nat)
    requires Ok(env, st) && n < |st.log| && RequestFits(env, st.log, n)
    ensures !AnswerTo(env, st.log, n).StreamFailure?
  {
    FitsAnswered(env, st.log, n);
  }

  lemma OutcomeIs(env: Env, st: State, n: nat, item: Item)
    requires n < |st.log|
    ensures item == AnswerTo(env, st.log, n) ==> OutcomeOf(item, env.uuid(n)) == Final(env, st, n)
    ensures !OutcomeOf(item, env.uuid(n)).TypeError?
  {
    RetriedOutcome(item, env.uuid(n));
    hide OutcomeOf, AnswerTo;
  }

  /** What running a little longer does to a client in step, and to one that is behind. */
  lemma StillInStep(env: Env, s: State, t: State, g: nat)
    requires Ok(env, s) && Evolved(env, s, t) && g < |s.children|
    ensures t.children[g].orderly == s.children[g].orderly && (t.children[g].alive ==> s.children[g].alive)
    ensures CaughtUp(t, g) <==> CaughtUp(s, g)
    ensures Prompt(s, g) && CaughtUp(s, g) ==> Prompt(t, g)
    ensures Prompt(s, g) && Behind(s, g) && Clean(Stream(env, s.log, s.children[g])) ==>
              Prompt(t, g) && Behind(t, g) && Clean(Stream(env, t.log, t.children[g]))
  {
    assert ChildEvolved(env, s, s.children[g], t.children[g]);
    SameCount(env, s, t, g);
    if Prompt(s, g) {
      OwesNothing(env, s, g);
      SureEvolved(env, s, t, g);
    }
    hide Ok, Stream;
  }

  class LocalServiceClient {
    const world: World
    const model: string
    /** Makes a path absolute, following links: the file system. */
    const resolve: string -> string
    var process: Option<nat>

    ghost predicate Valid()
      reads this, world
    {
      Ok(world.env, world.st) && (process.Some? ==> process.value < |world.st.children|)
    }

    /** The client is in step: it has no child, or an orderly one to which no request has been given up. */
    ghost predicate InStep()
      reads this, world
    {
      process.Some? ==>
        && process.value < |world.st.children| && world.st.children[process.value].orderly
        && (world.st.children[process.value].alive ==>
              world.st.children[process.value].open && CaughtUp(world.st, process.value))
    }

    /** The client has given up a request to an orderly child, which answers it after all. */
    ghost predicate FallenBehind()
      reads this, world
    {
      && process.Some? && Prompt(world.st, process.value) && Behind(world.st, process.value)
      && Clean(Stream(world.env, world.st.log, world.st.children[process.value]))
    }

    constructor (world: World, model: string, resolve: string -> string)
      requires Ok(world.env, world.st)
      ensures Valid() && InStep() && this.world == world && process == None
      ensures this.model == model && this.resolve == resolve
    {
      this.world, this.model, this.resolve, process := world, model, resolve, None;
    }

    /** Writes a request to generation g and waits for the next item of its queue. */
    method Exchange(g: nat, name: string, params: map<string, Json>) returns (ok: bool, item: Option<Item>)
      requires Ok(world.env, world.st) && g < |world.st.children|
      modifies world
      ensures Ok(world.env, world.st) && world.st.settledAt == old(world.st).settledAt
      ensures |world.st.children| == |old(world.st).children| && old(world.st).said <= world.st.said
      ensures world.st.log == old(world.st).log + [Request(g, name, params, |old(world.st).said|)]
      ensures world.st.children[g].taken
           == old(world.st).children[g].taken + (if ok && item.Some? then 1 else 0)
      ensures ok && item.Some? ==> ItemOk(world.st, g, item.value)
      ensures var due := Stream(world.env, old(world.st).log, old(world.st).children[g]);
              var answer := AnswerTo(world.env, world.st.log, |world.st.log| - 1);
              && (Sure(old(world.st), g) && ok && due != [] ==> item == Some(due[0]))
              && (Prompt(old(world.st), g) ==> ok)
              && (Prompt(old(world.st), g) && due == [] ==>
                    item == Some(answer) && Stream(world.env, world.st.log, world.st.children[g]) == [])
              && (Prompt(old(world.st), g) && Clean(due) && !answer.StreamFailure? ==>
                    Prompt(world.st, g) && Clean(Stream(world.env, world.st.log, world.st.children[g])))
    {
      hide *;
      ok := world.Write(g, name, params);
      AfterWrite(world.env, old(world.st), world.st, g, name, params);
      if !ok { return false, None; }
      item := world.Get(g);
      CleanTail(Stream(world.env, old(world.st).log, old(world.st).children[g]),
                AnswerTo(world.env, world.st.log, |world.st.log| - 1));
    }

    /** What the client makes of the answer it finds, or fails to find. */
    method Ask(g: nat, name: string, params: map<string, Json>) returns (r: Reply)
      requires Ok(world.env, world.st) && g < |world.st.children|
      modifies world
      ensures Ok(world.env, world.st) && world.st.settledAt == old(world.st).settledAt
      ensures |world.st.children| == |old(world.st).children|
      ensures world.st.log == old(world.st).log + [Request(g, name, params, |old(world.st).said|)]
      ensures Understood(r) ==> Received(world.env, world.st, |world.st.log| - 1, r)
      ensures !r.TypeError?
      ensures world.st.children[g].taken <= old(world.st).children[g].taken + 1
      ensures var due := Stream(world.env, old(world.st).log, old(world.st).children[g]);
              var n := |world.st.log| - 1;
              && (Prompt(old(world.st), g) && due == [] ==>
                    && r == Final(world.env, world.st, n)
                    && world.st.children[g].taken == old(world.st).children[g].taken + 1)
              && (Sure(old(world.st), g) && due != [] && FreshIds(world.env, world.st) ==> !Understood(r))
              && (Prompt(old(world.st), g) && Clean(due) && RequestFits(world.env, world.st.log, n) ==>
                    Prompt(world.st, g) && Clean(Stream(world.env, world.st.log, world.st.children[g])))
    {
      hide *;
      NotUnderstood();
      var ok, item := Exchange(g, name, params);
      ghost var n := |world.st.log| - 1;
      if RequestFits(world.env, world.st.log, n) { OkFits(world.env, world.st, n); }
      CleanTail(Stream(world.env, old(world.st).log, old(world.st).children[g]), StreamFailure);
      if !ok { return TransportError("AutoWhisper service is not running"); }
      match item {
        case None =>
          r := TransportError("AutoWhisper timed out");
        case Some(it) =>
          r := OutcomeOf(it, world.env.uuid(|world.st.log| - 1));
          OutcomeIs(world.env, world.st, n, it);
          ReceivedFrom(world.env, world.st, n, g, it);
          if FreshIds(world.env, world.st) && Stream(world.env, old(world.st).log, old(world.st).children[g]) != [] {
            OwedIsStale(world.env, old(world.st), g, world.st);
          }
      }
    }

    /** One request has been written since `before`, to the current child. */
    ghost predicate SentNow(before: State, name: string, params: map<string, Json>)
      reads this, world
    {
      && |world.st.log| == |before.log| + 1 && process.Some?
      && world.st.log[|before.log|].gen == process.value
      && world.st.log[|before.log|].name == name && world.st.log[|before.log|].params == params
    }

    /** Writes one request and takes the next item of the queue for its answer. With a prompt child the
        reply is the server's own answer exactly when no earlier request to this child has been given up
        and this one fits; and a client that is behind its child stays behind. */
    method RequestLocked(name: string, params: map<string, Json>) returns (r: Reply)
      requires Valid()
      modifies world
      ensures Valid() && world.st.settledAt == old(world.st).settledAt
      ensures old(world.st).log <= world.st.log
      ensures world.st.log == old(world.st).log || SentNow(old(world.st), name, params)
      ensures Understood(r) ==>
                SentNow(old(world.st), name, params) && Received(world.env, world.st, |world.st.log| - 1, r)
      ensures !r.TypeError?
      ensures process.Some? && Prompt(old(world.st), process.value) && CaughtUp(old(world.st), process.value) ==>
                && SentNow(old(world.st), name, params) && r == Final(world.env, world.st, |world.st.log| - 1)
                && (RequestFits(world.env, world.st.log, |world.st.log| - 1) ==>
                      Prompt(world.st, process.value) && CaughtUp(world.st, process.value))
      ensures process.Some? && Prompt(old(world.st), process.value) && FreshIds(world.env, world.st) ==>
                (Understood(r) <==> CaughtUp(old(world.st), process.value) && SentNow(old(world.st), name, params)
                                    && RequestFits(world.env, world.st.log, |world.st.log| - 1))
      ensures process.Some? && Behind(old(world.st), process.value) ==> Behind(world.st, process.value)
      ensures old(FallenBehind()) ==>
                && SentNow(old(world.st), name, params)
                && (RequestFits(world.env, world.st.log, |world.st.log| - 1) ==> FallenBehind())
    {
      hide Ok, Stream, Clean, Received, FreshIds, RequestFits, CaughtUp, Behind, Understood, Answered, Final;
      NotUnderstood();
      if process.None? { return TransportError("AutoWhisper service is not running"); }
      var g := process.value;
      var running := world.Running(g);
      ghost var before := world.st;
      CleanTail([], StreamFailure);
      if Prompt(old(world.st), g) {
        OwesNothing(world.env, old(world.st), g);
        SureEvolved(world.env, old(world.st), before, g);
      }
      SameCount(world.env, old(world.st), before, g);
      if !running { return TransportError("AutoWhisper service is not running"); }
      r := Ask(g, name, params);
      CountAfter(before, world.st, Request(g, name, params, |before.said|));
      OkEnv(world.env, world.st);
      FinalExact(world.env, world.st, |world.st.log| - 1);
    }

    /** Gives up the child, asking it to stop first if `polite`. */
    method StopLocked(polite: bool)
      requires Valid()
      modifies this, world
      ensures Valid() && process == None && InStep()
      ensures world.st.settledAt == old(world.st).settledAt && old(world.st).log <= world.st.log
      ensures !polite ==> world.st.log == old(world.st).log
    {
      hide Ok, Stream, Received, Answered, Final, RequestFits, Understood, FallenBehind, Behind, CaughtUp;
      if process.None? { return; }
      var g := process.value;
      var running := world.Running(g);
      if polite && running {
        var _ := RequestLocked("shutdown", map[]);
      }
      process := None;
      running := world.Running(g);
      if !running { return; }
      world.Reap(g);
    }

    /** Makes sure that a child is running and has reported ready; None is success. */
    method EnsureStartedLocked() returns (e: Option<Reply>)
      requires Valid()
      modifies this, world
      ensures Valid() && (e.None? <==> process.Some?)
      ensures world.st.settledAt == old(world.st).settledAt && old(world.st).log <= world.st.log
      ensures e.Some? ==> !e.value.Result? && !e.value.TypeError?
      ensures world.st.settledAt.Some? && OthersFit(world.env, world.st.log, |old(world.st).log|, []) ==>
                && e.None?
                && (old(InStep()) ==> InStep() && Prompt(world.st, process.value))
      ensures old(FallenBehind()) ==> e.None? && FallenBehind() && world.st.log == old(world.st).log
    {
      hide Ok, Stream, Received, Answered, Final, RequestFits, Lookup, Clean, Asked, AnswerTo;
      if process.Some? {
        var running := world.Running(process.value);
        StillInStep(world.env, old(world.st), world.st, process.value);
        if running { return None; }
      }
      StopLocked(false);
      var found: bool := *;
      if world.st.settledAt.None? && !found {
        return Some(TransportError("AutoWhisper executable not found"));
      }
      var g := world.Spawn();
      if g.None? {
        return Some(TransportError("Could not start AutoWhisper"));
      }
      process := g;
      var health := RequestLocked("health", map[]);
      HealthAnswer(|world.st.log| - 1);
      if health.Result? && Lookup(health.fields, "status") == Str("ready") {
        return None;
      }
      StopLocked(false);
      e := Some(if health.Result? then ProtocolError("AutoWhisper did not report ready") else health);
    }

    lemma HealthAnswer(n: int)
      requires Ok(world.env, world.st)
      ensures 0 <= n < |world.st.log| && world.st.log[n].name == "health" && RequestFits(world.env, world.st.log, n) ==>
                var r := Final(world.env, world.st, n);
                r.Result? && Lookup(r.fields, "status") == Str("ready")
    {
      if 0 <= n < |world.st.log| && world.st.log[n].name == "health" {
        assert |world.env.uuid(n)| == 36;
        FinalExact(world.env, world.st, n);
        AnswersAreUnderstood(world.env.services, world.env.uuid(n), "health", world.st.log[n].params);
        hide Answered, Final, RequestFits, GoodEnv;
      }
    }

    /** Request n, written since `before`, is a transcription with these parameters. */
    ghost predicate Sent(before: State, n: nat, params: map<string, Json>)
      reads this, world
    {
      && |before.log| <= n < |world.st.log|
      && world.st.log[n].name == "transcribe_file" && world.st.log[n].params == params
    }

    /** One attempt under the lock; `own` is the request it has written, if it has come to that. */
    method Attempt(params: map<string, Json>) returns (r: Reply, ghost own: seq<nat>)
      requires Valid()
      modifies this, world
      ensures Valid() && |own| <= 1 && (own != [] ==> Sent(old(world.st), own[0], params))
      ensures world.st.settledAt == old(world.st).settledAt && old(world.st).log <= world.st.log
      ensures r.Result? && FreshIds(world.env, world.st) ==>
                own != [] && AnswersRequest(world.env, world.st, own[0], r)
      ensures world.st.settledAt.Some? && OthersFit(world.env, world.st.log, |old(world.st).log|, own) ==>
                && ((!Retried(r) && FreshIds(world.env, world.st)) || old(InStep()) ==>
                      own != [] && r == Transcript(world.env, world.st, own[0]))
                && (old(InStep()) && (own != [] ==> RequestFits(world.env, world.st.log, own[0])) ==> InStep())
    {
      hide Ok, Stream, Received, Answered, FreshIds, AnswersRequest, ValidateTranscription, Final, RequestFits,
        OthersFit, FallenBehind, Asked, Behind;
      own := [];
      var e := EnsureStartedLocked();
      ghost var before := world.st;
      SettledBefore();
      if e.Some? { return e.value, []; }
      var reply := RequestLocked("transcribe_file", params);
      ghost var n := |world.st.log| - 1;
      if |world.st.log| > |before.log| { own := [n]; }
      if OthersFit(world.env, world.st.log, |old(world.st).log|, own) {
        FitEarlier(world.env, before.log, |old(world.st).log|, [], world.st.log, |old(world.st).log|, own);
      }
      if !reply.Result? {
        r := reply;
      } else {
        r := ValidateTranscription(reply.fields, world.env.uuid(|world.st.log| - 1));
        SameFields(reply.fields, world.env.uuid(|world.st.log| - 1));
      }
      if FreshIds(world.env, world.st) && Understood(reply) {
        ReceivedAnswers(world.env, world.st, n, reply);
      }
    }

    lemma SettledBefore()
      requires Ok(world.env, world.st)
      ensures world.st.settledAt.Some? ==> world.st.settledAt.value <= |world.st.log|
    {
    }

    lemma SameFields(fields: map<string, Json>, id: string)
      ensures var r := ValidateTranscription(fields, id);
              (r.Result? ==> r.fields == fields) && !r.TransportError? && !r.ServiceError?
    {
      hide Lookup, EqualsOne, KnownStatus;
    }

    method Close()
      requires Valid()
      modifies this, world
      ensures Valid() && process == None && InStep()
      ensures world.st.settledAt == old(world.st).settledAt && old(world.st).log <= world.st.log
    {
      StopLocked(true);
    }

    /** A client in step gets the server's answer exactly when the request and the answer fit. One that
        has given up a request to a child that answers after all never gets one, and stays behind. */
    method Capabilities() returns (r: Reply, ghost own: seq<nat>)
      requires Valid()
      modifies this, world
      ensures Valid() && |own| <= 1 && (own != [] ==> |old(world.st).log| <= own[0] < |world.st.log|)
      ensures own != [] ==> world.st.log[own[0]].name == "capabilities"
      ensures world.st.settledAt == old(world.st).settledAt && old(world.st).log <= world.st.log
      ensures world.st.settledAt.Some? && old(InStep()) ==>
              OthersFit(world.env, world.st.log, |old(world.st).log|, own) ==>
                && own != [] && r == Final(world.env, world.st, own[0])
                && (Understood(r) <==> RequestFits(world.env, world.st.log, own[0]))
                && (Understood(r) ==> InStep())
      ensures old(FallenBehind()) && FreshIds(world.env, world.st) ==>
                && !Understood(r) && own != []
                && (RequestFits(world.env, world.st.log, own[0]) ==> FallenBehind())
    {
      hide Ok, Stream, Received, Answered, FreshIds, AnswersRequest, Final, RequestFits, OthersFit, Asked, Clean,
        Understood;
      own := [];
      var e := EnsureStartedLocked();
      ghost var before := world.st;
      if e.Some? { return e.value, []; }
      r := RequestLocked("capabilities", map[]);
      ghost var n := |world.st.log| - 1;
      if |world.st.log| > |before.log| {
        own := [n];
        OkEnv(world.env, world.st);
        FinalExact(world.env, world.st, n);
      }
      if OthersFit(world.env, world.st.log, |old(world.st).log|, own) {
        FitEarlier(world.env, before.log, |old(world.st).log|, [], world.st.log, |old(world.st).log|, own);
      }
    }

    /** Whatever other threads do with the same client while this one does not hold the lock. */
    method OthersRun()
      requires Valid()
      modifies this, world
      ensures Valid()
      ensures world.st.settledAt == old(world.st).settledAt && old(world.st).log <= world.st.log
      ensures world.st.settledAt.Some? && old(InStep()) ==>
              OthersFit(world.env, world.st.log, |old(world.st).log|, []) ==>
                InStep()
    {
      hide *;
      var turns: int := *;
      while turns > 0
        invariant Valid()
        invariant world.st.settledAt == old(world.st).settledAt && old(world.st).log <= world.st.log
        invariant world.st.settledAt.Some? && old(InStep()) ==>
                  OthersFit(world.env, world.st.log, |old(world.st).log|, []) ==>
                    InStep()
      {
        turns := turns - 1;
        ghost var before := world.st;
        OtherTurn();
        if OthersFit(world.env, world.st.log, |old(world.st).log|, []) {
          FitEarlier(world.env, before.log, |old(world.st).log|, [], world.st.log, |old(world.st).log|, []);
          FitEarlier(world.env, world.st.log, |before.log|, [], world.st.log, |old(world.st).log|, []);
        }
      }
    }

    /** One turn of another thread under the lock. */
    method OtherTurn()
      requires Valid()
      modifies this, world
      ensures Valid()
      ensures world.st.settledAt == old(world.st).settledAt && old(world.st).log <= world.st.log
      ensures world.st.settledAt.Some? && old(InStep()) ==>
              OthersFit(world.env, world.st.log, |old(world.st).log|, []) ==>
                InStep()
    {
      hide *;
      ghost var own: seq<nat> := [];
      if * {
        var _, mine := Capabilities();
        own := mine;
      } else if * {
        Close();
      } else if * {
        StopLocked(false);
      } else {
        var params: map<string, Json> := *;
        var _, mine := Attempt(params);
        SentInRange(old(world.st), mine, params);
        own := mine;
      }
      if OthersFit(world.env, world.st.log, |old(world.st).log|, []) {
        FitEarlier(world.env, world.st.log, |old(world.st).log|, own, world.st.log, |old(world.st).log|, []);
        if own != [] { FitsOwn(world.env, world.st.log, |old(world.st).log|, own[0]); }
      }
    }

    lemma SentInRange(before: State, own: seq<nat>, params: map<string, Json>)
      requires own != [] ==> Sent(before, own[0], params)
      ensures own != [] ==> |before.log| <= own[0] < |world.st.log|
    {
    }

    function Params(path: string, language: string): map<string, Json> {
      TranscribeParams(resolve(path), language, model)
    }

    /** The end of a call of `transcribe_file`: the answer of the server to a request with this id, in terms of
        the arguments of the call. */
    function Expected(id: string, path: string, language: string): Reply {
      Transcription(world.env.services, id, resolve(path), language, model)
    }

    /** One attempt; after a transport or protocol error the child is given up. Other threads may get the
        lock between the two, and again before the next attempt. `earlier` are the requests of the attempts
        before, `mine` that of this one. */
    method Round(params: map<string, Json>, again: bool, ghost from: nat, ghost earlier: seq<nat>)
      returns (r: Reply, ghost mine: seq<nat>)
      requires Valid() && from <= |world.st.log| && forall i :: 0 <= i < |earlier| ==> earlier[i] < |world.st.log|
      modifies this, world
      ensures Valid() && |mine| <= 1 && (mine != [] ==> Sent(old(world.st), mine[0], params))
      ensures world.st.settledAt == old(world.st).settledAt && old(world.st).log <= world.st.log
      ensures r.Result? && FreshIds(world.env, world.st) ==>
                mine != [] && AnswersRequest(world.env, world.st, mine[0], r)
      ensures Retried(r) && !again ==> process == None
      ensures world.st.settledAt.Some? && OthersFit(world.env, world.st.log, from, earlier + mine) ==>
                && OthersFit(world.env, old(world.st).log, from, earlier)
                && ((!Retried(r) && FreshIds(world.env, world.st)) || old(InStep()) ==>
                      mine != [] && r == Transcript(world.env, world.st, mine[0]))
                && (Retried(r) ==> InStep())
    {
      hide Ok, Stream, Received, Answered, InStep, FreshIds, AnswersRequest, Transcript, OthersFit, RequestFits,
        Understood, FallenBehind;
      r, mine := Attempt(params);
      ghost var asked := world.st;
      if Retried(r) {
        OthersRun();
        StopLocked(false);
        if again {
          ghost var stopped := world.st.log;
          OthersRun();
          FitsSince(world.env, stopped, world.st.log, from, earlier + mine, []);
        }
      }
      FitsBefore(world.env, asked.log, world.st.log, from, earlier + mine, []);
      assert (earlier + mine) + [] == earlier + mine;
      FitsBefore(world.env, old(world.st).log, asked.log, from, earlier, mine);
      FitsSince(world.env, old(world.st).log, asked.log, from, earlier, mine);
      if mine != [] { TranscriptLater(world.env, asked, world.st, mine[0]); }
    }

    /** Two attempts. `own` are the requests of the attempts that have come to writing one.

        A result answers the request of the same attempt. Once children behave, whatever state the client
        is in, and whatever other threads do in between as long as what they and the health check ask
        fits: the call ends with what the last request comes to, and that is the server's own answer exactly
        when this request and its answer fit on the wire. */
    method TranscribeFile(path: string, language: string) returns (r: Reply, ghost own: seq<nat>)
      requires Valid()
      modifies this, world
      ensures Valid() && old(world.st).log <= world.st.log && world.st.settledAt == old(world.st).settledAt
      ensures forall i :: 0 <= i < |own| ==> Sent(old(world.st), own[i], Params(path, language))
      ensures r.Result? && FreshIds(world.env, world.st) ==>
                own != [] && AnswersRequest(world.env, world.st, own[|own| - 1], r)
      ensures Retried(r) ==> process == None
      ensures old(world.st).settledAt.Some? && GoodEngine(world.env.services) && FreshIds(world.env, world.st)
              && OthersFit(world.env, world.st.log, |old(world.st).log|, own) ==>
                && own != [] && own[|own| - 1] < |world.st.log|
                && r == Transcript(world.env, world.st, own[|own| - 1])
                && (Understood(r) <==> RequestFits(world.env, world.st.log, own[|own| - 1]))
                && (Understood(r) ==> r == Expected(world.env.uuid(own[|own| - 1]), path, language))
    {
      hide Expected, Ok, Stream, Received, Answered, InStep, FreshIds, AnswersRequest, Transcript, GoodEngine, Params,
        OthersFit, RequestFits, Understood, FallenBehind;
      var params := Params(path, language);
      r := TransportError("not attempted");
      own := [];
      ghost var env, from := world.env, |world.st.log|;
      for attempt := 0 to 2
        invariant Valid() && world.st.settledAt == old(world.st).settledAt && old(world.st).log <= world.st.log
        invariant forall i :: 0 <= i < |own| ==> Sent(old(world.st), own[i], params)
        invariant attempt == 1 && world.st.settledAt.Some? && OthersFit(env, world.st.log, from, own) ==> InStep()
        invariant attempt == 2 ==> Retried(r) && process == None
        invariant attempt == 2 && world.st.settledAt.Some? && OthersFit(env, world.st.log, from, own) ==>
                    own != [] && r == Transcript(env, world.st, own[|own| - 1])
      {
        ghost var mine;
        r, mine := Round(params, attempt == 0, from, own);
        own := own + mine;
        if !Retried(r) {
          LastExact(own, path, language);
          return;
        }
      }
      LastExact(own, path, language);
    }

    lemma LastExact(own: seq<nat>, path: string, language: string)
      requires Valid() && (own != [] ==> own[|own| - 1] < |world.st.log|)
      requires own != [] ==> world.st.log[own[|own| - 1]].name == "transcribe_file"
      requires own != [] ==> world.st.log[own[|own| - 1]].params == Params(path, language)
      ensures own != [] && GoodEngine(world.env.services) ==>
                var r := Transcript(world.env, world.st, own[|own| - 1]);
                && (Understood(r) <==> RequestFits(world.env, world.st.log, own[|own| - 1]))
                && (Understood(r) ==> r == Expected(world.env.uuid(own[|own| - 1]), path, language))
    {
      hide Transcript, RequestFits, GoodEngine, Understood, Answered, Transcription, TranscribeParams;
      if own != [] && GoodEngine(world.env.services) {
        var n := own[|own| - 1];
        assert |world.env.uuid(n)| == 36;
        TranscriptExact(world.env, world.st, n);
        TranscriptionAnswered(world.env.services, world.env.uuid(n), resolve(path), language, model);
      }
    }

    /** Whatever has become of the client, from the moment children behave: a run of the client across that
        moment into a transcription ends as above. */
    method SettleAndTranscribe(path: string, language: string) returns (r: Reply, ghost own: seq<nat>)
      requires Valid() && world.st.settledAt.None?
      modifies this, world
      ensures Valid() && (Retried(r) ==> process == None) && world.st.settledAt.Some?
      ensures GoodEngine(world.env.services) && FreshIds(world.env, world.st)
              && OthersFit(world.env, world.st.log, world.st.settledAt.value, own) ==>
                && own != [] && own[|own| - 1] < |world.st.log|
                && (Understood(r) <==> RequestFits(world.env, world.st.log, own[|own| - 1]))
                && (Understood(r) ==> r == Expected(world.env.uuid(own[|own| - 1]), path, language))
    {
      hide Expected, Ok, Stream, Received, Answered, InStep, FreshIds, AnswersRequest, Transcript, GoodEngine, Params,
        OthersFit, RequestFits, Understood, FallenBehind, Sent;
      OthersRun();
      world.Settle();
      r, own := TranscribeFile(path, language);
    }
  }
}
