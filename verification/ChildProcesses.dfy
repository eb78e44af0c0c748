/** The world around the Fabric client: the children it has started, one generation after the
    other, the pipes to them, and what they have said. Children may die, fall silent, talk
    nonsense or answer late, at any time and in any interleaving with the client. */
module ChildProcesses {
  import opened Options
  import opened SeqFacts
  import opened Json
  import opened LocalProtocol
  import opened ResponseChecks
  import opened Wire

  /** A request that the client has written: to which generation, and how much had been said by then. */
  datatype Request = Request(gen: nat, name: string, params: map<string, Json>, saidBefore: nat)

  /** A line with a JSON payload that a child has emitted; `cause` is the request it answers, if any. */
  datatype Said = Said(gen: nat, payload: Json, cause: Option<nat>)

  /** An orderly child answers its requests one after the other, as the stdio server does. `open` says
      whether the client's reader still listens to it; `taken` counts the items the client has taken. */
  datatype Child = Child(alive: bool, orderly: bool, open: bool, pending: seq<nat>, queue: seq<Item>, taken: nat)

  /** The engine behind the server, the JSON libraries, and the naming of requests by uuid4 strings. */
  datatype Env = Env(services: Services, codec: Codec, uuid: nat -> string)

  /** All children so far, by generation; all requests written; all payloads emitted; and the number
      of requests written when children began to behave, once they have. */
  datatype State = State(children: seq<Child>, log: seq<Request>, said: seq<Said>, settledAt: Option<nat>)

  ghost predicate GoodEnv(env: Env) {
    Lossless(env.services, env.codec) && forall n: nat :: |env.uuid(n)| == 36
  }

  predicate HasId(payload: Json, id: string) {
    payload.Obj? && Lookup(payload.fields, "id") == Str(id)
  }

  predicate NoId(payload: Json) {
    payload.Obj? && Lookup(payload.fields, "id") == Null
  }

  function RequestOf(env: Env, log: seq<Request>, n: nat): Json
    requires n < |log|
  {
    RequestJson(env.uuid(n), log[n].name, log[n].params)
  }

  /** What the client's reader makes of the server's answer to request n. */
  function AnswerTo(env: Env, log: seq<Request>, n: nat): Item {
    if n < |log| then Heard(env.services, env.codec, RequestOf(env, log, n)) else StreamFailure
  }

  /** The server cannot print its answer to request n, and ends. */
  predicate Crashes(env: Env, log: seq<Request>, n: nat) {
    n < |log| && Printed(env.services, env.codec, RequestOf(env, log, n)).None?
  }

  /** Request n and its answer both fit on the wire. */
  predicate RequestFits(env: Env, log: seq<Request>, n: nat)
    requires n < |log|
  {
    Fits(env.services, env.codec, RequestOf(env, log, n))
  }

  predicate Settled(st: State, m: nat) { st.settledAt.Some? && st.settledAt.value <= m }

  /** Children do not forge: a payload that carries the id of a request already written comes from
      the generation that got the request, after it was written; and from the time at which children
      begin to behave, it is the server's answer. */
  predicate Honest(env: Env, st: State, k: nat, s: Said) {
    match s.cause
    case Some(m) =>
      && m < |st.log| && st.log[m].gen == s.gen && st.log[m].saidBefore <= k
      && (HasId(s.payload, env.uuid(m)) || NoId(s.payload))
      && (Settled(st, m) ==> AnswerTo(env, st.log, m) == Line(Some(s.payload)))
    case None =>
      forall n :: 0 <= n < |st.log| && st.log[n].saidBefore <= k ==> !HasId(s.payload, env.uuid(n))
  }

  /** The ids of the requests are distinct, and none had been uttered before it was issued. */
  predicate FreshIds(env: Env, st: State) {
    && (forall m, n :: 0 <= m < n < |st.log| ==> env.uuid(m) != env.uuid(n))
    && (forall n, k :: 0 <= n < |st.log| && 0 <= k < |st.said| && k < st.log[n].saidBefore ==>
          !HasId(st.said[k].payload, env.uuid(n)))
  }

  ghost predicate WasSaid(st: State, g: nat, payload: Json) {
    exists k :: 0 <= k < |st.said| && st.said[k].gen == g && st.said[k].payload == payload
  }

  ghost predicate ItemOk(st: State, g: nat, item: Item) {
    item.Line? && item.payload.Some? ==> WasSaid(st, g, item.payload.value)
  }

  /** How many requests have been written to generation g. */
  function Asked(log: seq<Request>, g: nat): nat {
    if log == [] then 0 else Asked(log[..|log| - 1], g) + (if log[|log| - 1].gen == g then 1 else 0)
  }

  predicate Clean(items: seq<Item>) { StreamFailure !in items }

  /** The requests to an orderly child are all accounted for: taken, queued, or still to be answered. */
  ghost predicate ChildOk(st: State, g: nat, c: Child) {
    && (forall i :: 0 <= i < |c.pending| ==> c.pending[i] < |st.log| && st.log[c.pending[i]].gen == g)
    && (forall i :: 0 <= i < |c.queue| ==> ItemOk(st, g, c.queue[i]))
    && (c.open ==> Clean(c.queue))
    && (c.orderly && c.alive && c.open ==> c.taken + |c.queue| + |c.pending| == Asked(st.log, g))
  }

  ghost predicate RequestOk(st: State, r: Request) { r.gen < |st.children| && r.saidBefore <= |st.said| }

  /** The invariant of every run. */
  ghost predicate Ok(env: Env, st: State) {
    && GoodEnv(env)
    && (forall n :: 0 <= n < |st.log| ==> RequestOk(st, st.log[n]))
    && (forall g :: 0 <= g < |st.children| ==> ChildOk(st, g, st.children[g]))
    && (forall k :: 0 <= k < |st.said| ==> Honest(env, st, k, st.said[k]))
    && (st.settledAt.Some? ==> st.settledAt.value <= |st.log|)
  }

  // ---------------------------------------------------------------- what a child will deliver

  /** The answers to the pending requests, up to the first that the reader gives up on. */
  function Answers(env: Env, log: seq<Request>, pending: seq<nat>): seq<Item> {
    if pending == [] then []
    else
      var first := AnswerTo(env, log, pending[0]);
      [first] + (if first.StreamFailure? then [] else Answers(env, log, pending[1..]))
  }

  /** Everything an orderly child is going to deliver: what is queued, then the pending answers. */
  function Stream(env: Env, log: seq<Request>, c: Child): seq<Item> {
    c.queue + (if c.open then Answers(env, log, c.pending) else [])
  }

  lemma {:induction false} AnswersGrow(env: Env, log: seq<Request>, r: Request, pending: seq<nat>)
    requires forall i :: 0 <= i < |pending| ==> pending[i] < |log|
    ensures Answers(env, log + [r], pending) == Answers(env, log, pending)
  {
    hide RequestJson, Heard;
    if pending != [] {
      assert (log + [r])[pending[0]] == log[pending[0]];
      AnswersGrow(env, log, r, pending[1..]);
    }
  }

  lemma {:induction false} AnswersSnoc(env: Env, log: seq<Request>, pending: seq<nat>, n: nat)
    ensures var before := Answers(env, log, pending);
            Answers(env, log, pending + [n]) == if Clean(before) then before + [AnswerTo(env, log, n)] else before
  {
    hide AnswerTo;
    if pending == [] {
      assert Answers(env, log, [n]) == [AnswerTo(env, log, n)] by { assert [n][1..] == []; }
      assert pending + [n] == [n];
    } else {
      assert (pending + [n])[1..] == pending[1..] + [n];
      AnswersSnoc(env, log, pending[1..], n);
    }
  }

  // ---------------------------------------------------------------- the steps of the world

  /** The state after generation g has become `c`; nothing else has changed. */
  function WithChild(st: State, g: nat, c: Child): State
    requires g < |st.children|
  {
    st.(children := st.children[g := c])
  }

  /** An item arrives in the queue of a child; after a failure nothing is read any more. */
  function Enqueued(c: Child, item: Item): Child {
    c.(queue := c.queue + [item], open := c.open && !item.StreamFailure?)
  }

  /** Generation g, having become `c`, has emitted a payload. */
  function Say(st: State, g: nat, c: Child, payload: Json, cause: Option<nat>): State
    requires g < |st.children|
  {
    WithChild(st, g, c).(said := st.said + [Said(g, payload, cause)])
  }

  /** An orderly child answers its oldest pending request. If it cannot print the answer, it ends. */
  function Answer(env: Env, st: State, g: nat): State
    requires g < |st.children| && st.children[g].pending != []
  {
    var c := st.children[g];
    var n := c.pending[0];
    var item := AnswerTo(env, st.log, n);
    var c' := Enqueued(c.(pending := c.pending[1..], alive := c.alive && !Crashes(env, st.log, n)), item);
    if item.Line? && item.payload.Some? then Say(st, g, c', item.payload.value, Some(n)) else WithChild(st, g, c')
  }

  /** A request is written to generation g; `received` tells whether the child gets it. */
  function Written(st: State, g: nat, name: string, params: map<string, Json>, received: bool): State
    requires g < |st.children|
  {
    var c := st.children[g];
    var c' := if received then c.(pending := c.pending + [|st.log|]) else c;
    st.(log := st.log + [Request(g, name, params, |st.said|)], children := st.children[g := c'])
  }

  /** The client takes the first item of the queue of generation g. */
  function Popped(st: State, g: nat): State
    requires g < |st.children| && st.children[g].queue != []
  {
    var c := st.children[g];
    WithChild(st, g, c.(queue := c.queue[1..], taken := c.taken + 1))
  }

  /** A new child. */
  function Started(st: State, orderly: bool): State {
    st.(children := st.children + [Child(true, orderly, true, [], [], 0)])
  }

  /** From now on children behave. */
  function Settling(st: State): State {
    if st.settledAt.None? then st.(settledAt := Some(|st.log|)) else st
  }

  lemma HonestLater(env: Env, st: State, st': State, k: nat, s: Said)
    requires Honest(env, st, k, s) && st.log == st'.log && st.settledAt == st'.settledAt
    ensures Honest(env, st', k, s)
  {
  }

  lemma ItemOkLater(st: State, st': State, g: nat, item: Item)
    requires ItemOk(st, g, item) && st.said <= st'.said
    ensures ItemOk(st', g, item)
  {
    if item.Line? && item.payload.Some? {
      var k :| 0 <= k < |st.said| && st.said[k].gen == g && st.said[k].payload == item.payload.value;
      assert st'.said[k] == st.said[k];
    }
  }

  lemma ChildOkLater(st: State, st': State, g: nat, c: Child)
    requires ChildOk(st, g, c) && st.log == st'.log && st.said <= st'.said
    ensures ChildOk(st', g, c)
  {
    hide ItemOk;
    forall i | 0 <= i < |c.queue| ensures ItemOk(st', g, c.queue[i]) {
      ItemOkLater(st, st', g, c.queue[i]);
    }
  }

  lemma WithChildOk(env: Env, st: State, g: nat, c: Child)
    requires Ok(env, st) && g < |st.children| && ChildOk(st, g, c)
    ensures Ok(env, WithChild(st, g, c))
  {
    hide GoodEnv, AnswerTo, Lookup, HasId, NoId;
    var st' := WithChild(st, g, c);
    forall h | 0 <= h < |st'.children| ensures ChildOk(st', h, st'.children[h]) {
      ChildOkLater(st, st', h, st'.children[h]);
    }
    forall k | 0 <= k < |st'.said| ensures Honest(env, st', k, st'.said[k]) {
      HonestLater(env, st, st', k, st.said[k]);
    }
  }

  /** `c'` is `c` with one more item; an orderly child has one request less to answer. */
  lemma ReceivedOk(st: State, g: nat, c: Child, c': Child, item: Item)
    requires ChildOk(st, g, c) && c.open && ItemOk(st, g, item)
    requires c.orderly ==> |c'.pending| + 1 == |c.pending|
    requires c'.queue == c.queue + [item] && c'.open == !item.StreamFailure? && c'.taken == c.taken
    requires c'.orderly == c.orderly && (c'.alive ==> c.alive)
    requires forall i :: 0 <= i < |c'.pending| ==> c'.pending[i] in c.pending
    ensures ChildOk(st, g, c')
  {
    hide ItemOk;
    forall i | 0 <= i < |c'.queue| ensures ItemOk(st, g, c'.queue[i]) {
      if i < |c.queue| { assert ItemOk(st, g, c.queue[i]); }
    }
  }

  lemma SaidLast(st: State, g: nat, payload: Json, cause: Option<nat>)
    ensures ItemOk(st.(said := st.said + [Said(g, payload, cause)]), g, Line(Some(payload)))
  {
    assert (st.said + [Said(g, payload, cause)])[|st.said|] == Said(g, payload, cause);
  }

  /** A payload is said and read by an open child, which thereby becomes `c`. */
  lemma SayOk(env: Env, st: State, g: nat, c: Child, payload: Json, cause: Option<nat>)
    requires Ok(env, st) && g < |st.children| && Honest(env, st, |st.said|, Said(g, payload, cause))
    requires ChildOk(st.(said := st.said + [Said(g, payload, cause)]), g, c)
    ensures Ok(env, Say(st, g, c, payload, cause))
  {
    hide GoodEnv, AnswerTo, Lookup, HasId, NoId;
    var st' := Say(st, g, c, payload, cause);
    assert st'.said[|st.said|] == Said(g, payload, cause);
    forall h | 0 <= h < |st'.children| ensures ChildOk(st', h, st'.children[h]) {
      if h == g {
        ChildOkLater(st.(said := st.said + [Said(g, payload, cause)]), st', g, c);
      } else {
        ChildOkLater(st, st', h, st.children[h]);
      }
    }
    forall k | 0 <= k < |st'.said| ensures Honest(env, st', k, st'.said[k]) {
      HonestLater(env, st, st', k, st'.said[k]);
    }
  }

  lemma HonestAfterWrite(env: Env, st: State, st': State, r: Request, k: nat, s: Said)
    requires Honest(env, st, k, s) && k < |st.said| && r.saidBefore == |st.said|
    requires st'.log == st.log + [r] && st'.settledAt == st.settledAt
    ensures Honest(env, st', k, s)
  {
    hide Heard, RequestJson;
    assert forall n :: 0 <= n < |st.log| ==> st'.log[n] == st.log[n];
  }

  lemma AskedSnoc(log: seq<Request>, r: Request, g: nat)
    ensures Asked(log + [r], g) == Asked(log, g) + (if r.gen == g then 1 else 0)
  {
    assert (log + [r])[..|log|] == log;
  }

  lemma ChildOkAfterWrite(st: State, st': State, r: Request, g: nat, c: Child, c': Child)
    requires ChildOk(st, g, c) && st'.log == st.log + [r] && st'.said == st.said
    requires c' == if r.gen == g then c.(pending := c'.pending) else c
    requires r.gen == g ==> c'.pending == c.pending + [|st.log|] || (c'.pending == c.pending && !(c.orderly && c.alive))
    ensures ChildOk(st', g, c')
  {
    hide ItemOk, Asked;
    AskedSnoc(st.log, r, g);
    forall i | 0 <= i < |c'.queue| ensures ItemOk(st', g, c'.queue[i]) {
      ItemOkLater(st, st', g, c.queue[i]);
    }
    assert forall i :: 0 <= i < |c.pending| ==> st'.log[c.pending[i]] == st.log[c.pending[i]];
  }

  /** A request to an orderly live child gets through. */
  lemma WrittenOk(env: Env, st: State, g: nat, name: string, params: map<string, Json>, received: bool)
    requires Ok(env, st) && g < |st.children|
    requires st.children[g].orderly && st.children[g].alive ==> received
    ensures Ok(env, Written(st, g, name, params, received))
  {
    hide GoodEnv, AnswerTo, Lookup, HasId, NoId;
    var st' := Written(st, g, name, params, received);
    var r := Request(g, name, params, |st.said|);
    forall h | 0 <= h < |st'.children| ensures ChildOk(st', h, st'.children[h]) {
      ChildOkAfterWrite(st, st', r, h, st.children[h], st'.children[h]);
    }
    forall k | 0 <= k < |st'.said| ensures Honest(env, st', k, st'.said[k]) {
      HonestAfterWrite(env, st, st', r, k, st.said[k]);
    }
    forall n | 0 <= n < |st'.log| ensures RequestOk(st', st'.log[n]) {
      if n < |st.log| { assert RequestOk(st, st.log[n]); }
    }
  }

  lemma {:induction false} NothingAsked(log: seq<Request>, g: nat)
    requires forall n :: 0 <= n < |log| ==> log[n].gen < g
    ensures Asked(log, g) == 0
  {
    if log != [] { NothingAsked(log[..|log| - 1], g); }
  }

  lemma StartedOk(env: Env, st: State, orderly: bool)
    requires Ok(env, st)
    ensures Ok(env, Started(st, orderly))
  {
    hide GoodEnv, AnswerTo, Lookup, HasId, NoId;
    var st' := Started(st, orderly);
    assert forall n :: 0 <= n < |st.log| ==> RequestOk(st, st.log[n]);
    NothingAsked(st.log, |st.children|);
    forall h | 0 <= h < |st'.children| ensures ChildOk(st', h, st'.children[h]) {
      if h < |st.children| { ChildOkLater(st, st', h, st.children[h]); }
    }
    forall k | 0 <= k < |st'.said| ensures Honest(env, st', k, st'.said[k]) {
      HonestLater(env, st, st', k, st.said[k]);
    }
    forall n | 0 <= n < |st'.log| ensures RequestOk(st', st'.log[n]) {
      assert RequestOk(st, st.log[n]);
    }
  }

  lemma SettlingOk(env: Env, st: State)
    requires Ok(env, st)
    ensures Ok(env, Settling(st))
  {
    hide GoodEnv, AnswerTo, Lookup, HasId, NoId;
    var st' := Settling(st);
    forall h | 0 <= h < |st'.children| ensures ChildOk(st', h, st'.children[h]) {
      ChildOkLater(st, st', h, st.children[h]);
    }
    forall k | 0 <= k < |st'.said| ensures Honest(env, st', k, st'.said[k]) {
      assert Honest(env, st, k, st.said[k]);
    }
    forall n | 0 <= n < |st'.log| ensures RequestOk(st', st'.log[n]) {
      assert RequestOk(st, st.log[n]);
    }
  }

  lemma ResponseHasId(services: Services, id: string, name: string, params: map<string, Json>)
    requires 0 < |id| <= 128
    ensures HasId(Respond(services, RequestJson(id, name, params)), id)
  {
    var request := RequestJson(id, name, params);
    OwnRequestAccepted(id, name, params);
    hide Check, Dispatch, RequestJson;
    var ok, result, error := DispatchShape(services, id, request.fields, name);
  }

  /** The server's answer to a request carries the request's id, or none if the request did not fit. */
  lemma AnswerIds(env: Env, log: seq<Request>, n: nat)
    requires GoodEnv(env) && n < |log|
    ensures var item := AnswerTo(env, log, n);
            item.Line? && item.payload.Some? ==> HasId(item.payload.value, env.uuid(n)) || NoId(item.payload.value)
  {
    assert |env.uuid(n)| == 36;
    var request := RequestOf(env, log, n);
    if Fits(env.services, env.codec, request) {
      FitsHeard(env.services, env.codec, request);
      ResponseHasId(env.services, env.uuid(n), log[n].name, log[n].params);
    } else {
      MisfitHeard(env.services, env.codec, request);
    }
    hide Heard, RequestJson, Lookup;
  }

  // ---------------------------------------------------------------- runs of the world

  /** What may have become of a child while only the world was at work. Once children behave, an
      orderly one delivers what it was going to deliver; it ends, or is no longer listened to, only
      when it has failed to deliver something. */
  ghost predicate ChildEvolved(env: Env, st: State, c: Child, c': Child) {
    && c'.orderly == c.orderly && c'.taken == c.taken && (c'.alive ==> c.alive) && (c'.open ==> c.open)
    && (st.settledAt.Some? && c.orderly && c.alive && c.open ==>
          && Stream(env, st.log, c') == Stream(env, st.log, c) && (c'.open ==> c'.alive)
          && (Clean(Stream(env, st.log, c)) ==> c'.open))
    && (c.orderly && !c.open ==> c'.queue == c.queue)
  }

  ghost predicate Evolved(env: Env, st: State, st': State) {
    && st'.log == st.log && st'.settledAt == st.settledAt && |st'.children| == |st.children| && st.said <= st'.said
    && forall g :: 0 <= g < |st.children| ==> ChildEvolved(env, st, st.children[g], st'.children[g])
  }

  lemma EvolvedRefl(env: Env, st: State)
    ensures Evolved(env, st, st)
  {
    hide Stream;
  }

  lemma ChildEvolvedTrans(env: Env, st: State, c: Child, c1: Child, c2: Child)
    requires ChildEvolved(env, st, c, c1) && ChildEvolved(env, st, c1, c2)
    ensures ChildEvolved(env, st, c, c2)
  {
    hide Answers;
  }

  lemma EvolvedTrans(env: Env, s0: State, s1: State, s2: State)
    requires Evolved(env, s0, s1) && Evolved(env, s1, s2)
    ensures Evolved(env, s0, s2)
  {
    hide Stream;
    forall g | 0 <= g < |s0.children| ensures ChildEvolved(env, s0, s0.children[g], s2.children[g]) {
      assert ChildEvolved(env, s0, s0.children[g], s1.children[g]);
      assert ChildEvolved(env, s1, s1.children[g], s2.children[g]);
      ChildEvolvedTrans(env, s0, s0.children[g], s1.children[g], s2.children[g]);
    }
  }

  lemma OneEvolved(env: Env, st: State, st': State, g: nat)
    requires g < |st.children| == |st'.children| && ChildEvolved(env, st, st.children[g], st'.children[g])
    requires st' == st.(children := st.children[g := st'.children[g]], said := st'.said) && st.said <= st'.said
    ensures Evolved(env, st, st')
  {
    hide Stream;
  }

  lemma AnswerStream(env: Env, log: seq<Request>, c: Child, c': Child)
    requires c.open && c.pending != []
    requires var item := AnswerTo(env, log, c.pending[0]);
             && c'.queue == c.queue + [item] && c'.pending == c.pending[1..] && c'.open == !item.StreamFailure?
    ensures Stream(env, log, c') == Stream(env, log, c)
  {
    hide AnswerTo;
    var first := AnswerTo(env, log, c.pending[0]);
    Assoc(c.queue, [first], if first.StreamFailure? then [] else Answers(env, log, c.pending[1..]));
    assert c'.queue + [] == c'.queue;
  }

  /** A server that ends leaves a closed stream behind. */
  lemma CrashIsFailure(env: Env, log: seq<Request>, n: nat)
    requires n < |log|
    ensures Crashes(env, log, n) ==> AnswerTo(env, log, n).StreamFailure?
  {
    hide Printed, RequestOf;
  }

  lemma AnswerOk(env: Env, st: State, g: nat)
    requires Ok(env, st) && g < |st.children| && st.children[g].pending != []
    requires st.children[g].orderly && st.children[g].alive && st.children[g].open
    ensures var st' := Answer(env, st, g);
            && Ok(env, st') && Evolved(env, st, st')
            && Stream(env, st.log, st'.children[g]) == Stream(env, st.log, st.children[g])
            && st'.children[g].queue != []
  {
    var c := st.children[g];
    var n := c.pending[0];
    var st' := Answer(env, st, g);
    var c' := st'.children[g];
    assert ChildOk(st, g, c) && RequestOk(st, st.log[n]);
    AnswerIds(env, st.log, n);
    CrashIsFailure(env, st.log, n);
    hide AnswerTo, Crashes, Lookup, HasId, NoId, FreshIds, GoodEnv;
    var item := AnswerTo(env, st.log, n);
    AnswerStream(env, st.log, c, c');
    if item.Line? && item.payload.Some? {
      SaidLast(st, g, item.payload.value, Some(n));
      var st1 := st.(said := st.said + [Said(g, item.payload.value, Some(n))]);
      ChildOkLater(st, st1, g, c);
      ReceivedOk(st1, g, c, c', item);
      SayOk(env, st, g, c', item.payload.value, Some(n));
    } else {
      ReceivedOk(st, g, c, c', item);
      WithChildOk(env, st, g, c');
    }
    hide Ok;
    OneEvolved(env, st, st', g);
  }

  /** A received request adds its answer to what the child will deliver, unless it gives up before. */
  lemma WrittenStream(env: Env, st: State, g: nat, name: string, params: map<string, Json>)
    requires Ok(env, st) && g < |st.children| && st.children[g].open
    ensures var st' := Written(st, g, name, params, true);
            var before := Stream(env, st.log, st.children[g]);
            Stream(env, st'.log, st'.children[g])
            == if Clean(before) then before + [AnswerTo(env, st'.log, |st.log|)] else before
  {
    hide GoodEnv, Lookup, HasId, NoId, RequestJson, Heard;
    var c := st.children[g];
    var r := Request(g, name, params, |st.said|);
    assert ChildOk(st, g, c);
    AnswersGrow(env, st.log, r, c.pending);
    AnswersSnoc(env, st.log + [r], c.pending, |st.log|);
    hide AnswerTo, Answers, Honest;
    var answers := Answers(env, st.log, c.pending);
    assert Clean(c.queue) && (Clean(c.queue + answers) <==> Clean(answers));
    Assoc(c.queue, answers, [AnswerTo(env, st.log + [r], |st.log|)]);
  }

  /** An orderly child that will answer, and is listened to: nobody can disturb it any more. */
  predicate Prompt(st: State, g: nat) {
    && st.settledAt.Some? && g < |st.children| && st.children[g].orderly && st.children[g].alive
    && st.children[g].open
  }

  /** An orderly child whose stream is settled: what the client will find in its queue cannot change. */
  predicate Sure(st: State, g: nat) {
    st.settledAt.Some? && g < |st.children| && st.children[g].orderly && (st.children[g].open ==> st.children[g].alive)
  }

  /** No request to this child has been given up: for each, an item has been taken. */
  predicate CaughtUp(st: State, g: nat)
    requires g < |st.children|
  {
    st.children[g].taken == Asked(st.log, g)
  }

  /** Some request to this child has been given up. */
  predicate Behind(st: State, g: nat)
    requires g < |st.children|
  {
    st.children[g].taken < Asked(st.log, g)
  }

  /** A child owes nothing exactly when no request to it has been given up. */
  lemma OwesNothing(env: Env, st: State, g: nat)
    requires Ok(env, st) && g < |st.children|
    requires st.children[g].orderly && st.children[g].alive && st.children[g].open
    ensures CaughtUp(st, g) <==> Stream(env, st.log, st.children[g]) == []
    ensures CaughtUp(st, g) <==> st.children[g].queue == [] && st.children[g].pending == []
    ensures st.children[g].taken <= Asked(st.log, g)
  {
    assert ChildOk(st, g, st.children[g]);
    hide AnswerTo, Asked, Honest, GoodEnv;
  }

  lemma NothingQueued(env: Env, log: seq<Request>, c: Child)
    requires c.queue == []
    ensures Stream(env, log, c) == [] <==> !c.open || c.pending == []
  {
    hide AnswerTo;
  }

  lemma TailOk(st: State, g: nat, c: Child)
    requires ChildOk(st, g, c) && c.queue != []
    ensures ChildOk(st, g, c.(queue := c.queue[1..], taken := c.taken + 1)) && ItemOk(st, g, c.queue[0])
  {
    hide ItemOk, Asked;
    var c' := c.(queue := c.queue[1..], taken := c.taken + 1);
    forall i | 0 <= i < |c'.queue| ensures ItemOk(st, g, c'.queue[i]) { assert ItemOk(st, g, c.queue[i + 1]); }
  }

  lemma TailStream(env: Env, log: seq<Request>, c: Child)
    requires c.queue != []
    ensures Stream(env, log, c) == [c.queue[0]] + Stream(env, log, c.(queue := c.queue[1..], taken := c.taken + 1))
  {
    hide Answers;
    Assoc([c.queue[0]], c.queue[1..], if c.open then Answers(env, log, c.pending) else []);
  }

  lemma PoppedOk(env: Env, st: State, g: nat)
    requires Ok(env, st) && g < |st.children| && st.children[g].queue != []
    ensures var c, st' := st.children[g], Popped(st, g);
            && Ok(env, st') && ItemOk(st', g, c.queue[0])
            && Stream(env, st.log, c) == [c.queue[0]] + Stream(env, st.log, st'.children[g])
  {
    var c := st.children[g];
    assert ChildOk(st, g, c);
    hide Ok, ChildOk, ItemOk, Stream;
    TailOk(st, g, c);
    TailStream(env, st.log, c);
    WithChildOk(env, st, g, c.(queue := c.queue[1..], taken := c.taken + 1));
    ItemOkLater(st, Popped(st, g), g, c.queue[0]);
  }

  lemma NewCaughtUp(env: Env, st: State, orderly: bool)
    requires Ok(env, st)
    ensures CaughtUp(Started(st, orderly), |st.children|)
  {
    hide GoodEnv, Honest;
    assert forall n :: 0 <= n < |st.log| ==> RequestOk(st, st.log[n]);
    NothingAsked(st.log, |st.children|);
  }

  lemma SureEvolved(env: Env, st: State, st': State, g: nat)
    requires Sure(st, g) && Evolved(env, st, st')
    ensures Sure(st', g) && Stream(env, st'.log, st'.children[g]) == Stream(env, st.log, st.children[g])
    ensures Prompt(st, g) && Clean(Stream(env, st.log, st.children[g])) ==> Prompt(st', g)
    ensures CaughtUp(st', g) <==> CaughtUp(st, g)
    ensures Behind(st', g) <==> Behind(st, g)
  {
    hide Answers, Clean, Asked;
    assert ChildEvolved(env, st, st.children[g], st'.children[g]);
  }

  lemma ClosedStream(env: Env, log: seq<Request>, c: Child)
    requires !c.open
    ensures Stream(env, log, c) == c.queue
  {
  }

  /** An item that answers no request but an earlier one. */
  lemma StaleItem(env: Env, st: State, g: nat, item: Item, st': State)
    requires Ok(env, st) && FreshIds(env, st') && st.log < st'.log && st.said <= st'.said
    requires st'.log[|st.log|].saidBefore == |st.said|
    requires ItemOk(st, g, item) || exists m :: 0 <= m < |st.log| && item == AnswerTo(env, st.log, m)
    ensures !Understood(OutcomeOf(item, env.uuid(|st.log|)))
  {
    var n := |st.log|;
    RetriedOutcome(item, env.uuid(n));
    if item.Line? && item.payload.Some? {
      WrongIdRejected(item.payload.value, env.uuid(n));
      hide AnswerTo, ValidateResponse, OutcomeOf, Honest;
      if ItemOk(st, g, item) {
        var k :| 0 <= k < |st.said| && st.said[k].gen == g && st.said[k].payload == item.payload.value;
        assert st'.said[k] == st.said[k];
      } else {
        var m :| 0 <= m < |st.log| && item == AnswerTo(env, st.log, m);
        AnswerIds(env, st.log, m);
        assert env.uuid(m) != env.uuid(n);
      }
    }
  }

  /** Whatever a child still owes is of no use to the next request. */
  lemma OwedIsStale(env: Env, st: State, g: nat, st': State)
    requires Ok(env, st) && g < |st.children| && Stream(env, st.log, st.children[g]) != []
    requires FreshIds(env, st') && st.log < st'.log && st.said <= st'.said && st'.log[|st.log|].saidBefore == |st.said|
    ensures !Understood(OutcomeOf(Stream(env, st.log, st.children[g])[0], env.uuid(|st.log|)))
  {
    var c := st.children[g];
    assert ChildOk(st, g, c);
    hide AnswerTo, OutcomeOf, FreshIds, Understood, Honest, GoodEnv;
    StaleItem(env, st, g, Stream(env, st.log, c)[0], st');
  }

  class World {
    const env: Env
    var st: State

    constructor (env: Env)
      requires GoodEnv(env)
      ensures this.env == env && st == State([], [], [], None) && Ok(env, st)
    {
      this.env := env;
      st := State([], [], [], None);
    }

    /** From now on children behave: new ones are orderly and prompt, old ones answer new requests
        correctly if they answer them at all. */
    method Settle()
      requires Ok(env, st)
      modifies this
      ensures Ok(env, st) && st == Settling(old(st))
    {
      SettlingOk(env, st);
      st := Settling(st);
    }

    method Become(g: nat, c: Child)
      requires Ok(env, st) && g < |st.children| && ChildOk(st, g, c)
      modifies this
      ensures Ok(env, st) && st == WithChild(old(st), g, c)
    {
      WithChildOk(env, st, g, c);
      st := WithChild(st, g, c);
    }

    /** One thing that some child does on its own. */
    method Step()
      requires Ok(env, st)
      modifies this
      ensures Ok(env, st) && Evolved(env, old(st), st)
    {
      hide GoodEnv, AnswerTo, Lookup, HasId, NoId, FreshIds, Stream, Honest;
      EvolvedRefl(env, st);
      var g: int := *;
      if g < 0 || g >= |st.children| { return; }
      var c := st.children[g];
      assert ChildOk(st, g, c);
      if !c.orderly {
        Misbehave(g);
      } else if c.alive && c.open && c.pending != [] {
        AnswerOk(env, st, g);
        st := Answer(env, st, g);
      } else if st.settledAt.None? {
        Become(g, c.(alive := false));
        OneEvolved(env, old(st), st, g);
      } else if !c.alive && c.open {
        EndOfStream(g);
      }
    }

    /** The reader has come to the end of the output of a child that has ended. */
    method EndOfStream(g: nat)
      requires Ok(env, st) && g < |st.children| && !st.children[g].alive && st.children[g].open
      modifies this
      ensures Ok(env, st) && Evolved(env, old(st), st)
    {
      hide GoodEnv, AnswerTo, Lookup, HasId, NoId, FreshIds, Stream, Honest, WasSaid;
      var c := st.children[g];
      assert ChildOk(st, g, c);
      var c' := Enqueued(c, StreamFailure);
      forall i | 0 <= i < |c'.queue| ensures ItemOk(st, g, c'.queue[i]) {
        if i < |c.queue| { assert ItemOk(st, g, c.queue[i]); }
      }
      Become(g, c');
      OneEvolved(env, old(st), st, g);
    }

    /** A child that is not orderly may die, close or garble its stream, or say anything but a forgery. */
    method Misbehave(g: nat)
      requires Ok(env, st) && g < |st.children| && !st.children[g].orderly
      modifies this
      ensures Ok(env, st) && Evolved(env, old(st), st)
    {
      hide GoodEnv, AnswerTo, Lookup, HasId, NoId, FreshIds, Stream;
      EvolvedRefl(env, st);
      var c := st.children[g];
      assert ChildOk(st, g, c);
      var payload: Json, cause: Option<nat>, failed: bool := *, *, *;
      if * {
        Become(g, c.(alive := false));
        OneEvolved(env, old(st), st, g);
      } else if c.open {
        if * {
          var item := if failed then StreamFailure else Line(None);
          ReceivedOk(st, g, c, Enqueued(c, item), item);
          Become(g, Enqueued(c, item));
          OneEvolved(env, old(st), st, g);
        } else if Honest(env, st, |st.said|, Said(g, payload, cause)) {
          Speak(g, payload, cause);
        }
      }
    }

    method Speak(g: nat, payload: Json, cause: Option<nat>)
      requires Ok(env, st) && g < |st.children| && !st.children[g].orderly && st.children[g].open
      requires Honest(env, st, |st.said|, Said(g, payload, cause))
      modifies this
      ensures Ok(env, st) && Evolved(env, old(st), st)
    {
      hide GoodEnv, AnswerTo, Lookup, HasId, NoId, FreshIds, Stream, Honest;
      var c := st.children[g];
      assert ChildOk(st, g, c);
      var c' := Enqueued(c, Line(Some(payload)));
      ghost var st1 := st.(said := st.said + [Said(g, payload, cause)]);
      SaidLast(st, g, payload, cause);
      ChildOkLater(st, st1, g, c);
      ReceivedOk(st1, g, c, c', Line(Some(payload)));
      SayOk(env, st, g, c', payload, cause);
      st := Say(st, g, c', payload, cause);
      OneEvolved(env, old(st), st, g);
    }

    /** Any number of things happen. */
    method Tick()
      requires Ok(env, st)
      modifies this
      ensures Ok(env, st) && Evolved(env, old(st), st)
    {
      hide *;
      EvolvedRefl(env, st);
      var turns: int := *;
      while turns > 0
        invariant Ok(env, st) && Evolved(env, old(st), st)
      {
        ghost var before := st;
        Step();
        EvolvedTrans(env, old(st), before, st);
        turns := turns - 1;
      }
    }

    /** process.poll() is None */
    method Running(g: nat) returns (alive: bool)
      requires Ok(env, st) && g < |st.children|
      modifies this
      ensures Ok(env, st) && Evolved(env, old(st), st) && g < |st.children|
      ensures alive == st.children[g].alive
    {
      Tick();
      alive := st.children[g].alive;
    }

    /** Writes and flushes one request; on an error it may or may not have got through. A live orderly
        child has its pipe open and gets it. */
    method Write(g: nat, name: string, params: map<string, Json>) returns (ok: bool)
      requires Ok(env, st) && g < |st.children|
      modifies this
      ensures Ok(env, st)
      ensures exists received :: st == Written(old(st), g, name, params, received)
                && (old(st).children[g].orderly && old(st).children[g].alive ==> received && ok)
    {
      hide *;
      var received: bool := *;
      var failed: bool := *;
      if st.children[g].orderly && st.children[g].alive {
        received, failed := true, false;
      }
      WrittenOk(env, st, g, name, params, received);
      st := Written(st, g, name, params, received);
      ok := received && !failed;
    }

    /** Waits for an item of generation g's queue; None is a timeout. A prompt child never lets the
        client wait in vain. */
    method Get(g: nat) returns (item: Option<Item>)
      requires Ok(env, st) && g < |st.children|
      modifies this
      ensures Ok(env, st) && st.log == old(st).log && st.settledAt == old(st).settledAt
      ensures |st.children| == |old(st).children| && old(st).said <= st.said
      ensures st.children[g].orderly == old(st).children[g].orderly
      ensures st.children[g].taken == old(st).children[g].taken + (if item.Some? then 1 else 0)
      ensures item.Some? ==> ItemOk(st, g, item.value)
      ensures var due := Stream(env, old(st).log, old(st).children[g]);
              Sure(old(st), g) && due != [] ==>
                && item == Some(due[0]) && Stream(env, st.log, st.children[g]) == due[1..]
                && (Prompt(old(st), g) && Clean(due) ==> Prompt(st, g))
    {
      hide Ok, Stream, ItemOk, ChildOk, AnswerTo, Clean;
      Tick();
      if Sure(old(st), g) { SureEvolved(env, old(st), st, g); }
      if Prompt(st, g) && st.children[g].queue == [] && st.children[g].pending != [] {
        ghost var before := st;
        AnswerOk(env, st, g);
        st := Answer(env, st, g);
        EvolvedTrans(env, old(st), before, st);
        SureEvolved(env, before, st, g);
      }
      if !st.children[g].open { ClosedStream(env, st.log, st.children[g]); }
      if st.children[g].queue == [] {
        NothingQueued(env, st.log, st.children[g]);
        return None;
      }
      item := Pop(g);
    }

    method Pop(g: nat) returns (item: Option<Item>)
      requires Ok(env, st) && g < |st.children| && st.children[g].queue != []
      modifies this
      ensures Ok(env, st) && st == Popped(old(st), g)
      ensures item == Some(old(st).children[g].queue[0]) && ItemOk(st, g, item.value)
      ensures Stream(env, st.log, old(st).children[g]) == [item.value] + Stream(env, st.log, st.children[g])
    {
      hide AnswerTo, WasSaid, GoodEnv, Honest, Asked;
      PoppedOk(env, st, g);
      item := Some(st.children[g].queue[0]);
      st := Popped(st, g);
    }

    /** Starts a child; it may fail to start, or be of any kind, unless children behave. */
    method Spawn() returns (g: Option<nat>)
      requires Ok(env, st)
      modifies this
      ensures Ok(env, st)
      ensures if g.None? then st == old(st)
              else g.value == |old(st).children| && exists orderly :: st == Started(old(st), orderly)
      ensures st.settledAt.Some? ==> g.Some? && Prompt(st, g.value) && CaughtUp(st, g.value)
    {
      hide Ok;
      var fails: bool := *;
      var orderly: bool := *;
      if st.settledAt.Some? {
        fails, orderly := false, true;
      }
      if fails { return None; }
      StartedOk(env, st, orderly);
      NewCaughtUp(env, st, orderly);
      g := Some(|st.children|);
      st := Started(st, orderly);
    }

    /** Waits for a child, terminates it, kills it; it may even survive, but nobody listens any more. */
    method Reap(g: nat)
      requires Ok(env, st) && g < |st.children|
      modifies this
      ensures Ok(env, st) && st.log == old(st).log && st.settledAt == old(st).settledAt
      ensures |st.children| == |old(st).children| && old(st).said <= st.said
    {
      Tick();
      var c := st.children[g];
      assert ChildOk(st, g, c);
      var alive: bool := *;
      Become(g, c.(alive := alive && c.alive, orderly := false));
    }
  }

  // ---------------------------------------------------------------- falling behind

  /** One thing that happens to the world, none of them out of the ordinary. */
  ghost predicate Moves(env: Env, s: State, t: State) {
    || t == Settling(s)
    || t == Started(s, true)
    || (exists g: nat, name: string, params: map<string, Json> ::
          g < |s.children| && t == Written(s, g, name, params, true))
    || (exists g: nat :: g < |s.children| && s.children[g].pending != [] && s.children[g].orderly && s.children[g].alive
          && s.children[g].open && t == Answer(env, s, g))
    || (exists g: nat :: g < |s.children| && s.children[g].queue != [] && t == Popped(s, g))
  }

  /** The answer to the only request ever written is in the queue. */
  predicate OneQueued(s: State) {
    && |s.children| == 1 && s.settledAt == None && Asked(s.log, 0) == 1
    && var c := s.children[0];
    && c.orderly && c.alive && c.open && |c.queue| == 1 && c.taken == 0
  }

  lemma CapabilitiesGivenUp(env: Env, s: State) returns (s1: State, s2: State, s3: State)
    requires Ok(env, s) && OneQueued(s)
    ensures Moves(env, s, s1) && Moves(env, s1, s2) && Moves(env, s2, s3)
    ensures Ok(env, s3) && Prompt(s3, 0) && Behind(s3, 0)
    ensures s3.log != [] && s3.log[|s3.log| - 1].name == "capabilities"
  {
    hide Ok, Answer;
    s1 := Popped(s, 0);
    s2 := Written(s1, 0, "capabilities", map[], true);
    s3 := Settling(s2);
    PoppedOk(env, s, 0);
    WrittenOk(env, s1, 0, "capabilities", map[], true);
    SettlingOk(env, s2);
    AskedSnoc(s1.log, Request(0, "capabilities", map[], |s1.said|), 0);
    hide Asked;
  }

  function FirstRequest(): State {
    State([Child(true, true, true, [0], [], 0)], [Request(0, "health", map[], 0)], [], None)
  }

  lemma FirstStates()
    ensures Written(Started(State([], [], [], None), true), 0, "health", map[], true) == FirstRequest()
    ensures Started(State([], [], [], None), true).children == [Child(true, true, true, [], [], 0)]
  {
    var s1 := Started(State([], [], [], None), true);
    assert s1.children == [Child(true, true, true, [], [], 0)];
    assert [] + [0] == [0];
    assert s1.children[0 := Child(true, true, true, [0], [], 0)] == [Child(true, true, true, [0], [], 0)];
  }

  lemma FirstAnswer(env: Env)
    requires !Crashes(env, FirstRequest().log, 0) && AnswerTo(env, FirstRequest().log, 0).Line?
    ensures OneQueued(Answer(env, FirstRequest(), 0))
  {
    hide Crashes, AnswerTo;
    AskedSnoc([], Request(0, "health", map[], 0), 0);
    assert [] + [Request(0, "health", map[], 0)] == FirstRequest().log;
  }

  lemma EmptyOk(env: Env)
    requires GoodEnv(env)
    ensures Ok(env, State([], [], [], None))
  {
  }

  /** What fits is answered with a line, and the server goes on. */
  lemma FitsAnswered(env: Env, log: seq<Request>, n: nat)
    requires GoodEnv(env) && n < |log| && RequestFits(env, log, n)
    ensures AnswerTo(env, log, n) == Line(Some(Respond(env.services, RequestOf(env, log, n)))) && !Crashes(env, log, n)
  {
    FitsHeard(env.services, env.codec, RequestOf(env, log, n));
    CrashIsFailure(env, log, n);
    hide Respond, RequestOf, Printed, Fits, Lossless;
  }

  lemma HealthAnswered(env: Env) returns (s1: State, s2: State, s3: State)
    requires GoodEnv(env) && Fits(env.services, env.codec, RequestJson(env.uuid(0), "health", map[]))
    ensures Moves(env, State([], [], [], None), s1) && Moves(env, s1, s2) && Moves(env, s2, s3)
    ensures Ok(env, s3) && OneQueued(s3)
  {
    s1 := Started(State([], [], [], None), true);
    FirstStates();
    assert RequestFits(env, FirstRequest().log, 0);
    EmptyOk(env);
    hide Ok, GoodEnv, AnswerTo, Fits, RequestJson, Crashes, RequestFits, Started, Written, Answer, OneQueued;
    s2 := Written(s1, 0, "health", map[], true);
    s3 := Answer(env, s2, 0);
    StartedOk(env, State([], [], [], None), true);
    WrittenOk(env, s1, 0, "health", map[], true);
    AnswerOk(env, s2, 0);
    FitsAnswered(env, s2.log, 0);
    FirstAnswer(env);
  }

  /** A child starts, reports ready, is asked for its capabilities, and takes longer than the client
      waits: from then on it is orderly, prompt, and one answer behind. */
  lemma BehindReachable(env: Env) returns (run: seq<State>)
    requires GoodEnv(env) && Fits(env.services, env.codec, RequestJson(env.uuid(0), "health", map[]))
    ensures |run| == 7 && run[0] == State([], [], [], None) && forall i :: 0 <= i < 6 ==> Moves(env, run[i], run[i + 1])
    ensures Ok(env, run[6]) && Prompt(run[6], 0) && Behind(run[6], 0)
    ensures run[6].log[|run[6].log| - 1].name == "capabilities"
  {
    hide *;
    var s1, s2, s3 := HealthAnswered(env);
    var s4, s5, s6 := CapabilitiesGivenUp(env, s3);
    run := [State([], [], [], None), s1, s2, s3, s4, s5, s6];
  }
}
