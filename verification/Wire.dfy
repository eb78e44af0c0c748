/** One request and its answer as the bytes on the two pipes between client and server: the limits
    on both sides, and what becomes of a message that does not fit. */
module Wire {
  import opened Options
  import opened Json
  import opened LocalProtocol
  import opened ResponseChecks

  /** The longest line the client's reader accepts, its line feed included. */
  const MAX_RESPONSE_BYTES: nat := 1024 * 1024

  /** A printed JSON value: neither library prints raw line breaks. */
  type Text = s: string | '\n' !in s && '\r' !in s witness ""

  /** The JSON libraries at work: the client's printer, the server's printer, which throws on text that
      is not UTF-8, and the client's parser. The server's parser is part of its services. */
  datatype Codec = Codec(encode: Json -> Text, dump: Json -> Option<Text>, load: string -> Option<Json>)

  /** What is read is what was written, if it can be read at all. */
  ghost predicate Lossless(services: Services, codec: Codec) {
    && (forall j: Json :: services.parse(codec.encode(j)).Some? ==> services.parse(codec.encode(j)).value == j)
    && (forall j: Json :: codec.dump(j).Some? && codec.load(codec.dump(j).value).Some? ==>
          codec.load(codec.dump(j).value).value == j)
  }

  /** What the client's reader puts into its queue. After a failure it reads no more. */
  datatype Item = StreamFailure | Line(payload: Option<Json>)

  /** The reader on one complete line. */
  function ReadLine(codec: Codec, line: Text): Item {
    if |line| + 1 > MAX_RESPONSE_BYTES then StreamFailure else Line(codec.load(line))
  }

  /** What the server prints for the line of a request; None if it cannot, and ends. */
  function Printed(services: Services, codec: Codec, request: Json): Option<Text> {
    codec.dump(LineResponse(services, Bounded(codec.encode(request))))
  }

  /** What arrives in the client's queue for a request that an orderly server has read. */
  function Heard(services: Services, codec: Codec, request: Json): Item {
    match Printed(services, codec, request)
    case None => StreamFailure
    case Some(line) => ReadLine(codec, line)
  }

  /** What the client makes of an item of its queue. */
  function OutcomeOf(item: Item, id: string): Reply {
    match item
    case StreamFailure => TransportError("AutoWhisper closed its response stream")
    case Line(None) => ProtocolError("AutoWhisper returned invalid JSON")
    case Line(Some(payload)) => ValidateResponse(payload, id)
  }

  /** Both lines are within their limits, and both can be printed and read. */
  predicate Fits(services: Services, codec: Codec, request: Json) {
    && |codec.encode(request)| <= MAX_LINE_BYTES && services.parse(codec.encode(request)).Some?
    && var line := codec.dump(Respond(services, request));
    && line.Some? && |line.value| < MAX_RESPONSE_BYTES && codec.load(line.value).Some?
  }

  lemma {:induction false} NoCr(s: string)
    requires '\r' !in s
    ensures WithoutCr(s) == s
  {
    if s != "" {
      NoCr(s[1..]);
      assert s == [s[0]] + s[1..];
    }
  }

  /** What the server makes of the line of a request. */
  lemma LineOfRequest(services: Services, codec: Codec, request: Json)
    requires Lossless(services, codec)
    ensures var response := LineResponse(services, Bounded(codec.encode(request)));
            if |codec.encode(request)| <= MAX_LINE_BYTES && services.parse(codec.encode(request)).Some?
            then response == Respond(services, request)
            else response.Obj? && Lookup(response.fields, "id") == Null
  {
    NoCr(codec.encode(request));
    hide Respond;
  }

  lemma NoIdRejected(payload: Json, id: string)
    requires payload.Obj? && Lookup(payload.fields, "id") == Null
    ensures ValidateResponse(payload, id).ProtocolError?
  {
    WrongIdRejected(payload, id);
  }

  /** A request that fits is heard as the server's response. */
  lemma FitsHeard(services: Services, codec: Codec, request: Json)
    requires Lossless(services, codec) && Fits(services, codec, request)
    ensures Heard(services, codec, request) == Line(Some(Respond(services, request)))
  {
    LineOfRequest(services, codec, request);
    hide Respond, LineResponse, Bounded;
    assert codec.load(codec.dump(Respond(services, request)).value).value == Respond(services, request);
  }

  /** A request that does not fit is heard as a failure, as no JSON, or as an error without an id. */
  lemma MisfitHeard(services: Services, codec: Codec, request: Json)
    requires Lossless(services, codec) && !Fits(services, codec, request)
    ensures var item := Heard(services, codec, request);
            item.Line? && item.payload.Some? ==>
              item.payload.value.Obj? && Lookup(item.payload.value.fields, "id") == Null
  {
    LineOfRequest(services, codec, request);
    var response := LineResponse(services, Bounded(codec.encode(request)));
    hide Respond, LineResponse, Bounded, Lookup;
    var line := codec.dump(response);
    assert line.Some? && codec.load(line.value).Some? ==> codec.load(line.value).value == response;
  }

  lemma RetriedOutcome(item: Item, id: string)
    ensures var r := OutcomeOf(item, id); Understood(r) || Retried(r)
    ensures item.StreamFailure? || item.payload.None? ==> Retried(OutcomeOf(item, id))
    ensures item.Line? && item.payload.Some? ==> OutcomeOf(item, id) == ValidateResponse(item.payload.value, id)
  {
    if item.Line? && item.payload.Some? { WrongIdRejected(item.payload.value, id); }
    hide ValidateResponse;
  }

  lemma OwnAnswer(services: Services, id: string, name: string, params: map<string, Json>)
    requires 0 < |id| <= 128
    ensures var r := ValidateResponse(Respond(services, RequestJson(id, name, params)), id);
            Understood(r) && r == Answered(services, id, name, params)
  {
    AnswersAreUnderstood(services, id, name, params);
    hide Respond, RequestJson, ValidateResponse;
  }

  lemma NotBoth(r: Reply)
    ensures r.ProtocolError? ==> Retried(r)
    ensures Retried(r) ==> !Understood(r)
  {
  }

  /** A request of the client's own is answered by the server's result or structured error exactly when
      both messages fit; otherwise the outcome is one of the errors that are retried. */
  lemma OutcomeExact(services: Services, codec: Codec, id: string, name: string, params: map<string, Json>)
    requires Lossless(services, codec) && 0 < |id| <= 128
    ensures var request := RequestJson(id, name, params);
            var r := OutcomeOf(Heard(services, codec, request), id);
            && (Understood(r) <==> Fits(services, codec, request))
            && (Understood(r) ==> r == Answered(services, id, name, params))
            && (!Understood(r) ==> Retried(r))
  {
    hide *;
    var request := RequestJson(id, name, params);
    var item := Heard(services, codec, request);
    RetriedOutcome(item, id);
    if Fits(services, codec, request) {
      FitsHeard(services, codec, request);
      OwnAnswer(services, id, name, params);
    } else {
      MisfitHeard(services, codec, request);
      if item.Line? && item.payload.Some? { NoIdRejected(item.payload.value, id); }
      NotBoth(OutcomeOf(item, id));
    }
  }

  /** However well the child behaves: a request line over the server's limit is never answered. */
  lemma LongRequestFails(services: Services, codec: Codec, id: string, name: string, params: map<string, Json>)
    requires Lossless(services, codec) && 0 < |id| <= 128
    requires |codec.encode(RequestJson(id, name, params))| > MAX_LINE_BYTES
    ensures Retried(OutcomeOf(Heard(services, codec, RequestJson(id, name, params)), id))
  {
    OutcomeExact(services, codec, id, name, params);
    hide OutcomeOf, Heard, Answered;
  }

  /** Nor does an answer over the client's limit arrive. */
  lemma LongAnswerFails(services: Services, codec: Codec, request: Json)
    requires Printed(services, codec, request).Some? && |Printed(services, codec, request).value| >= MAX_RESPONSE_BYTES
    ensures Heard(services, codec, request) == StreamFailure
  {
  }

  // ---------------------------------------------------------------- many requests

  function Input(requests: seq<Text>): string {
    if requests == [] then "" else requests[0] + "\n" + Input(requests[1..])
  }

  function AllBounded(requests: seq<Text>): seq<BoundedLine> {
    seq(|requests|, i requires 0 <= i < |requests| => Bounded(requests[i]))
  }

  lemma {:induction false} FirstLine(text: string, rest: string)
    requires '\n' !in text
    ensures RawLine(text + "\n" + rest) == text && AfterLine(text + "\n" + rest) == rest
  {
    var s := text + "\n" + rest;
    if text == "" {
      assert s[1..] == rest;
    } else {
      assert s[1..] == text[1..] + "\n" + rest;
      FirstLine(text[1..], rest);
      assert text == [text[0]] + text[1..];
    }
  }

  /** The server reads one line for each request written. */
  lemma {:induction false} LinesOfInput(requests: seq<Text>)
    ensures Lines(Input(requests)) == AllBounded(requests)
  {
    hide Bounded, RawLine, AfterLine;
    if requests != [] {
      FirstLine(requests[0], Input(requests[1..]));
      LinesOfInput(requests[1..]);
      assert AllBounded(requests) == [Bounded(requests[0])] + AllBounded(requests[1..]);
    }
  }

  /** An orderly child, which answers each request by itself, is the server: on any requests without an
      accepted shutdown the output of the server's run is what it answers to each, in order. */
  lemma AnswersAreServed(services: Services, requests: seq<Text>)
    requires forall i :: 0 <= i < |requests| ==> !StopsAt(services, Bounded(requests[i]))
    ensures var output := Serve(services, Lines(Input(requests)));
            && |output| == |requests|
            && forall i :: 0 <= i < |requests| ==> output[i] == LineResponse(services, Bounded(requests[i]))
  {
    hide Bounded, LineResponse, StopsAt, Serve, Lines;
    LinesOfInput(requests);
    OneResponsePerLine(services, AllBounded(requests));
  }
}
