/** What the server answers to which request, in terms of the request: the first thing that is wrong with it
    decides, and an accepted method gets what it asks for. */
module ServerLaws {
  import opened Json
  import opened LocalProtocol

  // ---------------------------------------------------------------- responses and requests, literally

  function ResultFor(id: Json, result: Json): Json {
    Obj(map["protocol" := Str("autowhisper.local"), "version" := Int(1), "id" := id, "result" := result])
  }

  function ErrorFor(id: Json, code: string, message: string, retryable: bool): Json {
    Obj(map["protocol" := Str("autowhisper.local"), "version" := Int(1), "id" := id,
            "error" := Obj(map["code" := Str(code), "message" := Str(message), "retryable" := Bool(retryable)])])
  }

  predicate Has(request: Json, key: string) { request.Obj? && key in request.fields }

  predicate HasText(request: Json, key: string) { Has(request, key) && request.fields[key].Str? }

  /** A text of one to 128 bytes. */
  predicate GoodId(request: Json) { HasText(request, "id") && 1 <= |request.fields["id"].s| <= 128 }

  predicate GoodProtocol(request: Json) {
    HasText(request, "protocol") && request.fields["protocol"].s == "autowhisper.local"
  }

  /** One, as a 32-bit integer. */
  predicate GoodVersion(request: Json) {
    Has(request, "version") && request.fields["version"].Int? && (request.fields["version"].n - 1) % 0x1_0000_0000 == 0
  }

  predicate Addressed(request: Json) { GoodId(request) && GoodProtocol(request) }

  predicate WellFormed(request: Json) { Addressed(request) && GoodVersion(request) && HasText(request, "method") }

  predicate Asks(request: Json, name: string) { WellFormed(request) && request.fields["method"].s == name }

  // ---------------------------------------------------------------- the checks

  lemma ResponsesAre(id: Json, result: Json, code: string, message: string, retryable: bool)
    ensures SuccessResponse(id, result) == ResultFor(id, result)
    ensures ErrorResponse(id, code, message, retryable) == ErrorFor(id, code, message, retryable)
  {
  }

  lemma VersionIs(n: int)
    ensures ToInt32(n) == PROTOCOL_VERSION <==> (n - 1) % 0x1_0000_0000 == 0
  {
  }

  /** What the checks decide. */
  lemma CheckIs(request: Json)
    ensures !request.Obj? ==>
              Check(request) == Rejected(ErrorResponse(Null, "invalid_request", "Request must be a JSON object", false))
    ensures request.Obj? && !GoodId(request) ==>
              Check(request) == Rejected(ErrorResponse(Null, "invalid_id",
                                                       "id must be a non-empty string of at most 128 bytes", false))
    ensures GoodId(request) && Has(request, "protocol") && !HasText(request, "protocol") ==>
              Check(request) == Rejected(ErrorResponse(Null, "invalid_request", "type error", false))
    ensures GoodId(request) && (Has(request, "protocol") ==> HasText(request, "protocol")) && !GoodProtocol(request) ==>
              Check(request) == Rejected(ErrorResponse(request.fields["id"], "unsupported_protocol",
                                                       "Unsupported local protocol name", false))
    ensures Addressed(request) && !GoodVersion(request) ==>
              Check(request) == Rejected(ErrorResponse(request.fields["id"], "unsupported_version",
                                                       "Unsupported local protocol version", false))
    ensures Addressed(request) && GoodVersion(request) && !HasText(request, "method") ==>
              Check(request) == Rejected(ErrorResponse(request.fields["id"], "invalid_method",
                                                       "method must be a string", false))
    ensures WellFormed(request) ==>
              Check(request) == Accepted(request.fields["id"].s, request.fields["method"].s)
  {
    hide ErrorResponse, ToInt32;
    if Has(request, "version") && request.fields["version"].Int? { VersionIs(request.fields["version"].n); }
  }

  /** What is wrong with a request, if anything is: the id, code and message of the answer. */
  datatype Fault = Fault(id: Json, code: string, message: string)

  function FaultOf(request: Json): Fault
    requires !WellFormed(request)
  {
    if !request.Obj? then Fault(Null, "invalid_request", "Request must be a JSON object")
    else if !GoodId(request) then Fault(Null, "invalid_id", "id must be a non-empty string of at most 128 bytes")
    else if Has(request, "protocol") && !HasText(request, "protocol") then Fault(Null, "invalid_request", "type error")
    else if !GoodProtocol(request) then
      Fault(request.fields["id"], "unsupported_protocol", "Unsupported local protocol name")
    else if !GoodVersion(request) then
      Fault(request.fields["id"], "unsupported_version", "Unsupported local protocol version")
    else Fault(request.fields["id"], "invalid_method", "method must be a string")
  }

  /** A request that is not well formed is answered by the first thing that is wrong with it. */
  lemma Refusals(services: Services, request: Json)
    requires !WellFormed(request)
    ensures var fault := FaultOf(request);
            Respond(services, request) == ErrorFor(fault.id, fault.code, fault.message, false)
  {
    CheckIs(request);
    hide Check, Has, HasText, GoodId, GoodProtocol, GoodVersion, ErrorResponse, ErrorFor, Dispatch;
    var fault := FaultOf(request);
    ResponsesAre(fault.id, Null, fault.code, fault.message, false);
  }

  lemma AcceptedIs(services: Services, request: Json)
    requires WellFormed(request)
    ensures Respond(services, request)
         == Dispatch(services, request.fields["id"].s, request.fields, request.fields["method"].s)
  {
    CheckIs(request);
    hide Check, Dispatch, Has, GoodId, GoodProtocol, GoodVersion;
  }

  lemma DispatchIs(services: Services, id: string, fields: map<string, Json>, name: string)
    ensures name == "health" ==>
              Dispatch(services, id, fields, name) == ResultFor(Str(id), Obj(map["status" := Str("ready")]))
    ensures name == "shutdown" ==>
              Dispatch(services, id, fields, name) == ResultFor(Str(id), Obj(map["status" := Str("stopping")]))
    ensures name == "capabilities" ==>
              Dispatch(services, id, fields, name) == ResultFor(Str(id), Obj(Capabilities()))
    ensures name !in {"health", "shutdown", "capabilities", "transcribe_file"} ==>
              Dispatch(services, id, fields, name)
              == ErrorFor(Str(id), "method_not_found", "Unknown method: " + name, false)
    ensures name == "transcribe_file" ==>
              Dispatch(services, id, fields, name) == TranscribeResponse(services, id, fields)
  {
    ResponsesAre(Str(id), Obj(map["status" := Str("ready")]), "method_not_found", "Unknown method: " + name, false);
    ResponsesAre(Str(id), Obj(map["status" := Str("stopping")]), "", "", false);
    ResponsesAre(Str(id), Obj(Capabilities()), "", "", false);
    hide ResultFor, ErrorFor, SuccessResponse, ErrorResponse, Capabilities, TranscribeResponse;
  }

  /** What the server says of itself: files of up to an hour and 512 MiB. */
  predicate TellsAbilities(fields: map<string, Json>) {
    && fields.Keys == {"methods", "input", "max_audio_seconds", "max_file_bytes"}
    && fields["methods"] == Arr([Str("health"), Str("capabilities"), Str("transcribe_file"), Str("shutdown")])
    && fields["input"] == Obj(map["kind" := Str("file"), "formats" := Arr([Str("wav"), Str("mp3"), Str("flac")]),
                                  "sample_rate" := Int(16000), "channels" := Int(1)])
    && fields["max_audio_seconds"] == Int(3600) && fields["max_file_bytes"] == Int(536870912)
  }

  lemma CapabilitiesTell()
    ensures TellsAbilities(Capabilities())
  {
  }

  /** A well-formed request gets the answer of its method, under its own id. */
  lemma Answers(services: Services, request: Json)
    requires WellFormed(request)
    ensures var id, response := request.fields["id"], Respond(services, request);
            && (Asks(request, "health") ==> response == ResultFor(id, Obj(map["status" := Str("ready")])))
            && (Asks(request, "shutdown") ==> response == ResultFor(id, Obj(map["status" := Str("stopping")])))
            && (Asks(request, "capabilities") ==>
                  exists fields :: TellsAbilities(fields) && response == ResultFor(id, Obj(fields)))
            && (request.fields["method"].s !in {"health", "shutdown", "capabilities", "transcribe_file"} ==>
                  response == ErrorFor(id, "method_not_found", "Unknown method: " + request.fields["method"].s, false))
            && (Asks(request, "transcribe_file") ==>
                  response == TranscribeResponse(services, request.fields["id"].s, request.fields))
  {
    CapabilitiesTell();
    AcceptedIs(services, request);
    DispatchIs(services, request.fields["id"].s, request.fields, request.fields["method"].s);
    assert Str(request.fields["id"].s) == request.fields["id"];
    hide Respond, Dispatch, ResultFor, ErrorFor, Capabilities, TellsAbilities, TranscribeResponse;
  }

  /** The server stops exactly at a well-formed request for it. */
  lemma ShutdownAsked(request: Json)
    ensures IsShutdown(request) <==> Asks(request, "shutdown")
  {
    CheckIs(request);
    hide Check, GoodId, GoodProtocol, GoodVersion, Has, ErrorResponse;
  }

  // ---------------------------------------------------------------- transcriptions

  /** A parameter that is no text, or is too long. */
  predicate Bad(params: Json, key: string, limit: nat) {
    Has(params, key) && (!params.fields[key].Str? || |params.fields[key].s| > limit)
  }

  function Complaint(params: Json, key: string): string
    requires Has(params, key)
  {
    key + (if params.fields[key].Str? then " is too long" else " must be a string")
  }

  /** The text of a parameter; one that is left out reads as empty. */
  function TextOf(params: Json, key: string): string { if HasText(params, key) then params.fields[key].s else "" }

  lemma ParamIs(params: Json, key: string, limit: nat)
    requires params.Obj?
    ensures OptionalBoundedString(params.fields, key, limit)
            == if Bad(params, key, limit) then Refused(Complaint(params, key)) else Given(TextOf(params, key))
  {
  }

  /** A request to transcribe: the first bad parameter decides; with good ones the engine is given exactly
      the path, the id, the language and the model of the request, and its outcome is the answer. */
  lemma Transcribes(services: Services, request: Json)
    requires Asks(request, "transcribe_file")
    ensures var id, response := request.fields["id"], Respond(services, request);
            var params := if Has(request, "params") then request.fields["params"] else Obj(map[]);
            if !params.Obj? then response == ErrorFor(id, "invalid_params", "params must be a JSON object", false)
            else if Bad(params, "path", 32768) then
              response == ErrorFor(id, "invalid_params", Complaint(params, "path"), false)
            else if TextOf(params, "path") == "" then
              response == ErrorFor(id, "invalid_params", "params.path is required", false)
            else if Bad(params, "language", 64) then
              response == ErrorFor(id, "invalid_params", Complaint(params, "language"), false)
            else if Bad(params, "model", 128) then
              response == ErrorFor(id, "invalid_params", Complaint(params, "model"), false)
            else
              match services.transcribe(TextOf(params, "path"),
                                        TranscriptionOptions(id.s, TextOf(params, "language"), TextOf(params, "model")))
              case Transcribed(result) => response == ResultFor(id, Obj(ResultFields(result)))
              case InvalidArgument(what) => response == ErrorFor(id, "invalid_params", what, false)
              case Exception(what) => response == ErrorFor(id, "runtime_error", what, true)
  {
    Answers(services, request);
    var params := if Has(request, "params") then request.fields["params"] else Obj(map[]);
    if params.Obj? {
      ParamIs(params, "path", 32768);
      ParamIs(params, "language", 64);
      ParamIs(params, "model", 128);
    }
    forall code: string, message: string, retryable: bool
      ensures ErrorResponse(request.fields["id"], code, message, retryable)
           == ErrorFor(request.fields["id"], code, message, retryable)
    {
      ResponsesAre(request.fields["id"], Null, code, message, retryable);
    }
    forall result: Json
      ensures SuccessResponse(request.fields["id"], result) == ResultFor(request.fields["id"], result)
    {
      ResponsesAre(request.fields["id"], result, "", "", false);
    }
    hide Respond, ResultFor, ErrorFor, SuccessResponse, ErrorResponse, ResultFields, OptionalBoundedString, Bad, TextOf,
      Complaint, Has, WellFormed, GoodId, GoodProtocol, GoodVersion;
  }

  // ---------------------------------------------------------------- the lines of the input

  /** A line ends at its line feed; a last line needs none. */
  lemma {:induction false} LineEnds(a: string, rest: string)
    requires '\n' !in a
    ensures RawLine(a + "\n" + rest) == a && AfterLine(a + "\n" + rest) == rest
    ensures RawLine(a) == a && AfterLine(a) == ""
  {
    if a == "" {
      assert a + "\n" + rest == "\n" + rest;
    } else {
      assert (a + "\n" + rest)[0] == a[0] && (a + "\n" + rest)[1..] == a[1..] + "\n" + rest;
      LineEnds(a[1..], rest);
    }
  }

  /** The lines that are served are those of the input, in order. */
  lemma LinesRead(a: string, rest: string)
    requires '\n' !in a
    ensures Lines(a + "\n" + rest) == [Bounded(a)] + Lines(rest)
    ensures Lines(a) == if a == "" then [] else [Bounded(a)]
  {
    LineEnds(a, rest);
    hide RawLine, AfterLine, Bounded;
    assert Lines("") == [];
    assert [Bounded(a)] + [] == [Bounded(a)];
  }

  lemma {:induction false} NoReturns(s: string)
    requires '\r' !in s
    ensures WithoutCr(s) == s
  {
    if s != "" { NoReturns(s[1..]); }
  }

  lemma {:induction false} WithoutReturn(a: string, b: string)
    ensures WithoutCr(a + "\r" + b) == WithoutCr(a) + WithoutCr(b)
  {
    if a == "" {
      assert a + "\r" + b == "\r" + b && ("\r" + b)[1..] == b;
    } else {
      assert (a + "\r" + b)[0] == a[0] && (a + "\r" + b)[1..] == a[1..] + "\r" + b;
      WithoutReturn(a[1..], b);
    }
  }

  lemma {:induction false} NoneLeft(s: string)
    ensures '\r' !in WithoutCr(s)
  {
    if s != "" { NoneLeft(s[1..]); }
  }

  /** A line without carriage returns is read as it is if it has no more than 1 MiB, and cut there otherwise; a
      carriage return anywhere makes no difference. */
  lemma LineRead(a: string, b: string)
    ensures Bounded(a + "\r" + b) == Bounded(WithoutCr(a) + WithoutCr(b))
    ensures '\r' !in a && |a| <= 1048576 ==> Bounded(a) == BoundedLine(a, false)
    ensures '\r' !in a && |a| > 1048576 ==> Bounded(a) == BoundedLine(a[..1048576], true)
  {
    WithoutReturn(a, b);
    NoneLeft(a);
    NoneLeft(b);
    NoReturns(WithoutCr(a) + WithoutCr(b));
    if '\r' !in a { NoReturns(a); }
    hide WithoutCr;
  }
}
