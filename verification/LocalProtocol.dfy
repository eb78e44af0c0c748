/** The stdio server of src/protocol/local_protocol.cpp: line framing, request handling and
    the serving loop. */
module LocalProtocol {
  import opened Options
  import opened SeqFacts
  import opened Json

  // ---------------------------------------------------------------- transcription results

  datatype Status = Completed | NoSpeech | Cancelled | Failed

  function StatusName(s: Status): string {
    match s
    case Completed => "completed"
    case NoSpeech => "no_speech"
    case Cancelled => "cancelled"
    case Failed => "failed"
  }

  datatype TranscriptionError = TranscriptionError(code: string, message: string, retryable: bool)

  datatype TranscriptionResult = TranscriptionResult(
    requestId: string, status: Status, text: string, provider: string, segments: seq<Json>, warnings: seq<Json>,
    language: string, durationMs: int, processingMs: int, model: string, error: Option<TranscriptionError>)

  datatype TranscriptionOptions = TranscriptionOptions(requestId: string, language: string, model: string)

  function ErrorJson(e: TranscriptionError): Json {
    Obj(map["code" := Str(e.code), "message" := Str(e.message), "retryable" := Bool(e.retryable)])
  }

  /** The fields that are written only when there is something to write. */
  function OptionalFields(r: TranscriptionResult): map<string, Json> {
    (if r.language != "" then map["language" := Str(r.language)] else map[])
    + (if r.durationMs > 0 then map["duration_ms" := Int(r.durationMs)] else map[])
    + (if r.processingMs > 0 then map["processing_ms" := Int(r.processingMs)] else map[])
    + (if r.model != "" then map["model" := Str(r.model)] else map[])
    + (if r.error.Some? then map["error" := ErrorJson(r.error.value)] else map[])
  }

  function ResultFields(r: TranscriptionResult): map<string, Json> {
    OptionalFields(r)
    + map["schema" := Str(TRANSCRIPTION_SCHEMA), "version" := Int(TRANSCRIPTION_VERSION),
          "request_id" := Str(r.requestId), "status" := Str(StatusName(r.status)), "text" := Str(r.text),
          "provider" := Str(r.provider), "segments" := Arr(r.segments), "warnings" := Arr(r.warnings)]
  }

  /** What the engine does with a file: a result, a complaint about its arguments, or any other exception. */
  datatype Outcome = Transcribed(result: TranscriptionResult) | InvalidArgument(what: string) | Exception(what: string)

  /** The parts of the system behind the protocol: the JSON parser and the engine. */
  datatype Services = Services(parse: string -> Option<Json>, transcribe: (string, TranscriptionOptions) -> Outcome)

  // ---------------------------------------------------------------- requests and responses

  function SuccessResponse(id: Json, result: Json): Json {
    Obj(map["protocol" := Str(PROTOCOL_NAME), "version" := Int(PROTOCOL_VERSION), "id" := id, "result" := result])
  }

  function ErrorResponse(id: Json, code: string, message: string, retryable: bool): Json {
    Obj(map["protocol" := Str(PROTOCOL_NAME), "version" := Int(PROTOCOL_VERSION), "id" := id,
            "error" := ErrorJson(TranscriptionError(code, message, retryable))])
  }

  predicate ValidId(id: Json) { id.Str? && 0 < |id.s| <= 128 }

  function Lookup(fields: map<string, Json>, key: string): Json {
    if key in fields then fields[key] else Null
  }

  /** Conversion of a JSON integer to a 32-bit int. */
  function ToInt32(n: int): int {
    (n + 0x8000_0000) % 0x1_0000_0000 - 0x8000_0000
  }

  datatype Param = Given(value: string) | Refused(what: string)

  /** A string parameter: absent reads as empty; a wrong type or too many bytes is an error. */
  function OptionalBoundedString(fields: map<string, Json>, key: string, maximum: nat): Param {
    if key !in fields then Given("")
    else if !fields[key].Str? then Refused(key + " must be a string")
    else if |fields[key].s| > maximum then Refused(key + " is too long")
    else Given(fields[key].s)
  }

  function Capabilities(): map<string, Json> {
    map["methods" := Arr([Str("health"), Str("capabilities"), Str("transcribe_file"), Str("shutdown")]),
        "input" := Obj(map["kind" := Str("file"), "formats" := Arr([Str("wav"), Str("mp3"), Str("flac")]),
                           "sample_rate" := Int(16000), "channels" := Int(1)]),
        "max_audio_seconds" := Int(3600), "max_file_bytes" := Int(512 * 1024 * 1024)]
  }

  function TranscribeResponse(services: Services, id: string, fields: map<string, Json>): Json {
    var params := if "params" in fields then fields["params"] else Obj(map[]);
    if !params.Obj? then ErrorResponse(Str(id), "invalid_params", "params must be a JSON object", false)
    else
      var path := OptionalBoundedString(params.fields, "path", 32768);
      if path.Refused? then ErrorResponse(Str(id), "invalid_params", path.what, false)
      else if path.value == "" then ErrorResponse(Str(id), "invalid_params", "params.path is required", false)
      else
        var language := OptionalBoundedString(params.fields, "language", 64);
        if language.Refused? then ErrorResponse(Str(id), "invalid_params", language.what, false)
        else
          var model := OptionalBoundedString(params.fields, "model", 128);
          if model.Refused? then ErrorResponse(Str(id), "invalid_params", model.what, false)
          else
            match services.transcribe(path.value, TranscriptionOptions(id, language.value, model.value))
            case Transcribed(result) => SuccessResponse(Str(id), Obj(ResultFields(result)))
            case InvalidArgument(what) => ErrorResponse(Str(id), "invalid_params", what, false)
            case Exception(what) => ErrorResponse(Str(id), "runtime_error", what, true)
  }

  /** The method dispatch for a request whose id, protocol and version have been accepted. */
  function Dispatch(services: Services, id: string, fields: map<string, Json>, name: string): Json {
    if name == "health" then SuccessResponse(Str(id), Obj(map["status" := Str("ready")]))
    else if name == "capabilities" then SuccessResponse(Str(id), Obj(Capabilities()))
    else if name == "shutdown" then SuccessResponse(Str(id), Obj(map["status" := Str("stopping")]))
    else if name != "transcribe_file" then ErrorResponse(Str(id), "method_not_found", "Unknown method: " + name, false)
    else TranscribeResponse(services, id, fields)
  }

  /** The checks before the dispatch, in the order in which the handler makes them. */
  datatype Checked = Rejected(response: Json) | Accepted(id: string, name: string)

  function Check(request: Json): Checked {
    if !request.Obj? then Rejected(ErrorResponse(Null, "invalid_request", "Request must be a JSON object", false))
    else
      var f := request.fields;
      var id := Lookup(f, "id");
      if !ValidId(id) then
        Rejected(ErrorResponse(Null, "invalid_id", "id must be a non-empty string of at most 128 bytes", false))
      else if "protocol" in f && !f["protocol"].Str? then
        // The typed lookup throws, and the exception is answered without the id.
        Rejected(ErrorResponse(Null, "invalid_request", "type error", false))
      else if Lookup(f, "protocol") != Str(PROTOCOL_NAME) then
        Rejected(ErrorResponse(id, "unsupported_protocol", "Unsupported local protocol name", false))
      else if "version" !in f || !f["version"].Int? || ToInt32(f["version"].n) != PROTOCOL_VERSION then
        Rejected(ErrorResponse(id, "unsupported_version", "Unsupported local protocol version", false))
      else if "method" !in f || !f["method"].Str? then
        Rejected(ErrorResponse(id, "invalid_method", "method must be a string", false))
      else Accepted(id.s, f["method"].s)
  }

  function Respond(services: Services, request: Json): Json {
    match Check(request)
    case Rejected(response) => response
    case Accepted(id, name) => Dispatch(services, id, request.fields, name)
  }

  predicate IsShutdown(request: Json) {
    Check(request).Accepted? && Check(request).name == "shutdown"
  }

  // ---------------------------------------------------------------- lines

  const MAX_LINE_BYTES: nat := 1024 * 1024

  datatype BoundedLine = BoundedLine(value: string, tooLarge: bool)

  /** The characters up to the first line feed. */
  function RawLine(input: string): string {
    if input == "" || input[0] == '\n' then "" else [input[0]] + RawLine(input[1..])
  }

  /** What follows the first line feed. */
  function AfterLine(input: string): (r: string)
    ensures |r| <= |input| && (input != "" ==> |r| < |input|)
  {
    if input == "" then "" else if input[0] == '\n' then input[1..] else AfterLine(input[1..])
  }

  function WithoutCr(s: string): string {
    if s == "" then "" else (if s[0] == '\r' then "" else [s[0]]) + WithoutCr(s[1..])
  }

  /** Carriage returns do not count; what exceeds the bound is dropped but remembered. */
  function Bounded(raw: string): BoundedLine {
    var s := WithoutCr(raw);
    BoundedLine(if |s| <= MAX_LINE_BYTES then s else s[..MAX_LINE_BYTES], |s| > MAX_LINE_BYTES)
  }

  function Lines(input: string): seq<BoundedLine>
    decreases |input|
  {
    if input == "" then [] else [Bounded(RawLine(input))] + Lines(AfterLine(input))
  }

  lemma {:induction false} MoreRaw(s: string, c: char)
    ensures WithoutCr(s + [c]) == WithoutCr(s) + (if c == '\r' then "" else [c])
  {
    if s == "" {
      assert s + [c] == [c];
    } else {
      assert (s + [c])[1..] == s[1..] + [c] && (s + [c])[0] == s[0];
      MoreRaw(s[1..], c);
      Assoc(if s[0] == '\r' then "" else [s[0]], WithoutCr(s[1..]), if c == '\r' then "" else [c]);
    }
  }

  /** Reads characters until a line feed or the end of the input. `hasLine` is false only at the end. */
  method ReadBoundedLine(input: string) returns (line: BoundedLine, hasLine: bool, rest: string)
    ensures hasLine <==> input != ""
    ensures line == Bounded(RawLine(input)) && rest == AfterLine(input)
  {
    var value, tooLarge := "", false;
    hasLine := false;
    rest := input;
    ghost var seen := "";
    assert "" + RawLine(input) == RawLine(input);
    while rest != ""
      invariant seen + RawLine(rest) == RawLine(input) && AfterLine(rest) == AfterLine(input)
      invariant hasLine || rest == input
      invariant input == "" ==> !hasLine
      invariant BoundedLine(value, tooLarge) == Bounded(seen)
      decreases |rest|
    {
      hasLine := true;
      var character := rest[0];
      ghost var tail := RawLine(rest[1..]);
      rest := rest[1..];
      if character == '\n' {
        assert seen + "" == seen;
        return BoundedLine(value, tooLarge), true, rest;
      }
      Assoc(seen, [character], tail);
      MoreRaw(seen, character);
      if character != '\r' {
        if |value| < MAX_LINE_BYTES {
          value := value + [character];
        } else {
          tooLarge := true;
        }
      }
      seen := seen + [character];
    }
    assert seen + "" == seen;
    line := BoundedLine(value, tooLarge);
  }

  // ---------------------------------------------------------------- the handler and the server

  /** The response to one line, and whether it is an accepted shutdown. */
  function LineResponse(services: Services, line: BoundedLine): Json {
    if line.tooLarge then
      ErrorResponse(Null, "request_too_large", "Protocol request exceeds the 1 MiB line limit", false)
    else
      match services.parse(line.value)
      case None => ErrorResponse(Null, "invalid_json", "Request is not valid JSON", false)
      case Some(request) => Respond(services, request)
  }

  predicate StopsAt(services: Services, line: BoundedLine) {
    !line.tooLarge && services.parse(line.value).Some? && IsShutdown(services.parse(line.value).value)
  }

  class ProtocolHandler {
    const services: Services
    var shutdownRequested: bool

    constructor (services: Services)
      ensures this.services == services && !shutdownRequested
    {
      this.services := services;
      shutdownRequested := false;
    }

    method HandleRequest(request: Json) returns (response: Json)
      modifies this
      ensures response == Respond(services, request)
      ensures shutdownRequested == (old(shutdownRequested) || IsShutdown(request))
    {
      match Check(request) {
        case Rejected(r) =>
          response := r;
        case Accepted(id, name) =>
          if name == "shutdown" {
            shutdownRequested := true;
          }
          response := Dispatch(services, id, request.fields, name);
      }
    }

    method HandleLine(line: BoundedLine) returns (response: Json)
      modifies this
      ensures response == LineResponse(services, line)
      ensures shutdownRequested == (old(shutdownRequested) || StopsAt(services, line))
    {
      if line.tooLarge {
        return ErrorResponse(Null, "request_too_large", "Protocol request exceeds the 1 MiB line limit", false);
      }
      var parsed := services.parse(line.value);
      if parsed.None? {
        return ErrorResponse(Null, "invalid_json", "Request is not valid JSON", false);
      }
      response := HandleRequest(parsed.value);
    }
  }

  /** Responses to the lines in order, up to and including the first accepted shutdown. */
  function Serve(services: Services, lines: seq<BoundedLine>): seq<Json> {
    if lines == [] then []
    else [LineResponse(services, lines[0])]
         + (if StopsAt(services, lines[0]) then [] else Serve(services, lines[1..]))
  }

  method RunServer(handler: ProtocolHandler, input: string) returns (output: seq<Json>)
    requires !handler.shutdownRequested
    modifies handler
    ensures output == Serve(handler.services, Lines(input))
  {
    output := [];
    var rest := input;
    assert [] + Serve(handler.services, Lines(input)) == Serve(handler.services, Lines(input));
    while true
      invariant !handler.shutdownRequested
      invariant output + Serve(handler.services, Lines(rest)) == Serve(handler.services, Lines(input))
      decreases |rest|
    {
      var line, hasLine, next := ReadBoundedLine(rest);
      if !hasLine { return; }
      assert Lines(rest)[1..] == Lines(next);
      var response := handler.HandleLine(line);
      Assoc(output, [response], if handler.shutdownRequested then [] else Serve(handler.services, Lines(next)));
      output := output + [response];
      if handler.shutdownRequested { return; }
      rest := next;
    }
  }

  /** Exactly one response per line, in order: all lines are answered unless one of them is an
      accepted shutdown, and then everything up to the first of these and nothing after it. */
  lemma {:induction false} OneResponsePerLine(services: Services, lines: seq<BoundedLine>)
    ensures var out := Serve(services, lines);
            && |out| <= |lines|
            && (forall i :: 0 <= i < |out| ==> out[i] == LineResponse(services, lines[i]))
            && (forall i :: 0 <= i < |out| - 1 ==> !StopsAt(services, lines[i]))
            && (|out| < |lines| ==> |out| > 0 && StopsAt(services, lines[|out| - 1]))
  {
    hide LineResponse, StopsAt;
    if lines != [] && !StopsAt(services, lines[0]) {
      OneResponsePerLine(services, lines[1..]);
      var tail := Serve(services, lines[1..]);
      assert forall i :: 0 < i < |lines| ==> lines[i] == lines[1..][i - 1];
      assert forall i :: 0 < i <= |tail| ==> Serve(services, lines)[i] == tail[i - 1];
    }
  }

  /** No line is lost or cut by the framing: raw lines and line feeds make up the input again. */
  lemma {:induction false} LinesRejoin(input: string)
    requires input != ""
    ensures input == RawLine(input) + "\n" + AfterLine(input) || (input == RawLine(input) && AfterLine(input) == "")
    ensures '\n' !in RawLine(input)
  {
    if input[0] != '\n' && |input| > 1 {
      LinesRejoin(input[1..]);
      assert input == [input[0]] + input[1..];
    }
  }
}
