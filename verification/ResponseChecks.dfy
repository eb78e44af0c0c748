/** The client's checks on what the child says: `validate_response` and
    `validate_transcription_result` of protocol.py, and how they fit the server. */
module ResponseChecks {
  import opened Json
  import opened LocalProtocol

  /** What a call comes to: its result, or the exception that is raised. */
  datatype Reply =
    | Result(fields: map<string, Json>)
    | ServiceError(code: string, message: string, retryable: bool)
    | ProtocolError(what: string)
    | TransportError(what: string)
    | TypeError(what: string)

  /** The server's own answer: its result, or its structured error. */
  predicate Understood(r: Reply) { r.Result? || r.ServiceError? }

  /** The errors after which a transcription is attempted again. */
  predicate Retried(r: Reply) { r.TransportError? || r.ProtocolError? }

  /** Python's `value == 1`: an integer, a float or True may be equal to 1. */
  predicate EqualsOne(v: Json) {
    v == Int(1) || v == Real(1.0) || v == Bool(true)
  }

  function ValidateError(error: Json): Reply {
    if !error.Obj? then ProtocolError("AutoWhisper error must be a JSON object")
    else
      var f := error.fields;
      var retryable := if "retryable" in f then f["retryable"] else Bool(false);
      if !Lookup(f, "code").Str? || !Lookup(f, "message").Str? || !retryable.Bool? then
        ProtocolError("AutoWhisper returned a malformed error")
      else ServiceError(f["code"].s, f["message"].s, retryable.b)
  }

  function ValidateResponse(payload: Json, id: string): Reply {
    if !payload.Obj? then ProtocolError("AutoWhisper response must be a JSON object")
    else
      var f := payload.fields;
      if Lookup(f, "protocol") != Str(PROTOCOL_NAME) then
        ProtocolError("AutoWhisper returned an unsupported protocol name")
      else if !EqualsOne(Lookup(f, "version")) then
        ProtocolError("AutoWhisper returned an unsupported protocol version")
      else if Lookup(f, "id") != Str(id) then
        ProtocolError("AutoWhisper response ID did not match the request")
      else if ("result" in f) == ("error" in f) then
        ProtocolError("AutoWhisper response must contain exactly one of result or error")
      else if "error" in f then ValidateError(f["error"])
      else if !f["result"].Obj? then ProtocolError("AutoWhisper result must be a JSON object")
      else Result(f["result"].fields)
  }

  predicate KnownStatus(s: string) {
    s == "completed" || s == "no_speech" || s == "cancelled" || s == "failed"
  }

  function ValidateTranscription(f: map<string, Json>, id: string): Reply {
    if Lookup(f, "schema") != Str(TRANSCRIPTION_SCHEMA) then
      ProtocolError("AutoWhisper returned an unsupported transcription schema")
    else if !EqualsOne(Lookup(f, "version")) then
      ProtocolError("AutoWhisper returned an unsupported transcription version")
    else if Lookup(f, "request_id") != Str(id) then
      ProtocolError("Transcription result ID did not match the request")
    else if Lookup(f, "status").Arr? || Lookup(f, "status").Obj? then
      // A list or a dictionary cannot be looked up in a set; Python raises TypeError.
      TypeError("unhashable type")
    else if !(Lookup(f, "status").Str? && KnownStatus(f["status"].s)) then
      ProtocolError("AutoWhisper returned an invalid transcription status")
    else if !Lookup(f, "text").Str? then
      ProtocolError("AutoWhisper transcription text must be a string")
    else Result(f)
  }

  /** The request that the client writes. */
  function RequestJson(id: string, name: string, params: map<string, Json>): Json {
    Obj(map["protocol" := Str(PROTOCOL_NAME), "version" := Int(PROTOCOL_VERSION), "id" := Str(id),
            "method" := Str(name), "params" := Obj(params)])
  }

  /** What the client makes of the answer to a request of its own. */
  function Answered(services: Services, id: string, name: string, params: map<string, Json>): Reply {
    ValidateResponse(Respond(services, RequestJson(id, name, params)), id)
  }

  /** The fields of an envelope. */
  predicate Envelope(payload: Json, id: string, own: string, other: string, body: Json) {
    && payload.Obj?
    && var f := payload.fields;
       && Lookup(f, "protocol") == Str(PROTOCOL_NAME) && Lookup(f, "version") == Int(1) && Lookup(f, "id") == Str(id)
       && own in f && other !in f && f[own] == body
  }

  lemma SuccessEnvelope(id: string, body: Json)
    ensures Envelope(SuccessResponse(Str(id), body), id, "result", "error", body)
  {
  }

  lemma ErrorEnvelope(id: string, code: string, message: string, retryable: bool)
    ensures Envelope(ErrorResponse(Str(id), code, message, retryable), id, "error", "result",
                     ErrorJson(TranscriptionError(code, message, retryable)))
  {
    hide ErrorJson;
  }

  lemma EnvelopeChecked(payload: Json, id: string, body: Json)
    ensures Envelope(payload, id, "result", "error", body) && body.Obj? ==>
              ValidateResponse(payload, id) == Result(body.fields)
    ensures Envelope(payload, id, "error", "result", body) ==> ValidateResponse(payload, id) == ValidateError(body)
  {
    hide Lookup, ValidateError;
  }

  lemma ErrorChecked(code: string, message: string, retryable: bool)
    ensures ValidateError(ErrorJson(TranscriptionError(code, message, retryable)))
            == ServiceError(code, message, retryable)
  {
  }

  lemma SuccessAccepted(id: string, fields: map<string, Json>)
    ensures ValidateResponse(SuccessResponse(Str(id), Obj(fields)), id) == Result(fields)
  {
    hide *;
    SuccessEnvelope(id, Obj(fields));
    EnvelopeChecked(SuccessResponse(Str(id), Obj(fields)), id, Obj(fields));
  }

  lemma ErrorAccepted(id: string, code: string, message: string, retryable: bool)
    ensures ValidateResponse(ErrorResponse(Str(id), code, message, retryable), id)
            == ServiceError(code, message, retryable)
  {
    hide *;
    var body := ErrorJson(TranscriptionError(code, message, retryable));
    ErrorEnvelope(id, code, message, retryable);
    EnvelopeChecked(ErrorResponse(Str(id), code, message, retryable), id, body);
    ErrorChecked(code, message, retryable);
  }

  lemma OwnRequestAccepted(id: string, name: string, params: map<string, Json>)
    requires 0 < |id| <= 128
    ensures Check(RequestJson(id, name, params)) == Accepted(id, name)
  {
  }

  /** `result` is what the engine returned for some file, under the options of request `id`. */
  ghost predicate FromEngine(services: Services, id: string, result: map<string, Json>) {
    exists path: string, options: TranscriptionOptions, r: TranscriptionResult ::
      options.requestId == id && services.transcribe(path, options) == Transcribed(r) && result == ResultFields(r)
  }

  lemma TranscribeShape(services: Services, id: string, fields: map<string, Json>)
    returns (ok: bool, result: map<string, Json>, error: TranscriptionError)
    ensures TranscribeResponse(services, id, fields)
         == if ok then SuccessResponse(Str(id), Obj(result))
            else ErrorResponse(Str(id), error.code, error.message, error.retryable)
    ensures ok ==> FromEngine(services, id, result)
  {
    hide SuccessResponse, ErrorResponse, ResultFields;
    ok, result := false, map[];
    var params := if "params" in fields then fields["params"] else Obj(map[]);
    if !params.Obj? {
      error := TranscriptionError("invalid_params", "params must be a JSON object", false);
      return;
    }
    var path := OptionalBoundedString(params.fields, "path", 32768);
    var language := OptionalBoundedString(params.fields, "language", 64);
    var model := OptionalBoundedString(params.fields, "model", 128);
    hide OptionalBoundedString;
    if path.Refused? {
      error := TranscriptionError("invalid_params", path.what, false);
    } else if path.value == "" {
      error := TranscriptionError("invalid_params", "params.path is required", false);
    } else if language.Refused? {
      error := TranscriptionError("invalid_params", language.what, false);
    } else if model.Refused? {
      error := TranscriptionError("invalid_params", model.what, false);
    } else {
      var options := TranscriptionOptions(id, language.value, model.value);
      match services.transcribe(path.value, options) {
        case Transcribed(r) =>
          ok, result, error := true, ResultFields(r), TranscriptionError("", "", false);
        case InvalidArgument(what) =>
          error := TranscriptionError("invalid_params", what, false);
        case Exception(what) =>
          error := TranscriptionError("runtime_error", what, true);
      }
    }
  }

  /** The dispatch answers with a result or with a structured error, under the id of the request. */
  lemma DispatchShape(services: Services, id: string, fields: map<string, Json>, name: string)
    returns (ok: bool, result: map<string, Json>, error: TranscriptionError)
    ensures Dispatch(services, id, fields, name)
         == if ok then SuccessResponse(Str(id), Obj(result))
            else ErrorResponse(Str(id), error.code, error.message, error.retryable)
    ensures name == "health" ==> ok && result == map["status" := Str("ready")]
    ensures name == "transcribe_file" && ok ==> FromEngine(services, id, result)
  {
    hide SuccessResponse, ErrorResponse, ResultFields;
    error := TranscriptionError("", "", false);
    if name == "health" {
      ok, result := true, map["status" := Str("ready")];
    } else if name == "capabilities" {
      ok, result := true, Capabilities();
    } else if name == "shutdown" {
      ok, result := true, map["status" := Str("stopping")];
    } else if name != "transcribe_file" {
      ok, result, error := false, map[], TranscriptionError("method_not_found", "Unknown method: " + name, false);
    } else {
      ok, result, error := TranscribeShape(services, id, fields);
    }
  }

  /** Client and server agree: every answer of the server to a request of the client is, for the
      client, either the server's result or the server's structured error, never a protocol error. */
  lemma AnswersAreUnderstood(services: Services, id: string, name: string, params: map<string, Json>)
    requires 0 < |id| <= 128
    ensures var r := Answered(services, id, name, params);
            && (r.Result? || r.ServiceError?)
            && (name == "health" ==> r == Result(map["status" := Str("ready")]))
            && (name == "transcribe_file" && r.Result? ==> FromEngine(services, id, r.fields))
  {
    var request := RequestJson(id, name, params);
    OwnRequestAccepted(id, name, params);
    hide Check, Dispatch, ValidateResponse, SuccessResponse, ErrorResponse, RequestJson, FromEngine;
    var ok, result, error := DispatchShape(services, id, request.fields, name);
    if ok {
      SuccessAccepted(id, result);
    } else {
      ErrorAccepted(id, error.code, error.message, error.retryable);
    }
  }

  /** What `transcribe_file` comes to on the server, in the arguments of the call: the engine is given exactly
      the file, the id, the language and the model, if they are within the limits. */
  function Transcription(services: Services, id: string, file: string, language: string, model: string): (r: Reply)
    ensures r.Result? <==>
              && 0 < |file| <= 32768 && |language| <= 64 && |model| <= 128
              && services.transcribe(file, TranscriptionOptions(id, language, model)).Transcribed?
    ensures r.Result? ==>
              r == Result(ResultFields(services.transcribe(file, TranscriptionOptions(id, language, model)).result))
  {
    if |file| > 32768 then ServiceError("invalid_params", "path is too long", false)
    else if file == "" then ServiceError("invalid_params", "params.path is required", false)
    else if |language| > 64 then ServiceError("invalid_params", "language is too long", false)
    else if |model| > 128 then ServiceError("invalid_params", "model is too long", false)
    else
      match services.transcribe(file, TranscriptionOptions(id, language, model))
      case Transcribed(result) => Result(ResultFields(result))
      case InvalidArgument(what) => ServiceError("invalid_params", what, false)
      case Exception(what) => ServiceError("runtime_error", what, true)
  }

  /** What the client asks; a language or a model that is not set is left out. */
  function TranscribeParams(file: string, language: string, model: string): map<string, Json> {
    map["path" := Str(file)]
    + (if language != "" then map["language" := Str(language)] else map[])
    + (if model != "" then map["model" := Str(model)] else map[])
  }

  lemma ParamsRead(file: string, language: string, model: string)
    ensures var params := TranscribeParams(file, language, model);
            && OptionalBoundedString(params, "path", 32768)
               == (if |file| > 32768 then Refused("path is too long") else Given(file))
            && OptionalBoundedString(params, "language", 64)
               == (if |language| > 64 then Refused("language is too long") else Given(language))
            && OptionalBoundedString(params, "model", 128)
               == (if |model| > 128 then Refused("model is too long") else Given(model))
  {
    assert "path" + " is too long" == "path is too long";
    assert "language" + " is too long" == "language is too long";
    assert "model" + " is too long" == "model is too long";
  }

  lemma RequestFields(id: string, name: string, params: map<string, Json>)
    ensures RequestJson(id, name, params).Obj? && "params" in RequestJson(id, name, params).fields
    ensures RequestJson(id, name, params).fields["params"] == Obj(params)
  {
  }

  /** The envelope of a reply. */
  function Enveloped(id: string, r: Reply): Json
    requires Understood(r)
  {
    if r.Result? then SuccessResponse(Str(id), Obj(r.fields))
    else ErrorResponse(Str(id), r.code, r.message, r.retryable)
  }

  lemma TranscriptionServed(services: Services, id: string, file: string, language: string, model: string,
                            fields: map<string, Json>)
    requires "params" in fields && fields["params"] == Obj(TranscribeParams(file, language, model))
    ensures TranscribeResponse(services, id, fields)
            == Enveloped(id, Transcription(services, id, file, language, model))
  {
    ParamsRead(file, language, model);
    hide SuccessResponse, ErrorResponse, ResultFields, OptionalBoundedString, TranscribeParams;
  }

  lemma EnvelopedAccepted(id: string, r: Reply)
    requires Understood(r)
    ensures ValidateResponse(Enveloped(id, r), id) == r
  {
    hide ValidateResponse, SuccessResponse, ErrorResponse;
    if r.Result? { SuccessAccepted(id, r.fields); } else { ErrorAccepted(id, r.code, r.message, r.retryable); }
  }

  lemma AnsweredIs(services: Services, id: string, params: map<string, Json>)
    requires 0 < |id| <= 128
    ensures Answered(services, id, "transcribe_file", params)
         == ValidateResponse(TranscribeResponse(services, id, RequestJson(id, "transcribe_file", params).fields), id)
  {
    OwnRequestAccepted(id, "transcribe_file", params);
    hide Check, ValidateResponse, TranscribeResponse, RequestJson;
  }

  lemma Understandable(services: Services, id: string, file: string, language: string, model: string)
    ensures Understood(Transcription(services, id, file, language, model))
  {
    hide ResultFields;
  }

  /** End to end: the client asks for what it was given, and takes the answer for what it is. */
  lemma TranscriptionAnswered(services: Services, id: string, file: string, language: string, model: string)
    requires 0 < |id| <= 128
    ensures Answered(services, id, "transcribe_file", TranscribeParams(file, language, model))
         == Transcription(services, id, file, language, model)
  {
    hide *;
    var params := TranscribeParams(file, language, model);
    RequestFields(id, "transcribe_file", params);
    AnsweredIs(services, id, params);
    TranscriptionServed(services, id, file, language, model, RequestJson(id, "transcribe_file", params).fields);
    Understandable(services, id, file, language, model);
    EnvelopedAccepted(id, Transcription(services, id, file, language, model));
  }

  /** Every field of a result as the server writes it. */
  lemma ResultFieldsHave(r: TranscriptionResult)
    ensures var f := ResultFields(r);
            && Lookup(f, "schema") == Str(TRANSCRIPTION_SCHEMA) && Lookup(f, "version") == Int(1)
            && Lookup(f, "request_id") == Str(r.requestId) && Lookup(f, "status") == Str(StatusName(r.status))
            && Lookup(f, "text") == Str(r.text) && Lookup(f, "provider") == Str(r.provider)
            && Lookup(f, "segments") == Arr(r.segments) && Lookup(f, "warnings") == Arr(r.warnings)
  {
    hide OptionalFields;
  }

  /** A field that is written or not. */
  function Perhaps(key: string, written: bool, value: Json): map<string, Json> {
    if written then map[key := value] else map[]
  }

  lemma LookupMerged(m: map<string, Json>, key: string, written: bool, value: Json, asked: string)
    ensures Lookup(m + Perhaps(key, written, value), asked)
            == if asked == key && written then value else Lookup(m, asked)
  {
  }

  lemma OptionalIs(r: TranscriptionResult)
    ensures OptionalFields(r)
         == Perhaps("language", r.language != "", Str(r.language))
            + Perhaps("duration_ms", r.durationMs > 0, Int(r.durationMs))
            + Perhaps("processing_ms", r.processingMs > 0, Int(r.processingMs))
            + Perhaps("model", r.model != "", Str(r.model))
            + Perhaps("error", r.error.Some?, if r.error.Some? then ErrorJson(r.error.value) else Null)
  {
    hide ErrorJson;
  }

  lemma OptionalLookup(r: TranscriptionResult, asked: string)
    ensures Lookup(OptionalFields(r), asked)
         == if asked == "error" && r.error.Some? then ErrorJson(r.error.value)
            else if asked == "model" && r.model != "" then Str(r.model)
            else if asked == "processing_ms" && r.processingMs > 0 then Int(r.processingMs)
            else if asked == "duration_ms" && r.durationMs > 0 then Int(r.durationMs)
            else if asked == "language" && r.language != "" then Str(r.language)
            else Null
  {
    OptionalIs(r);
    var m1 := Perhaps("language", r.language != "", Str(r.language));
    var m2 := m1 + Perhaps("duration_ms", r.durationMs > 0, Int(r.durationMs));
    var m3 := m2 + Perhaps("processing_ms", r.processingMs > 0, Int(r.processingMs));
    var m4 := m3 + Perhaps("model", r.model != "", Str(r.model));
    var error := if r.error.Some? then ErrorJson(r.error.value) else Null;
    assert map[] + m1 == m1 && Lookup(map[], asked) == Null;
    hide *;
    LookupMerged(map[], "language", r.language != "", Str(r.language), asked);
    LookupMerged(m1, "duration_ms", r.durationMs > 0, Int(r.durationMs), asked);
    LookupMerged(m2, "processing_ms", r.processingMs > 0, Int(r.processingMs), asked);
    LookupMerged(m3, "model", r.model != "", Str(r.model), asked);
    LookupMerged(m4, "error", r.error.Some?, error, asked);
  }

  lemma NotFixed(r: TranscriptionResult, asked: string)
    requires asked == "language" || asked == "duration_ms" || asked == "processing_ms" || asked == "model"
             || asked == "error"
    ensures Lookup(ResultFields(r), asked) == Lookup(OptionalFields(r), asked)
  {
    hide OptionalFields;
  }

  lemma OptionalAt(r: TranscriptionResult, asked: string)
    requires asked == "language" || asked == "duration_ms" || asked == "processing_ms" || asked == "model"
             || asked == "error"
    ensures Lookup(ResultFields(r), asked)
         == if asked == "error" && r.error.Some? then ErrorJson(r.error.value)
            else if asked == "model" && r.model != "" then Str(r.model)
            else if asked == "processing_ms" && r.processingMs > 0 then Int(r.processingMs)
            else if asked == "duration_ms" && r.durationMs > 0 then Int(r.durationMs)
            else if asked == "language" && r.language != "" then Str(r.language)
            else Null
  {
    hide *;
    NotFixed(r, asked);
    OptionalLookup(r, asked);
  }

  /** And the five that are there only when there is something to say. */
  lemma OptionalFieldsHave(r: TranscriptionResult)
    ensures var f := ResultFields(r);
            && Lookup(f, "language") == (if r.language != "" then Str(r.language) else Null)
            && Lookup(f, "duration_ms") == (if r.durationMs > 0 then Int(r.durationMs) else Null)
            && Lookup(f, "processing_ms") == (if r.processingMs > 0 then Int(r.processingMs) else Null)
            && Lookup(f, "model") == (if r.model != "" then Str(r.model) else Null)
            && Lookup(f, "error") == (if r.error.Some? then ErrorJson(r.error.value) else Null)
  {
    hide *;
    OptionalAt(r, "language");
    OptionalAt(r, "duration_ms");
    OptionalAt(r, "processing_ms");
    OptionalAt(r, "model");
    OptionalAt(r, "error");
  }

  lemma StatusKnown(s: Status)
    ensures KnownStatus(StatusName(s))
  {
  }

  lemma FieldsAccepted(f: map<string, Json>, requestId: string, status: string, text: string, id: string)
    requires Lookup(f, "schema") == Str(TRANSCRIPTION_SCHEMA) && Lookup(f, "version") == Int(1)
    requires Lookup(f, "request_id") == Str(requestId) && Lookup(f, "status") == Str(status) && KnownStatus(status)
    requires Lookup(f, "text") == Str(text)
    ensures ValidateTranscription(f, id)
         == if requestId == id then Result(f) else ProtocolError("Transcription result ID did not match the request")
  {
    assert f["status"] == Lookup(f, "status");
    hide Lookup, KnownStatus;
  }

  /** A transcription result passes the second check exactly when it carries the request's id. */
  lemma ResultAccepted(result: TranscriptionResult, id: string)
    ensures ValidateTranscription(ResultFields(result), id)
         == if result.requestId == id then Result(ResultFields(result))
            else ProtocolError("Transcription result ID did not match the request")
  {
    ResultFieldsHave(result);
    StatusKnown(result.status);
    hide *;
    FieldsAccepted(ResultFields(result), result.requestId, StatusName(result.status), result.text, id);
  }

  /** Only a payload that carries the id of the request is ever taken for its answer. */
  lemma WrongIdRejected(payload: Json, id: string)
    ensures var r := ValidateResponse(payload, id);
            && (r.Result? || r.ServiceError? ==> payload.Obj? && Lookup(payload.fields, "id") == Str(id))
            && (r.Result? ==> "result" in payload.fields && payload.fields["result"] == Obj(r.fields))
            && !r.TransportError? && !r.TypeError?
  {
  }
}
