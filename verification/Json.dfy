/** JSON values, as the protocol exchanges them. */
module Json {
  datatype Json =
    | Null
    | Bool(b: bool)
    | Int(n: int)
    | Real(r: real)
    | Str(s: string)
    | Arr(items: seq<Json>)
    | Obj(fields: map<string, Json>)

  const PROTOCOL_NAME: string := "autowhisper.local"
  const PROTOCOL_VERSION: int := 1
  const TRANSCRIPTION_SCHEMA: string := "fabric.transcription"
  const TRANSCRIPTION_VERSION: int := 1
}
