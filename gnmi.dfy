/**
 * The pieces of the OpenConfig gNMI protocol buffers and of the gRPC status
 * codes that the telemetry server reads or produces.
 */
module Gnmi {
  import opened Wrappers

  /** One element of a structured gNMI path: a name and its key map. */
  datatype PathElem = PathElem(name: string, key: map<string, string>)

  /**
   * A gNMI path.  An absent element list and an empty one are the same value
   * here, as they are once a path has crossed the wire.
   */
  datatype Path = Path(origin: string, target: string, elem: seq<PathElem>)

  /** gnmi.Encoding, numbered as in the protocol (JSON = 0 … JSON_IETF = 4). */
  datatype Encoding = JSON | BYTES | PROTO | ASCII | JSON_IETF

  /** gnmi.SubscriptionMode: TARGET_DEFINED = 0, ON_CHANGE = 1, SAMPLE = 2. */
  datatype SubscriptionMode = TARGET_DEFINED | ON_CHANGE | SAMPLE

  /** gnmi.GetRequest_DataType: ALL = 0, CONFIG = 1, STATE = 2, OPERATIONAL = 3. */
  datatype DataType = ALL | CONFIG | STATE | OPERATIONAL

  /** gnmi.UpdateResult_Operation. */
  datatype Operation = INVALID | DELETE | REPLACE | UPDATE

  /**
   * The gRPC status codes the server returns; a plain Go error returned
   * from a handler reaches the client as Unknown.
   */
  datatype Code = OK | Unknown | NotFound | Unimplemented | InvalidArgument | Internal

  /** gnmi.ModelData: a schema model a client asks the server to use. */
  datatype ModelData = ModelData(name: string, organization: string, version: string)

  /** A JSON document, as the server builds it before encoding (numbers are integers here). */
  datatype JsonValue =
    | JString(s: string)
    | JNumber(n: int)
    | JBool(b: bool)
    | JNull
    | JArray(items: seq<JsonValue>)
    | JObject(members: map<string, JsonValue>)

  /**
   * gnmi.TypedValue.  JSON payloads are carried as the document they
   * encode; a floating-point value carries nothing.
   */
  datatype TypedValue =
    | StringVal(s: string)
    | IntVal(i: int)
    | UintVal(u: nat)
    | BoolVal(b: bool)
    | FloatVal
    | JsonVal(json: JsonValue)
    | JsonIetfVal(json: JsonValue)
    | AsciiVal(a: string)

  /** gnmi.Update: one path and its value. */
  datatype Update = Update(path: Option<Path>, val: Option<TypedValue>)

  /** gnmi.Notification. */
  datatype Notification = Notification(timestamp: int, prefix: Option<Path>, update: seq<Update>)

  /** gnmi.SubscribeResponse: a sync marker or one notification. */
  datatype SubscribeResponse = SyncResponse | UpdateResponse(notification: Notification)

  function Names(elems: seq<PathElem>): (r: seq<string>)
    ensures |r| == |elems|
    ensures forall i :: 0 <= i < |elems| ==> r[i] == elems[i].name
  {
    if elems == [] then [] else [elems[0].name] + Names(elems[1..])
  }

  /** One more element adds its name at the end. */
  lemma NamesSnoc(elems: seq<PathElem>, e: PathElem)
    ensures Names(elems + [e]) == Names(elems) + [e.name]
  {
    assert Names(elems + [e]) == Names(elems) + [e.name];
  }
}
