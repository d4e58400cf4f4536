/**
 * The gNMI server's Get and Set handlers (gnmi_server/server.go): the
 * encoding check, the validation chain of Get and the notifications it
 * builds, the value conversion of getUpdateVal, and the order in which Set
 * applies and reports its operations.  The data clients Get reads through
 * and the client Set writes through are parameters.
 */
module GnmiServer {
  import opened Wrappers
  import opened Gnmi
  import opened GoMaps
  import opened GoStrings
  import SonicProto

  /** The outcome of one RPC: a response, a gRPC status error, or a panic of the handler. */
  datatype Reply<T> = Reply(value: T) | Failed(code: Code, msg: string) | Panicked(reason: string)

  const IndexOutOfRange := "runtime error: index out of range"
  const NilDereference := "runtime error: invalid memory address or nil pointer dereference"
  const NotAnObject := "interface conversion: interface {} is not map[string]interface {}"

  /* checkEncodingAndModel */

  /** The encodings the server accepts, in the order it compares them. */
  const SupportedEncodings: seq<Encoding> := [JSON, JSON_IETF]

  /** gnmi.Encoding_name. */
  function EncodingName(e: Encoding): string
  {
    match e
    case JSON => "JSON"
    case BYTES => "BYTES"
    case PROTO => "PROTO"
    case ASCII => "ASCII"
    case JSON_IETF => "JSON_IETF"
  }

  /** gnmi.GetRequest_DataType_name. */
  function DataTypeName(t: DataType): string
  {
    match t
    case ALL => "ALL"
    case CONFIG => "CONFIG"
    case STATE => "STATE"
    case OPERATIONAL => "OPERATIONAL"
  }

  /**
   * Only JSON and JSON_IETF pass; the requested models are not looked at,
   * so the verdict depends on the encoding alone.
   */
  method CheckEncodingAndModel(encoding: Encoding, models: seq<ModelData>) returns (st: Status)
    ensures st.Success? <==> encoding == JSON || encoding == JSON_IETF
    ensures st.Failure? ==> st.msg == "unsupported encoding: " + EncodingName(encoding)
    ensures !st.Crash?
  {
    var hasSupportedEncoding := false;
    for i := 0 to |SupportedEncodings|
      invariant !hasSupportedEncoding
      invariant forall j :: 0 <= j < i ==> SupportedEncodings[j] != encoding
    {
      if encoding == SupportedEncodings[i] {
        hasSupportedEncoding := true;
        break;
      }
    }
    assert SupportedEncodings[0] == JSON && SupportedEncodings[1] == JSON_IETF;
    if !hasSupportedEncoding {
      return Failure("unsupported encoding: " + EncodingName(encoding));
    }
    return Success;
  }

  /* Get */

  datatype GetRequest = GetRequest(prefix: Option<Path>, path: seq<Path>, dataType: DataType,
                                   encoding: Encoding, useModels: seq<ModelData>)

  /**
   * A data client of the Get RPC: built for the requested paths under the
   * prefix and read once.  A failure of either step is an `Err`.
   */
  type ClientRead = (seq<Path>, Path) -> Result<seq<SonicProto.Value>>

  /** The OTHERS target is served by the non-DB client, every other target by the DB client. */
  function ClientFor(target: string, readDb: ClientRead, readNonDb: ClientRead): ClientRead
  {
    if target == "OTHERS" then readNonDb else readDb
  }

  /** The notification Get makes of one value the client returned. */
  function NotificationOf(prefix: Path, v: SonicProto.Value): Notification
  {
    Notification(v.timestamp, Some(prefix), [Update(v.path, v.val)])
  }

  /** The request passes every check before the client is built. */
  predicate GetAccepted(req: GetRequest)
  {
    && req.dataType == ALL
    && (req.encoding == JSON || req.encoding == JSON_IETF)
    && req.prefix.Some?
    && req.prefix.value.target != ""
  }

  /**
   * What Get answers.  The notification list has one slot per requested
   * path; slot `i` holds the client's `i`-th value, and slots beyond the
   * values are left empty (nil).  More values than paths index past the
   * list and panic.
   */
  function GetReply(req: GetRequest, readDb: ClientRead, readNonDb: ClientRead): (r: Reply<seq<Option<Notification>>>)
    ensures (r.Failed? && r.code == Unimplemented) <==> !GetAccepted(req)
    ensures req.dataType != ALL ==> r == Failed(Unimplemented, "unsupported request type: " + DataTypeName(req.dataType))
    ensures r.Failed? && GetAccepted(req) ==> r.code == NotFound
    ensures r.Reply? ==>
      && GetAccepted(req)
      && |r.value| == |req.path|
      && var got := ClientFor(req.prefix.value.target, readDb, readNonDb)(req.path, req.prefix.value);
      && got.Ok?
      && (forall i :: 0 <= i < |r.value| ==> (r.value[i].Some? <==> i < |got.value|))
      && (forall i :: 0 <= i < |r.value| && r.value[i].Some? ==>
            && r.value[i].value.prefix == req.prefix
            && r.value[i].value.update == [Update(got.value[i].path, got.value[i].val)])
  {
    if req.dataType != ALL then Failed(Unimplemented, "unsupported request type: " + DataTypeName(req.dataType))
    else if !(req.encoding == JSON || req.encoding == JSON_IETF) then
      Failed(Unimplemented, "unsupported encoding: " + EncodingName(req.encoding))
    else if req.prefix.None? then Failed(Unimplemented, "No target specified in prefix")
    else if req.prefix.value.target == "" then Failed(Unimplemented, "Empty target data not supported yet")
    else
      var prefix := req.prefix.value;
      match ClientFor(prefix.target, readDb, readNonDb)(req.path, prefix)
      case Err(msg) => Failed(NotFound, msg)
      case Panic(reason) => Panicked(reason)
      case Ok(values) =>
        if |values| > |req.path| then Panicked(IndexOutOfRange)
        else Reply(seq(|req.path|, i requires 0 <= i < |req.path| =>
                         if i < |values| then Some(NotificationOf(prefix, values[i])) else None))
  }

  /**
   * The Get handler: the checks in order, the client for the target, and
   * the notification list filled slot by slot.
   */
  method Get(req: GetRequest, readDb: ClientRead, readNonDb: ClientRead) returns (r: Reply<seq<Option<Notification>>>)
    ensures r == GetReply(req, readDb, readNonDb)
  {
    if req.dataType != ALL {
      return Failed(Unimplemented, "unsupported request type: " + DataTypeName(req.dataType));
    }
    var err := CheckEncodingAndModel(req.encoding, req.useModels);
    if err.Failure? {
      return Failed(Unimplemented, err.msg);
    }
    if req.prefix.None? {
      return Failed(Unimplemented, "No target specified in prefix");
    }
    var prefix := req.prefix.value;
    var target := prefix.target;
    if target == "" {
      return Failed(Unimplemented, "Empty target data not supported yet");
    }
    var dc := ClientFor(target, readDb, readNonDb);
    var got := dc(req.path, prefix);
    if got.Err? {
      return Failed(NotFound, got.msg);
    } else if got.Panic? {
      return Panicked(got.reason);
    }
    var spbValues := got.value;
    var notifications := new Option<Notification>[|req.path|](_ => None);
    for index := 0 to |spbValues|
      invariant index <= notifications.Length
      invariant forall j :: 0 <= j < notifications.Length ==>
        notifications[j] == if j < index then Some(NotificationOf(prefix, spbValues[j])) else None
    {
      if index >= notifications.Length {
        return Panicked(IndexOutOfRange);
      }
      notifications[index] := Some(NotificationOf(prefix, spbValues[index]));
    }
    assert notifications[..] == seq(|req.path|, i requires 0 <= i < |req.path| =>
      if i < |spbValues| then Some(NotificationOf(prefix, spbValues[i])) else None);
    return Reply(notifications[..]);
  }

  /** Only the data client of the request's target is consulted. */
  lemma {:induction false} OthersUsesNonDbClient(req: GetRequest, readDb: ClientRead, readDb': ClientRead, readNonDb: ClientRead)
    requires req.prefix.Some? && req.prefix.value.target == "OTHERS"
    ensures GetReply(req, readDb, readNonDb) == GetReply(req, readDb', readNonDb)
  {
  }

  /* getUpdateVal */

  /**
   * The value getUpdateVal hands to the client's Set: a string, a map of
   * field values, or a map of objects.
   */
  datatype SetArg = Text(s: string) | FieldMap(fields: map<string, string>) | NestedMap(tables: map<string, map<string, JsonValue>>)

  /** A JSON member getUpdateVal turns into a field value. */
  predicate IsField(v: JsonValue)
  {
    v.JString? || v.JNumber? || v.JBool?
  }

  /**
   * The text of a field value.  encoding/json decodes every JSON number as a
   * float64, so numbers take the floating-point branch, whose rendering is
   * the parameter `formatFloat`.
   */
  function FieldText(v: JsonValue, formatFloat: int -> string): string
    requires IsField(v)
  {
    match v
    case JString(s) => s
    case JNumber(n) => formatFloat(n)
    case JBool(b) => if b then "true" else "false"
  }

  /**
   * What getUpdateVal makes of a typed value; a nil value is dereferenced
   * and panics.  A JSON_IETF object all of
   * whose members are strings, numbers, booleans or objects becomes a map of
   * objects when at least one member is an object (its other members are
   * dropped), and a map of field texts otherwise.
   */
  function UpdateVal(t: Option<TypedValue>, formatFloat: int -> string): (r: Result<SetArg>)
    ensures r.Ok? ==> t.Some? && (t.value.IntVal? || t.value.StringVal? || t.value.JsonIetfVal?)
    ensures r.Panic? <==> t.None? || (t.value.JsonIetfVal? && !t.value.json.JObject?)
    ensures t.Some? && t.value.JsonIetfVal? && t.value.json.JObject? ==> r == MembersVal(t.value.json.members, formatFloat)
    ensures t.Some? && t.value.IntVal? ==> r == Ok(Text(IntToString(t.value.i)))
    ensures t.Some? && t.value.StringVal? ==> r == Ok(Text(t.value.s))
    ensures t.Some? && !(t.value.IntVal? || t.value.StringVal? || t.value.JsonIetfVal?) ==> r == Err("typedValue: type not supported")
  {
    match t
    case None => Panic(NilDereference)
    case Some(IntVal(i)) => Ok(Text(IntToString(i)))
    case Some(StringVal(s)) => Ok(Text(s))
    case Some(JsonIetfVal(f)) =>
      if !f.JObject? then Panic(NotAnObject) else MembersVal(f.members, formatFloat)
    case Some(_) => Err("typedValue: type not supported")
  }

  /**
   * An integer value converts to its decimal text, which reads back as the
   * integer: a minus sign exactly for negative values, then the digits of
   * the magnitude.
   */
  lemma {:induction false} IntValReadsBack(i: int, formatFloat: int -> string)
    ensures UpdateVal(Some(IntVal(i)), formatFloat).Ok? && UpdateVal(Some(IntVal(i)), formatFloat).value.Text?
    ensures var s := UpdateVal(Some(IntVal(i)), formatFloat).value.s;
      && |s| > 0 && (s[0] == '-' <==> i < 0)
      && var d := if i < 0 then s[1..] else s;
      && |d| > 0 && (forall k :: 0 <= k < |d| ==> IsDigit(d[k]))
      && ParseNat(d) == if i < 0 then -i else i
  {
    var m: nat := if i < 0 then -i else i;
    NatToStringRoundTrip(m);
    IntToStringSign(i);
    if i < 0 {
      assert IntToString(i)[1..] == NatToString(m);
    }
  }

  /** A member getUpdateVal accepts. */
  predicate Supported(v: JsonValue)
  {
    IsField(v) || v.JObject?
  }

  /** What getUpdateVal makes of the members of a JSON_IETF object. */
  function MembersVal(m: map<string, JsonValue>, formatFloat: int -> string): (r: Result<SetArg>)
    ensures r.Ok? <==> forall k :: k in m ==> Supported(m[k])
    ensures !r.Panic?
    ensures r.Ok? ==> r.value.FieldMap? || r.value.NestedMap?
    ensures r.Ok? && r.value.NestedMap? ==>
      && (forall k :: k in r.value.tables <==> k in m && m[k].JObject?)
      && (forall k :: k in r.value.tables ==> r.value.tables[k] == m[k].members)
    ensures r.Ok? && r.value.FieldMap? ==>
      && r.value.fields.Keys == m.Keys
      && (forall k :: k in r.value.fields ==> IsField(m[k]) && r.value.fields[k] == FieldText(m[k], formatFloat))
  {
    if exists k :: k in m && !Supported(m[k]) then Err("typedValue: field type not supported")
    else if exists k :: k in m && m[k].JObject? then
      Ok(NestedMap(map k | k in m && m[k].JObject? :: m[k].members))
    else Ok(FieldMap(map k | k in m :: FieldText(m[k], formatFloat)))
  }

  /** getUpdateVal: a switch on the kind of value. */
  method GetUpdateVal(t: Option<TypedValue>, formatFloat: int -> string) returns (r: Result<SetArg>)
    ensures r == UpdateVal(t, formatFloat)
  {
    match t
    case None => return Panic(NilDereference);
    case Some(IntVal(i)) => return Ok(Text(IntToString(i)));
    case Some(StringVal(s)) => return Ok(Text(s));
    case Some(JsonIetfVal(f)) =>
      if !f.JObject? {
        return Panic(NotAnObject);
      }
      r := ConvertMembers(f.members, formatFloat);
    case Some(_) => return Err("typedValue: type not supported");
  }

  /** getUpdateVal on a JSON object: its members, then the choice of result. */
  method ConvertMembers(m: map<string, JsonValue>, formatFloat: int -> string) returns (r: Result<SetArg>)
    ensures r == MembersVal(m, formatFloat)
  {
    KeyOrderExists(m.Keys);
    var order: seq<string> :| IsKeyOrder(order, m.Keys);
    var supported, fv, fv1, mapflag := CollectMembers(m, order, formatFloat);
    if !supported {
      return Err("typedValue: field type not supported");
    }
    if mapflag {
      assert fv1 == map k | k in m && m[k].JObject? :: m[k].members;
      return Ok(NestedMap(fv1));
    } else {
      assert fv == map k | k in m :: FieldText(m[k], formatFloat);
      return Ok(FieldMap(fv));
    }
  }

  /**
   * getUpdateVal's loop over the members of a JSON object, in the visiting
   * order `order`: field values go to `fv`, objects to `fv1`, and the first
   * member of another kind ends it.
   */
  method CollectMembers(m: map<string, JsonValue>, order: seq<string>, formatFloat: int -> string)
    returns (supported: bool, fv: map<string, string>, fv1: map<string, map<string, JsonValue>>, mapflag: bool)
    requires IsKeyOrder(order, m.Keys)
    ensures supported <==> forall k :: k in m ==> Supported(m[k])
    ensures supported ==>
      && (forall k :: k in fv <==> k in m && IsField(m[k]))
      && (forall k :: k in fv ==> fv[k] == FieldText(m[k], formatFloat))
      && (forall k :: k in fv1 <==> k in m && m[k].JObject?)
      && (forall k :: k in fv1 ==> fv1[k] == m[k].members)
      && (mapflag <==> exists k :: k in m && m[k].JObject?)
  {
    fv, fv1, mapflag := map[], map[], false;
    ghost var seen: set<string> := {};
    for i := 0 to |order|
      invariant seen <= m.Keys
      invariant forall j :: 0 <= j < i ==> order[j] in seen
      invariant forall k :: k in seen ==> Supported(m[k])
      invariant forall k :: k in fv <==> k in seen && IsField(m[k])
      invariant forall k :: k in fv ==> fv[k] == FieldText(m[k], formatFloat)
      invariant forall k :: k in fv1 <==> k in seen && m[k].JObject?
      invariant forall k :: k in fv1 ==> fv1[k] == m[k].members
      invariant mapflag <==> fv1 != map[]
    {
      var k := order[i];
      var v := m[k];
      seen := seen + {k};
      if IsField(v) {
        fv := fv[k := FieldText(v, formatFloat)];
      } else if v.JObject? {
        fv1 := fv1[k := v.members];
        mapflag := true;
      } else {
        return false, fv, fv1, mapflag;
      }
    }
    assert seen == m.Keys;
    if mapflag {
      ghost var k :| k in fv1;
    }
    supported := true;
  }

  /**
   * A JSON object that mixes field values and objects passes on its objects
   * only: the field values do not reach the client.
   */
  lemma {:induction false} MixedObjectDropsFields(m: map<string, JsonValue>, k: string, k': string, formatFloat: int -> string)
    requires forall x :: x in m ==> IsField(m[x]) || m[x].JObject?
    requires k in m && IsField(m[k]) && k' in m && m[k'].JObject?
    ensures UpdateVal(Some(JsonIetfVal(JObject(m))), formatFloat).Ok?
    ensures k !in UpdateVal(Some(JsonIetfVal(JObject(m))), formatFloat).value.tables
  {
  }

  /* Set */

  datatype SetRequest = SetRequest(prefix: Option<Path>, delete: seq<Path>, replace: seq<Update>, update: seq<Update>)

  /** One call of the client's Set: the path and the value to write. */
  datatype SetCall = SetCall(path: Option<Path>, arg: SetArg)

  /** gnmi.UpdateResult: a path and the operation applied to it. */
  datatype UpdateResult = UpdateResult(path: Option<Path>, op: Operation)

  datatype SetResponse = SetResponse(prefix: Option<Path>, response: seq<UpdateResult>)

  /**
   * The client's Set: the error it returns for `call`, given the calls made
   * before it on the same client (whose writes the store now holds).
   */
  type ClientWrite = (seq<SetCall>, SetCall) -> Option<string>

  /** One operation of a Set request: its path, its kind, and the value converted for the client. */
  datatype Step = Step(path: Option<Path>, op: Operation, arg: Result<SetArg>)

  function StepCount(req: SetRequest): nat
  {
    |req.delete| + |req.replace| + |req.update|
  }

  /** Operation `i` of a request in the order Set performs them: deletes, replaces, updates. */
  function StepAt(req: SetRequest, formatFloat: int -> string, i: nat): Step
    requires i < StepCount(req)
  {
    var d, p := |req.delete|, |req.replace|;
    if i < d then Step(Some(req.delete[i]), DELETE, Ok(Text("")))
    else if i < d + p then Step(req.replace[i - d].path, REPLACE, UpdateVal(req.replace[i - d].val, formatFloat))
    else Step(req.update[i - d - p].path, UPDATE, UpdateVal(req.update[i - d - p].val, formatFloat))
  }

  function Steps(req: SetRequest, formatFloat: int -> string): seq<Step>
  {
    seq(StepCount(req), i requires 0 <= i < StepCount(req) => StepAt(req, formatFloat, i))
  }

  /** Where Set stands: still going, or stopped by a failure after `calls`. */
  datatype Exec = Going(calls: seq<SetCall>, results: seq<UpdateResult>) | Halted(calls: seq<SetCall>, failure: Reply<SetResponse>)

  /** Performing one operation: convert its value, call the client, record the result. */
  function Perform(e: Exec, s: Step, write: ClientWrite): Exec
  {
    if e.Halted? then e
    else match s.arg
      case Err(msg) => Halted(e.calls, Failed(Unknown, msg))
      case Panic(reason) => Halted(e.calls, Panicked(reason))
      case Ok(a) =>
        var call := SetCall(s.path, a);
        match write(e.calls, call)
        case Some(msg) => Halted(e.calls + [call], Failed(Unknown, msg))
        case None => Going(e.calls + [call], e.results + [UpdateResult(s.path, s.op)])
  }

  /** The first `n` operations performed in order. */
  function Execute(steps: seq<Step>, write: ClientWrite, n: nat): (e: Exec)
    requires n <= |steps|
    ensures e.Halted? ==> (e.failure.Failed? && e.failure.code == Unknown) || e.failure.Panicked?
  {
    if n == 0 then Going([], []) else Perform(Execute(steps, write, n - 1), steps[n - 1], write)
  }

  /**
   * What Set answers and the client calls it makes.  Only CONFIG_DB is
   * written; a request it accepts reaches the client in full or up to its
   * first failure.
   */
  function SetReply(req: SetRequest, clientErr: Option<string>, write: ClientWrite, formatFloat: int -> string): (r: (Reply<SetResponse>, seq<SetCall>))
    ensures (r.0.Failed? && r.0.code == Unimplemented) <==> req.prefix.None? || req.prefix.value.target != "CONFIG_DB"
    ensures r.0.Failed? && r.0.code == NotFound <==> req.prefix.Some? && req.prefix.value.target == "CONFIG_DB" && clientErr.Some?
    ensures r.1 != [] ==> req.prefix.Some? && req.prefix.value.target == "CONFIG_DB" && clientErr.None?
    ensures r.0.Reply? ==> r.0.value.prefix == req.prefix
  {
    if req.prefix.None? then (Failed(Unimplemented, "No target specified in prefix"), [])
    else if req.prefix.value.target == "" then (Failed(Unimplemented, "Empty target data not supported yet"), [])
    else if req.prefix.value.target != "CONFIG_DB" then (Failed(Unimplemented, "unsupported request target"), [])
    else if clientErr.Some? then (Failed(NotFound, clientErr.value), [])
    else Finish(req.prefix, Execute(Steps(req, formatFloat), write, StepCount(req)))
  }

  /** The reply and the calls of an accepted request once its operations have run. */
  function Finish(prefix: Option<Path>, e: Exec): (Reply<SetResponse>, seq<SetCall>)
  {
    if e.Going? then (Reply(SetResponse(prefix, e.results)), e.calls) else (e.failure, e.calls)
  }

  /** The operations in Set's order: the deletes, then the replaces, then the updates. */
  lemma {:induction false} StepsLayout(req: SetRequest, formatFloat: int -> string)
    ensures |Steps(req, formatFloat)| == StepCount(req)
    ensures forall i :: 0 <= i < |req.delete| ==> Steps(req, formatFloat)[i] == Step(Some(req.delete[i]), DELETE, Ok(Text("")))
    ensures forall i :: 0 <= i < |req.replace| ==>
      Steps(req, formatFloat)[|req.delete| + i] == Step(req.replace[i].path, REPLACE, UpdateVal(req.replace[i].val, formatFloat))
    ensures forall i :: 0 <= i < |req.update| ==>
      Steps(req, formatFloat)[|req.delete| + |req.replace| + i] == Step(req.update[i].path, UPDATE, UpdateVal(req.update[i].val, formatFloat))
  {
  }

  /** A failure is final: later operations change nothing. */
  lemma {:induction false} HaltStays(steps: seq<Step>, write: ClientWrite, n: nat, m: nat)
    requires n <= m <= |steps| && Execute(steps, write, n).Halted?
    ensures Execute(steps, write, m) == Execute(steps, write, n)
    decreases m
  {
    if m > n {
      HaltStays(steps, write, n, m - 1);
    }
  }

  /**
   * The Set handler.  The deletes, replaces and updates are applied in
   * three loops, each recording one result per operation.
   */
  method Set(req: SetRequest, clientErr: Option<string>, write: ClientWrite, formatFloat: int -> string)
    returns (r: Reply<SetResponse>, calls: seq<SetCall>)
    ensures r == SetReply(req, clientErr, write, formatFloat).0
    ensures calls == SetReply(req, clientErr, write, formatFloat).1
  {
    if req.prefix.None? {
      return Failed(Unimplemented, "No target specified in prefix"), [];
    }
    var target := req.prefix.value.target;
    if target == "" {
      return Failed(Unimplemented, "Empty target data not supported yet"), [];
    }
    if target != "CONFIG_DB" {
      return Failed(Unimplemented, "unsupported request target"), [];
    }
    if clientErr.Some? {
      return Failed(NotFound, clientErr.value), [];
    }
    StepsLayout(req, formatFloat);
    r, calls := ApplyAll(req, Steps(req, formatFloat), write, formatFloat);
  }

  /** The three loops of Set over an accepted request. */
  method ApplyAll(req: SetRequest, ghost steps: seq<Step>, write: ClientWrite, formatFloat: int -> string)
    returns (r: Reply<SetResponse>, calls: seq<SetCall>)
    requires |steps| == |req.delete| + |req.replace| + |req.update|
    requires forall i :: 0 <= i < |req.delete| ==> steps[i] == Step(Some(req.delete[i]), DELETE, Ok(Text("")))
    requires forall i :: 0 <= i < |req.replace| ==>
      steps[|req.delete| + i] == Step(req.replace[i].path, REPLACE, UpdateVal(req.replace[i].val, formatFloat))
    requires forall i :: 0 <= i < |req.update| ==>
      steps[|req.delete| + |req.replace| + i] == Step(req.update[i].path, UPDATE, UpdateVal(req.update[i].val, formatFloat))
    ensures r == Finish(req.prefix, Execute(steps, write, |steps|)).0
    ensures calls == Finish(req.prefix, Execute(steps, write, |steps|)).1
  {
    var failure, results;
    failure, calls, results := ApplyDeletes(steps, req.delete, write);
    if failure.Some? {
      return failure.value, calls;
    }
    failure, calls, results := ApplyUpdates(steps, |req.delete|, req.replace, REPLACE, write, formatFloat, calls, results);
    if failure.Some? {
      return failure.value, calls;
    }
    failure, calls, results := ApplyUpdates(steps, |req.delete| + |req.replace|, req.update, UPDATE, write, formatFloat, calls, results);
    if failure.Some? {
      return failure.value, calls;
    }
    return Reply(SetResponse(req.prefix, results)), calls;
  }

  /** Set's delete loop: each path is written with the empty string. */
  method ApplyDeletes(ghost steps: seq<Step>, paths: seq<Path>, write: ClientWrite)
    returns (failure: Option<Reply<SetResponse>>, calls: seq<SetCall>, results: seq<UpdateResult>)
    requires |paths| <= |steps|
    requires forall i :: 0 <= i < |paths| ==> steps[i] == Step(Some(paths[i]), DELETE, Ok(Text("")))
    ensures failure.None? ==> Execute(steps, write, |paths|) == Going(calls, results)
    ensures failure.Some? ==> Execute(steps, write, |steps|) == Halted(calls, failure.value)
    ensures failure.None? ==> |calls| == |results| == |paths|
    ensures forall i :: 0 <= i < |calls| ==> i < |paths| && calls[i] == SetCall(Some(paths[i]), Text(""))
    ensures forall i :: 0 <= i < |results| ==> i < |paths| && results[i] == UpdateResult(Some(paths[i]), DELETE)
  {
    calls, results := [], [];
    for i := 0 to |paths|
      invariant Execute(steps, write, i) == Going(calls, results)
    {
      var path := paths[i];
      var call := SetCall(Some(path), Text(""));
      var err := write(calls, call);
      calls := calls + [call];
      if err.Some? {
        HaltStays(steps, write, i + 1, |steps|);
        DeletesRun(steps, paths, write, i);
        DeletesRun(steps, paths, write, i + 1);
        return Some(Failed(Unknown, err.value)), calls, results;
      }
      results := results + [UpdateResult(Some(path), DELETE)];
    }
    DeletesRun(steps, paths, write, |paths|);
    failure := None;
  }

  /** Over delete operations only, the calls and results so far are those of the paths in order. */
  lemma {:induction false} DeletesRun(steps: seq<Step>, paths: seq<Path>, write: ClientWrite, n: nat)
    requires n <= |paths| <= |steps|
    requires forall i :: 0 <= i < |paths| ==> steps[i] == Step(Some(paths[i]), DELETE, Ok(Text("")))
    ensures var e := Execute(steps, write, n);
      && (e.Going? ==> |e.calls| == |e.results| == n)
      && |e.calls| <= n
      && (forall i :: 0 <= i < |e.calls| ==> e.calls[i] == SetCall(Some(paths[i]), Text("")))
      && (e.Going? ==> forall i :: 0 <= i < |e.results| ==> e.results[i] == UpdateResult(Some(paths[i]), DELETE))
  {
    if n > 0 {
      DeletesRun(steps, paths, write, n - 1);
      var e := Execute(steps, write, n - 1);
      if e.Going? {
        var call := SetCall(Some(paths[n - 1]), Text(""));
        assert steps[n - 1] == Step(Some(paths[n - 1]), DELETE, Ok(Text("")));
        assert Execute(steps, write, n) == Perform(e, steps[n - 1], write);
        assert Execute(steps, write, n).calls == e.calls + [call];
        if write(e.calls, call).None? {
          assert Execute(steps, write, n).results == e.results + [UpdateResult(Some(paths[n - 1]), DELETE)];
        }
      }
    }
  }

  /** One of Set's replace and update loops, over the operations from position `off` on. */
  method ApplyUpdates(ghost steps: seq<Step>, ghost off: nat, us: seq<Update>, op: Operation, write: ClientWrite,
                      formatFloat: int -> string, calls0: seq<SetCall>, results0: seq<UpdateResult>)
    returns (failure: Option<Reply<SetResponse>>, calls: seq<SetCall>, results: seq<UpdateResult>)
    requires off + |us| <= |steps|
    requires forall i :: 0 <= i < |us| ==> steps[off + i] == Step(us[i].path, op, UpdateVal(us[i].val, formatFloat))
    requires Execute(steps, write, off) == Going(calls0, results0)
    ensures failure.None? ==> Execute(steps, write, off + |us|) == Going(calls, results)
    ensures failure.Some? ==> Execute(steps, write, |steps|) == Halted(calls, failure.value)
  {
    calls, results := calls0, results0;
    for i := 0 to |us|
      invariant Execute(steps, write, off + i) == Going(calls, results)
    {
      var path := us[i];
      var val := GetUpdateVal(path.val, formatFloat);
      if !val.Ok? {
        HaltStays(steps, write, off + i + 1, |steps|);
        return Some(if val.Err? then Failed(Unknown, val.msg) else Panicked(val.reason)), calls, results;
      }
      var call := SetCall(path.path, val.value);
      var err := write(calls, call);
      calls := calls + [call];
      if err.Some? {
        HaltStays(steps, write, off + i + 1, |steps|);
        return Some(Failed(Unknown, err.value)), calls, results;
      }
      results := results + [UpdateResult(path.path, op)];
    }
    failure := None;
  }

  /** The results of the first `n` operations, when none of them failed. */
  lemma {:induction false} ExecuteGoing(steps: seq<Step>, write: ClientWrite, n: nat)
    requires n <= |steps| && Execute(steps, write, n).Going?
    ensures |Execute(steps, write, n).results| == n && |Execute(steps, write, n).calls| == n
    ensures forall i :: 0 <= i < n ==>
      && Execute(steps, write, n).results[i] == UpdateResult(steps[i].path, steps[i].op)
      && steps[i].arg.Ok?
      && Execute(steps, write, n).calls[i] == SetCall(steps[i].path, steps[i].arg.value)
    decreases n
  {
    if n > 0 {
      ExecuteGoing(steps, write, n - 1);
    }
  }

  /**
   * A Set that succeeds reports every delete, then every replace, then
   * every update, each in request order and with its operation, and has
   * passed each of them to the client in that order.
   */
  lemma {:induction false} SetResultsInOrder(req: SetRequest, clientErr: Option<string>, write: ClientWrite, formatFloat: int -> string)
    requires SetReply(req, clientErr, write, formatFloat).0.Reply?
    ensures var res := SetReply(req, clientErr, write, formatFloat).0.value.response;
      var d, p := |req.delete|, |req.replace|;
      && |res| == d + p + |req.update|
      && (forall i :: 0 <= i < d ==> res[i] == UpdateResult(Some(req.delete[i]), DELETE))
      && (forall i :: 0 <= i < p ==> res[d + i] == UpdateResult(req.replace[i].path, REPLACE))
      && (forall i :: 0 <= i < |req.update| ==> res[d + p + i] == UpdateResult(req.update[i].path, UPDATE))
    ensures |SetReply(req, clientErr, write, formatFloat).1| == |req.delete| + |req.replace| + |req.update|
  {
    var steps := Steps(req, formatFloat);
    var e := Execute(steps, write, |steps|);
    assert SetReply(req, clientErr, write, formatFloat) == (Reply(SetResponse(req.prefix, e.results)), e.calls);
    StepsLayout(req, formatFloat);
    ExecuteGoing(steps, write, |steps|);
  }

  /**
   * The first failure aborts: a failed Set has called the client for the
   * operations before the failing one, and for the failing one only when
   * the client itself reported the failure.
   */
  lemma {:induction false} FirstFailureAborts(steps: seq<Step>, write: ClientWrite, n: nat)
    requires n <= |steps| && Execute(steps, write, n).Halted?
    ensures exists k :: (0 <= k < n && Execute(steps, write, k).Going?
      && Execute(steps, write, n) == Perform(Execute(steps, write, k), steps[k], write)
      && Execute(steps, write, n).calls == Execute(steps, write, k).calls
           + (if steps[k].arg.Ok? then [SetCall(steps[k].path, steps[k].arg.value)] else []))
    decreases n
  {
    if Execute(steps, write, n - 1).Halted? {
      FirstFailureAborts(steps, write, n - 1);
    } else {
      assert Execute(steps, write, n) == Perform(Execute(steps, write, n - 1), steps[n - 1], write);
    }
  }
}
