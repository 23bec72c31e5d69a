/** Turning a runtime invocation into an execution outcome. */
module RuntimeOutcome {
  import opened Prelude
  import opened Json
  import Protobuf

  datatype Fault = Fault(code: string, message: string)

  datatype Artifact = Artifact(id: string, name: string, path: string, contentType: string, size: int, sha256: string)

  datatype Invocation = Invocation(
    id: string, status: int, durationMs: int, sessionId: string, toolName: string, correlationId: string, exitCode: int,
    output: Option<Protobuf.PbValue>, outputRef: string, logsRef: string, fault: Option<Fault>,
    artifacts: seq<Artifact>)

  datatype Status = Unspecified | Running | Succeeded | Failed | Denied

  datatype OutcomeError = NotTerminal | NegativeDuration

  /** The `runtime.*` attributes an outcome may carry. */
  datatype Key =
    | StatusKey | SessionIdKey | ToolNameKey | CorrelationIdKey | ExitCodeKey
    | OutputKey | OutputRefKey | LogsRefKey | ErrorKey | ArtifactsKey

  datatype Execution = Execution(id: string, succeeded: bool, durationMs: nat, output: map<Key, Value>)

  /** `InvocationStatus::try_from`, with unknown numbers read as unspecified. */
  function StatusOf(n: int): Status
  {
    match n case 1 => Running case 2 => Succeeded case 3 => Failed case 4 => Denied case _ => Unspecified
  }

  function StatusName(s: Status): string
  {
    match s
    case Succeeded => "succeeded"
    case Failed => "failed"
    case Denied => "denied"
    case Running => "running"
    case Unspecified => "unspecified"
  }

  function Integer(n: int): Value { Num(if n >= 0 then PosInt(n) else NegInt(n)) }

  /** A text attribute that is left out when empty. */
  function Filled(text: string): Option<Value> { if text == [] then None else Some(Str(text)) }

  function FaultObject(f: Fault): Value
  {
    Obj((if f.code == [] then [] else [Field("code", Str(f.code))])
        + if f.message == [] then [] else [Field("message", Str(f.message))])
  }

  function ArtifactObject(a: Artifact): Value
  {
    Obj([Field("content_type", Str(a.contentType)), Field("id", Str(a.id)), Field("name", Str(a.name)),
         Field("path", Str(a.path)), Field("sha256", Str(a.sha256)), Field("size_bytes", Integer(a.size))])
  }

  function ArtifactObjects(artifacts: seq<Artifact>): seq<Value>
  {
    seq(|artifacts|, i requires 0 <= i < |artifacts| => ArtifactObject(artifacts[i]))
  }

  /** What an invocation says about each attribute: five are always there, the others when they carry something. */
  function AttributeOf(inv: Invocation, k: Key): Option<Value>
  {
    match k
    case StatusKey => Some(Str(StatusName(StatusOf(inv.status))))
    case SessionIdKey => Some(Str(inv.sessionId))
    case ToolNameKey => Some(Str(inv.toolName))
    case CorrelationIdKey => Some(Str(inv.correlationId))
    case ExitCodeKey => Some(Integer(inv.exitCode))
    case OutputKey => if inv.output.Some? then Some(Protobuf.ToJson(inv.output.value)) else None
    case OutputRefKey => Filled(inv.outputRef)
    case LogsRefKey => Filled(inv.logsRef)
    case ErrorKey => if inv.fault.Some? then Some(FaultObject(inv.fault.value)) else None
    case ArtifactsKey => if inv.artifacts == [] then None else Some(Arr(ArtifactObjects(inv.artifacts)))
  }

  function OutputOf(inv: Invocation): map<Key, Value>
  {
    map k: Key | AttributeOf(inv, k).Some? :: AttributeOf(inv, k).value
  }

  function OutcomeOf(inv: Invocation): Result<Execution, OutcomeError>
  {
    var status := StatusOf(inv.status);
    if status.Unspecified? || status.Running? then Err(NotTerminal)
    else if inv.durationMs < 0 then Err(NegativeDuration)
    else Ok(Execution(inv.id, status.Succeeded?, inv.durationMs, OutputOf(inv)))
  }

  /** Exactly the terminal invocations with a sensible duration become outcomes; only success counts as success. */
  lemma OutcomeMeaning(inv: Invocation)
    ensures OutcomeOf(inv).Ok? <==> inv.status in {2, 3, 4} && inv.durationMs >= 0
    ensures OutcomeOf(inv).Ok? ==>
              var e := OutcomeOf(inv).value;
              e.id == inv.id && (e.succeeded <==> inv.status == 2) && e.durationMs == inv.durationMs
    ensures OutcomeOf(inv).Err? ==>
              OutcomeOf(inv).error == if inv.status in {2, 3, 4} then NegativeDuration else NotTerminal
  {
  }

  /** A JSON result the runtime sent through protobuf arrives with nothing but its numbers normalised. */
  lemma ResultArrives(inv: Invocation, result: Value, round: int -> real)
    requires FiniteNumbers(result) && inv.output == Some(Protobuf.ToPb(result, round)) && OutcomeOf(inv).Ok?
    ensures var output := OutcomeOf(inv).value.output;
            OutputKey in output && Protobuf.SameButNumbers(result, output[OutputKey], round)
  {
    Protobuf.JsonRoundTrip(result, round);
  }

  predicate IsInteger(v: Value, n: int) { if n >= 0 then v == Num(PosInt(n)) else v == Num(NegInt(n)) }

  /** The object holds the text under the key, or nothing when the text is empty. */
  ghost predicate HoldsText(v: Value, key: string, text: string)
  {
    v.Obj? && if text == [] then forall f :: f in v.fields ==> f.key != key else Maps(v.fields, key, Str(text))
  }

  ghost predicate IsFault(v: Value, f: Fault) { HoldsText(v, "code", f.code) && HoldsText(v, "message", f.message) }

  ghost predicate IsArtifact(v: Value, a: Artifact)
  {
    && v.Obj? && Maps(v.fields, "id", Str(a.id)) && Maps(v.fields, "name", Str(a.name))
    && Maps(v.fields, "path", Str(a.path)) && Maps(v.fields, "content_type", Str(a.contentType))
    && Maps(v.fields, "sha256", Str(a.sha256))
    && exists size :: Maps(v.fields, "size_bytes", size) && IsInteger(size, a.size)
  }

  lemma FaultsAreObjects(f: Fault)
    ensures IsFault(FaultObject(f), f)
  {
    var fields := FaultObject(f).fields;
    assert |"code"| != |"message"|;
    var code := if f.code == [] then [] else [Field("code", Str(f.code))];
    var message := if f.message == [] then [] else [Field("message", Str(f.message))];
    assert fields == code + message;
    assert forall x :: x in fields ==> x in code || x in message;
    if f.code != [] { assert fields[0] == Field("code", Str(f.code)); }
    if f.message != [] {
      assert fields[|code|] == Field("message", Str(f.message));
      assert forall j :: 0 <= j < |code| ==> fields[j] == code[j];
    }
  }

  lemma ArtifactsAreObjects(a: Artifact)
    ensures IsArtifact(ArtifactObject(a), a)
  {
    var fields := ArtifactObject(a).fields;
    assert |"content_type"| == 12 && |"id"| == 2 && |"name"| == 4 && |"path"| == 4 && |"sha256"| == 6;
    assert |"size_bytes"| == 10 && "name"[0] != "path"[0];
    assert fields[0] == Field("content_type", Str(a.contentType)) && fields[1] == Field("id", Str(a.id));
    assert fields[2] == Field("name", Str(a.name)) && fields[3] == Field("path", Str(a.path));
    assert fields[4] == Field("sha256", Str(a.sha256)) && fields[5] == Field("size_bytes", Integer(a.size));
    assert Maps(fields, "size_bytes", Integer(a.size)) && IsInteger(Integer(a.size), a.size);
  }

  /** The attributes every outcome has. */
  lemma FixedAttributes(inv: Invocation)
    requires OutcomeOf(inv).Ok?
    ensures var o := OutcomeOf(inv).value.output;
            && StatusKey in o && (inv.status == 2 ==> o[StatusKey] == Str("succeeded"))
            && (inv.status == 3 ==> o[StatusKey] == Str("failed"))
            && (inv.status == 4 ==> o[StatusKey] == Str("denied"))
            && SessionIdKey in o && o[SessionIdKey] == Str(inv.sessionId)
            && ToolNameKey in o && o[ToolNameKey] == Str(inv.toolName)
            && CorrelationIdKey in o && o[CorrelationIdKey] == Str(inv.correlationId)
            && ExitCodeKey in o && IsInteger(o[ExitCodeKey], inv.exitCode)
  {
  }

  /** The attributes an outcome has when the invocation carries them. */
  lemma OptionalAttributes(inv: Invocation)
    requires OutcomeOf(inv).Ok?
    ensures var o := OutcomeOf(inv).value.output;
            && (OutputKey in o <==> inv.output.Some?)
            && (OutputRefKey in o <==> inv.outputRef != []) && (LogsRefKey in o <==> inv.logsRef != [])
            && (OutputRefKey in o ==> o[OutputRefKey] == Str(inv.outputRef))
            && (LogsRefKey in o ==> o[LogsRefKey] == Str(inv.logsRef))
            && (ErrorKey in o <==> inv.fault.Some?) && (ErrorKey in o ==> IsFault(o[ErrorKey], inv.fault.value))
            && (ArtifactsKey in o <==> inv.artifacts != [])
            && (ArtifactsKey in o ==>
                  o[ArtifactsKey].Arr? && |o[ArtifactsKey].items| == |inv.artifacts| &&
                  forall i :: 0 <= i < |inv.artifacts| ==> IsArtifact(o[ArtifactsKey].items[i], inv.artifacts[i]))
  {
    if inv.fault.Some? { FaultsAreObjects(inv.fault.value); }
    forall i | 0 <= i < |inv.artifacts| ensures IsArtifact(ArtifactObject(inv.artifacts[i]), inv.artifacts[i]) {
      ArtifactsAreObjects(inv.artifacts[i]);
    }
  }
}
