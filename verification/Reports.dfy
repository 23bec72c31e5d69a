/** What a validator reports about a proposal. */
module Reports {
  import opened Json
  import EventShape
  import Grounding
  import Support

  /** A constrained field whose value is not one of the allowed strings. */
  datatype DisallowedValue = DisallowedValue(field: string, actual: Value, allowed: seq<string>)

  datatype Validator =
    | ContentNonEmpty
    | JsonObjectOutput
    | RequiredFields
    | AllowedStringValues
    | JsonSchema
    | ClaimsGrounded
    | ClaimsSupported
    | BoundedShape
    | LlmJudge

  /** The details bag, by the one record each validator puts in it. */
  datatype Detail =
    | Nothing
    | NotParsed
    | SchemaRejected
    | Missing(fields: seq<string>)
    | Disallowed(values: seq<DisallowedValue>)
    | NoClaims(claimsField: string)
    | TooManyClaims(claims: nat)
    | Ungrounded(grounding: seq<Grounding.Violation>)
    | Judged(minConfidence: nat, judged: Support.Judged)
    | Oversize(limit: nat, actual: nat)
    | Misshapen(shape: EventShape.ShapeViolation)
    | JudgeScore(score: Value)

  datatype Report = Report(validator: Validator, passed: bool, detail: Detail)
}
