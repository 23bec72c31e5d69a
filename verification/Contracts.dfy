/** Output contracts and the foreign engines the validators call. */
module Contracts {
  import opened Prelude
  import opened Json

  datatype FieldRule = FieldRule(name: string, required: bool, allowed: seq<string>)

  datatype SupportRule = SupportRule(minConfidence: nat, bodies: map<string, string>)

  datatype GroundingRule = GroundingRule(
    claimsField: string, refsField: string, allowedRefs: set<string>, support: Option<SupportRule>)

  /** Field rules, and the values a rule allows, come in the contract's iteration order; no schema is an empty text. */
  datatype OutputContract = OutputContract(
    contractId: string, fields: seq<FieldRule>, jsonSchema: string, grounding: Option<GroundingRule>)

  /** What the constructors of a contract guarantee: a support rule has a body for every allowed ref. */
  predicate Wired(rule: GroundingRule)
  {
    rule.support.Some? ==> rule.allowedRefs <= rule.support.value.bodies.Keys
  }

  datatype Error = MissingJudge | JudgeFailed(reason: string)

  /** JSON parsing, JSON printing and JSON Schema, as arbitrary functions. */
  datatype Engines = Engines(
    parse: string -> Option<Value>,
    show: Value -> string,
    compiles: Value -> bool,
    conforms: (Value, Value) -> bool)
}
