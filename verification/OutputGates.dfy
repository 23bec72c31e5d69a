/** The wired chain of output-contract gates and the score it gives a proposal. */
module OutputGates {
  import opened Prelude
  import opened Json
  import opened Contracts
  import opened Reports
  import Text
  import Utf8
  import Fences
  import EventShape
  import Grounding
  import Support
  import Scoring
  import Counting
  import JudgeReply

  // ---------- The gates ----------

  function ParseObject(content: string, engines: Engines): Option<seq<Field>>
  {
    var v := engines.parse(Fences.StripMarkdownFences(content));
    if v.Some? && v.value.Obj? then Some(v.value.fields) else None
  }

  function NonEmptyGate(content: string): Report { Report(ContentNonEmpty, Text.Trim(content) != [], Nothing) }

  function JsonObjectGate(content: string, contract: Option<OutputContract>, engines: Engines): Report
  {
    if contract.None? || ParseObject(content, engines).Some? then Report(JsonObjectOutput, true, Nothing)
    else Report(JsonObjectOutput, false, NotParsed)
  }

  function MissingFields(rules: seq<FieldRule>, fields: seq<Field>): seq<string>
  {
    if rules == [] then []
    else (if rules[0].required && Get(fields, rules[0].name).None? then [rules[0].name] else [])
         + MissingFields(rules[1..], fields)
  }

  function RequiredFieldsGate(content: string, contract: Option<OutputContract>, engines: Engines): Report
  {
    if contract.None? then Report(RequiredFields, true, Nothing)
    else
      var fields := ParseObject(content, engines);
      if fields.None? then Report(RequiredFields, false, NotParsed)
      else
        var missing := MissingFields(contract.value.fields, fields.value);
        if missing == [] then Report(RequiredFields, true, Nothing) else Report(RequiredFields, false, Missing(missing))
  }

  /** A constrained field that is present must be one of the allowed strings. */
  predicate Allows(rule: FieldRule, fields: seq<Field>)
  {
    var v := Get(fields, rule.name);
    rule.allowed == [] || v.None? || (v.value.Str? && v.value.s in rule.allowed)
  }

  function DisallowedValues(rules: seq<FieldRule>, fields: seq<Field>): seq<DisallowedValue>
  {
    if rules == [] then []
    else
      var init, last := DisallowedValues(rules[..|rules| - 1], fields), rules[|rules| - 1];
      if Allows(last, fields) then init
      else init + [DisallowedValue(last.name, Get(fields, last.name).value, last.allowed)]
  }

  /** The source's loop over the contract's fields. */
  method AllowedViolations(rules: seq<FieldRule>, fields: seq<Field>) returns (violations: seq<DisallowedValue>)
    ensures violations == DisallowedValues(rules, fields)
    ensures violations == [] <==> forall r :: r in rules ==> Allows(r, fields)
    ensures forall d :: d in violations ==> exists r :: r in rules && Breaks(r, fields, d)
  {
    violations := [];
    for i := 0 to |rules|
      invariant violations == DisallowedValues(rules[..i], fields)
    {
      assert rules[..i + 1][..i] == rules[..i];
      var rule := rules[i];
      if rule.allowed == [] { continue; }
      var value := Get(fields, rule.name);
      if value.None? { continue; }
      match value.value {
        case Str(actual) =>
          if actual !in rule.allowed {
            violations := violations + [DisallowedValue(rule.name, Str(actual), rule.allowed)];
          }
        case other => violations := violations + [DisallowedValue(rule.name, other, rule.allowed)];
      }
    }
    assert rules[..|rules|] == rules;
    DisallowedMeaning(rules, fields);
  }

  lemma {:induction false} DisallowedMeaning(rules: seq<FieldRule>, fields: seq<Field>)
    ensures DisallowedValues(rules, fields) == [] <==> forall r :: r in rules ==> Allows(r, fields)
    ensures forall d :: d in DisallowedValues(rules, fields) ==> exists r :: r in rules && Breaks(r, fields, d)
    ensures forall r :: r in rules && !Allows(r, fields) ==>
              DisallowedValue(r.name, Get(fields, r.name).value, r.allowed) in DisallowedValues(rules, fields)
  {
    if rules != [] {
      var init, last := rules[..|rules| - 1], rules[|rules| - 1];
      DisallowedMeaning(init, fields);
      assert rules == init + [last];
      assert last in rules && forall r :: r in init ==> r in rules;
    }
  }

  /** `d` reports the value with which the document breaks the rule. */
  predicate Breaks(rule: FieldRule, fields: seq<Field>, d: DisallowedValue)
  {
    !Allows(rule, fields) && d == DisallowedValue(rule.name, Get(fields, rule.name).value, rule.allowed)
  }

  lemma {:induction false} MissingMeaning(rules: seq<FieldRule>, fields: seq<Field>)
    ensures MissingFields(rules, fields) == [] <==>
            forall r :: r in rules && r.required ==> Get(fields, r.name).Some?
    ensures forall name :: name in MissingFields(rules, fields) <==>
              Get(fields, name).None? && exists r :: r in rules && r.required && r.name == name
  {
    if rules != [] {
      MissingMeaning(rules[1..], fields);
      assert rules[0] in rules && forall r :: r in rules[1..] ==> r in rules;
      assert rules == [rules[0]] + rules[1..];
    }
  }

  function AllowedValuesGate(content: string, contract: Option<OutputContract>, engines: Engines): Report
  {
    if contract.None? then Report(AllowedStringValues, true, Nothing)
    else
      var fields := ParseObject(content, engines);
      if fields.None? then Report(AllowedStringValues, false, NotParsed)
      else
        var bad := DisallowedValues(contract.value.fields, fields.value);
        if bad == [] then Report(AllowedStringValues, true, Nothing)
        else Report(AllowedStringValues, false, Disallowed(bad))
  }

  /** Schema problems of either side fail the proposal; the schema engine's own violation list is not modelled. */
  function JsonSchemaGate(content: string, contract: Option<OutputContract>, engines: Engines): Report
  {
    if contract.None? || contract.value.jsonSchema == [] then Report(JsonSchema, true, Nothing)
    else
      var schema := engines.parse(contract.value.jsonSchema);
      if schema.None? || !engines.compiles(schema.value) then Report(JsonSchema, false, SchemaRejected)
      else
        var instance := engines.parse(Fences.StripMarkdownFences(content));
        if instance.None? then Report(JsonSchema, false, NotParsed)
        else if engines.conforms(schema.value, instance.value) then Report(JsonSchema, true, Nothing)
        else Report(JsonSchema, false, SchemaRejected)
  }

  function Claims(fields: seq<Field>, rule: GroundingRule): Option<seq<Value>>
  {
    ArrayOf(Get(fields, rule.claimsField))
  }

  function GroundedGate(content: string, contract: Option<OutputContract>, engines: Engines): Report
  {
    if contract.None? || contract.value.grounding.None? then Report(Validator.ClaimsGrounded, true, Nothing)
    else
      var rule, fields := contract.value.grounding.value, ParseObject(content, engines);
      if fields.None? then Report(Validator.ClaimsGrounded, false, NotParsed)
      else
        var claims := Claims(fields.value, rule);
        if claims.None? then Report(Validator.ClaimsGrounded, false, NoClaims(rule.claimsField))
        else
          var bad := Grounding.AllViolations(claims.value, 0, rule, engines.show);
          Report(Validator.ClaimsGrounded, bad == [], if bad == [] then Nothing else Ungrounded(bad))
  }

  /** The support gate's report, with every call it made to the judge. */
  function SupportedGate(
    content: string, contract: Option<OutputContract>, judge: Option<Support.Judge>, engines: Engines)
    : (Result<Report, Error>, seq<Support.Call>)
  {
    if contract.None? || contract.value.grounding.None? || contract.value.grounding.value.support.None?
    then (Ok(Report(Validator.ClaimsSupported, true, Nothing)), [])
    else if judge.None? then (Err(MissingJudge), [])
    else
      var rule, fields := contract.value.grounding.value, ParseObject(content, engines);
      if fields.None? then (Ok(Report(Validator.ClaimsSupported, false, NotParsed)), [])
      else
        var claims := Claims(fields.value, rule);
        if claims.None? then (Ok(Report(Validator.ClaimsSupported, false, NoClaims(rule.claimsField))), [])
        else if |claims.value| > Support.MAX_JUDGED_CLAIMS
        then (Ok(Report(Validator.ClaimsSupported, false, TooManyClaims(|claims.value|))), [])
        else
          var (r, log) := Support.Judgement(BenchFor(rule, judge.value, engines), claims.value, 0, []);
          if r.Err? then (Err(r.error), log)
          else
            (Ok(Report(Validator.ClaimsSupported, r.value.violations == [],
                       Judged(rule.support.value.minConfidence, r.value))), log)
  }

  function BenchFor(rule: GroundingRule, judge: Support.Judge, engines: Engines): Support.Bench
    requires rule.support.Some?
  {
    Support.Bench(judge, rule.refsField, rule.support.value, engines.show)
  }

  function ShapeGate(
    content: string, contract: Option<OutputContract>, limits: EventShape.Limits, engines: Engines): Report
  {
    if contract.None? then Report(BoundedShape, true, Nothing)
    else
      var trimmed := Text.Trim(content);
      ShapeReport(|Utf8.Encode(trimmed)|, engines.parse(Fences.StripMarkdownFences(trimmed)), limits)
  }

  function ShapeReport(bytes: nat, instance: Option<Value>, limits: EventShape.Limits): Report
  {
    if bytes > limits.maxTotalSizeBytes then Report(BoundedShape, false, Oversize(limits.maxTotalSizeBytes, bytes))
    else if instance.None? then Report(BoundedShape, false, NotParsed)
    else
      var v := EventShape.Walk(limits, instance.value, "$", 0);
      Report(BoundedShape, v.None?, if v.None? then Nothing else Misshapen(v.value))
  }

  /** The eight wired validators, in order; a hard error in one of them ends the run. */
  function RunChain(content: string, contract: Option<OutputContract>, judge: Option<Support.Judge>, engines: Engines)
    : (r: Result<seq<Report>, Error>)
    ensures r.Ok? ==> |r.value| == 8
  {
    var supported := SupportedGate(content, contract, judge, engines).0;
    if supported.Err? then Err(supported.error)
    else Ok([NonEmptyGate(content), JsonObjectGate(content, contract, engines),
             RequiredFieldsGate(content, contract, engines), AllowedValuesGate(content, contract, engines),
             JsonSchemaGate(content, contract, engines), GroundedGate(content, contract, engines),
             supported.value, ShapeGate(content, contract, EventShape.DEFAULT_LIMITS, engines)])
  }

  // ---------- What a contract asks for, declaratively ----------

  /** The document obeys the schema text, if there is one. */
  predicate ObeysSchema(schema: string, doc: Value, engines: Engines)
  {
    schema == [] ||
    (var s := engines.parse(schema); s.Some? && engines.compiles(s.value) && engines.conforms(s.value, doc))
  }

  /** Every claim is grounded in the contract's evidence. */
  predicate AllClaimsGrounded(fields: seq<Field>, rule: GroundingRule)
  {
    Claims(fields, rule).Some? && forall c :: c in Claims(fields, rule).value ==> Grounding.Grounded(c, rule)
  }

  /** Few enough claims, and the judge's verdict accepts each of them. */
  predicate AllClaimsSupported(fields: seq<Field>, rule: GroundingRule, judge: Support.Judge, engines: Engines)
    requires rule.support.Some?
  {
    && Claims(fields, rule).Some? && |Claims(fields, rule).value| <= 64
    && forall i :: 0 <= i < |Claims(fields, rule).value| ==>
         !Support.Rejected(BenchFor(rule, judge, engines), Claims(fields, rule).value, [], i)
  }

  /** Every node of the document is within the shape budget. */
  ghost predicate WithinBudget(doc: Value, limits: EventShape.Limits)
  {
    forall visit :: visit in EventShape.Preorder(doc, []) ==> EventShape.Offence(limits, visit).None?
  }

  /** Required fields are there, constrained fields hold allowed strings, and the schema is obeyed. */
  predicate FieldsConform(fields: seq<Field>, c: OutputContract, engines: Engines)
  {
    && (forall r :: r in c.fields && r.required ==> Get(fields, r.name).Some?)
    && (forall r :: r in c.fields ==> Allows(r, fields))
    && ObeysSchema(c.jsonSchema, Obj(fields), engines)
  }

  /** Claims are grounded when grounding is demanded, and supported when support is. */
  predicate EvidenceConforms(fields: seq<Field>, c: OutputContract, judge: Option<Support.Judge>, engines: Engines)
  {
    && (c.grounding.Some? ==> AllClaimsGrounded(fields, c.grounding.value))
    && (c.grounding.Some? && c.grounding.value.support.Some? && judge.Some? ==>
          AllClaimsSupported(fields, c.grounding.value, judge.value, engines))
  }

  /** The shape budget of a deployment that does not change it. */
  const BUDGET := EventShape.Limits(262144, 32, 256, 1024, 65536)

  /** Non-blank, small enough, and a JSON object meeting every demand of the contract within the shape budget. */
  ghost predicate Conforms(content: string, c: OutputContract, judge: Option<Support.Judge>, engines: Engines)
  {
    && !Text.Blank(content)
    && |Utf8.Encode(Text.Trim(content))| <= BUDGET.maxTotalSizeBytes
    && ParseObject(content, engines).Some?
    && FieldsConform(ParseObject(content, engines).value, c, engines)
    && EvidenceConforms(ParseObject(content, engines).value, c, judge, engines)
    && WithinBudget(Obj(ParseObject(content, engines).value), BUDGET)
  }

  // ---------- Each gate means its predicate ----------

  lemma NonEmptyMeans(content: string)
    ensures NonEmptyGate(content).passed <==> !Text.Blank(content)
  {
    Text.TrimEmptyIffBlank(content);
  }

  lemma GroundedMeans(content: string, contract: Option<OutputContract>, engines: Engines)
    requires contract.Some? && contract.value.grounding.Some? && ParseObject(content, engines).Some?
    ensures GroundedGate(content, contract, engines).passed <==>
            AllClaimsGrounded(ParseObject(content, engines).value, contract.value.grounding.value)
  {
    var rule := contract.value.grounding.value;
    var claims := Claims(ParseObject(content, engines).value, rule);
    if claims.Some? { Grounding.SilentIffAllGrounded(claims.value, 0, rule, engines.show); }
  }

  lemma NoViolationMeansNoneRejected(bench: Support.Bench, claims: seq<Value>)
    requires Support.Judgement(bench, claims, 0, []).0.Ok?
    ensures Support.Judgement(bench, claims, 0, []).0.value.violations == [] <==>
            forall i :: 0 <= i < |claims| ==> !Support.Rejected(bench, claims, [], i)
  {
    Support.OneViolationPerRejection(bench, claims, 0, []);
    var vs := Support.Judgement(bench, claims, 0, []).0.value.violations;
    var indices := Support.ViolationIndices(vs);
    if vs != [] {
      assert indices[0] in indices;
      assert Support.RejectedAt(bench, claims, 0, [], indices[0]);
    }
    if i :| 0 <= i < |claims| && Support.Rejected(bench, claims, [], i) {
      assert Support.RejectedAt(bench, claims, 0, [], i);
      assert i in indices;
    }
  }

  lemma SupportedMeans(
    content: string, contract: Option<OutputContract>, judge: Option<Support.Judge>, engines: Engines)
    requires contract.Some? && contract.value.grounding.Some? && contract.value.grounding.value.support.Some?
    requires judge.Some? && ParseObject(content, engines).Some?
    requires SupportedGate(content, contract, judge, engines).0.Ok?
    ensures SupportedGate(content, contract, judge, engines).0.value.passed <==>
            AllClaimsSupported(
              ParseObject(content, engines).value, contract.value.grounding.value, judge.value, engines)
  {
    var rule := contract.value.grounding.value;
    var claims := Claims(ParseObject(content, engines).value, rule);
    if claims.Some? && |claims.value| <= Support.MAX_JUDGED_CLAIMS {
      NoViolationMeansNoneRejected(BenchFor(rule, judge.value, engines), claims.value);
    }
  }

  lemma ShapeMeans(content: string, contract: Option<OutputContract>, limits: EventShape.Limits, engines: Engines)
    requires contract.Some?
    ensures var doc := engines.parse(Fences.StripMarkdownFences(content));
            ShapeGate(content, contract, limits, engines).passed <==>
            && |Utf8.Encode(Text.Trim(content))| <= limits.maxTotalSizeBytes
            && doc.Some? && WithinBudget(doc.value, limits)
  {
    Fences.StripIgnoresTrim(content);
    ShapeReportMeans(|Utf8.Encode(Text.Trim(content))|, engines.parse(Fences.StripMarkdownFences(content)), limits);
  }

  lemma ShapeReportMeans(bytes: nat, doc: Option<Value>, limits: EventShape.Limits)
    ensures ShapeReport(bytes, doc, limits).passed <==>
            bytes <= limits.maxTotalSizeBytes && doc.Some? && WithinBudget(doc.value, limits)
  {
    if doc.Some? { WalkMeans(limits, doc.value); }
  }

  lemma WalkMeans(limits: EventShape.Limits, doc: Value)
    ensures EventShape.Walk(limits, doc, "$", 0).None? <==> WithinBudget(doc, limits)
  {
    var visits := EventShape.Preorder(doc, []);
    assert EventShape.Render([]) == "$";
    EventShape.WalkIsFirstOffence(limits, doc, []);
    EventShape.FirstOffenceMeaning(limits, visits);
    assert forall i :: 0 <= i < |visits| ==> visits[i] in visits;
  }

  /** Given an object document, the field and schema gates mean their predicate. */
  lemma FieldGatesMean(content: string, c: OutputContract, engines: Engines)
    requires ParseObject(content, engines).Some?
    ensures (RequiredFieldsGate(content, Some(c), engines).passed &&
             AllowedValuesGate(content, Some(c), engines).passed &&
             JsonSchemaGate(content, Some(c), engines).passed) <==>
            FieldsConform(ParseObject(content, engines).value, c, engines)
  {
    var fields := ParseObject(content, engines).value;
    MissingMeaning(c.fields, fields);
    DisallowedMeaning(c.fields, fields);
  }

  /** Given an object document, the evidence gates mean their predicate. */
  lemma EvidenceGatesMean(content: string, c: OutputContract, judge: Option<Support.Judge>, engines: Engines)
    requires ParseObject(content, engines).Some? && SupportedGate(content, Some(c), judge, engines).0.Ok?
    ensures (GroundedGate(content, Some(c), engines).passed &&
             SupportedGate(content, Some(c), judge, engines).0.value.passed) <==>
            EvidenceConforms(ParseObject(content, engines).value, c, judge, engines)
  {
    if c.grounding.Some? {
      GroundedMeans(content, Some(c), engines);
      if c.grounding.value.support.Some? { SupportedMeans(content, Some(c), judge, engines); }
    }
  }

  predicate AllPass(reports: seq<Report>) { forall r :: r in reports ==> r.passed }

  lemma AllPassOfEight(a: Report, b: Report, c: Report, d: Report, e: Report, f: Report, g: Report, h: Report)
    ensures AllPass([a, b, c, d, e, f, g, h]) <==>
            a.passed && b.passed && c.passed && d.passed && e.passed && f.passed && g.passed && h.passed
  {
    var l := [a, b, c, d, e, f, g, h];
    assert l[0] in l && l[1] in l && l[2] in l && l[3] in l && l[4] in l && l[5] in l && l[6] in l && l[7] in l;
  }

  lemma OuterGatesMean(content: string, c: OutputContract, engines: Engines)
    ensures (NonEmptyGate(content).passed && JsonObjectGate(content, Some(c), engines).passed &&
             ShapeGate(content, Some(c), EventShape.DEFAULT_LIMITS, engines).passed) <==>
            && !Text.Blank(content) && ParseObject(content, engines).Some?
            && |Utf8.Encode(Text.Trim(content))| <= EventShape.DEFAULT_LIMITS.maxTotalSizeBytes
            && WithinBudget(Obj(ParseObject(content, engines).value), EventShape.DEFAULT_LIMITS)
  {
    NonEmptyMeans(content);
    ShapeMeans(content, Some(c), EventShape.DEFAULT_LIMITS, engines);
  }

  /** The chain's flags, gathered: what every report passing amounts to. */
  lemma ChainFlags(content: string, contract: Option<OutputContract>, judge: Option<Support.Judge>, engines: Engines)
    requires RunChain(content, contract, judge, engines).Ok?
    ensures AllPass(RunChain(content, contract, judge, engines).value) <==>
            && (NonEmptyGate(content).passed && JsonObjectGate(content, contract, engines).passed &&
                ShapeGate(content, contract, EventShape.DEFAULT_LIMITS, engines).passed)
            && (RequiredFieldsGate(content, contract, engines).passed &&
                AllowedValuesGate(content, contract, engines).passed &&
                JsonSchemaGate(content, contract, engines).passed)
            && (GroundedGate(content, contract, engines).passed &&
                SupportedGate(content, contract, judge, engines).0.value.passed)
  {
    AllPassOfEight(NonEmptyGate(content), JsonObjectGate(content, contract, engines),
                   RequiredFieldsGate(content, contract, engines), AllowedValuesGate(content, contract, engines),
                   JsonSchemaGate(content, contract, engines), GroundedGate(content, contract, engines),
                   SupportedGate(content, contract, judge, engines).0.value,
                   ShapeGate(content, contract, EventShape.DEFAULT_LIMITS, engines));
  }

  /** Under a contract the whole chain passes exactly the conforming proposals. */
  lemma ChainPassesIffConforms(content: string, c: OutputContract, judge: Option<Support.Judge>, engines: Engines)
    requires RunChain(content, Some(c), judge, engines).Ok?
    ensures AllPass(RunChain(content, Some(c), judge, engines).value) <==> Conforms(content, c, judge, engines)
  {
    ChainFlags(content, Some(c), judge, engines);
    OuterGatesMean(content, c, engines);
    if ParseObject(content, engines).Some? {
      FieldGatesMean(content, c, engines);
      EvidenceGatesMean(content, c, judge, engines);
    }
  }

  // ---------- The chain as a score ----------

  lemma ScoreOfEight(reports: seq<Report>, failed: nat)
    requires |reports| == 8 && Counting.Count(reports, Scoring.Passed) <= 8 - failed && failed <= 8
    ensures Scoring.UniformScore(reports).value <= (8 - failed) as real / 8.0
  {
  }

  lemma FullScoreIffAllPass(reports: seq<Report>)
    requires reports != []
    ensures Scoring.UniformScore(reports).value == 1.0 <==> AllPass(reports)
  {
    Scoring.FullScore(reports);
  }

  /** With no hard error the uniform score is 1 exactly on conforming proposals. */
  lemma FullScoreIffConforms(content: string, c: OutputContract, judge: Option<Support.Judge>, engines: Engines)
    requires RunChain(content, Some(c), judge, engines).Ok?
    ensures Scoring.UniformScore(RunChain(content, Some(c), judge, engines).value).value == 1.0 <==>
            Conforms(content, c, judge, engines)
  {
    ChainPassesIffConforms(content, c, judge, engines);
    FullScoreIffAllPass(RunChain(content, Some(c), judge, engines).value);
  }

  lemma CountOfEight(a: Report, b: Report, c: Report, d: Report, e: Report, f: Report, g: Report, h: Report)
    ensures Counting.Count([a, b, c, d, e, f, g, h], Scoring.Passed) ==
            Flag(a) + Flag(b) + Flag(c) + Flag(d) + Flag(e) + Flag(f) + Flag(g) + Flag(h)
  {
    CountOfFour(a, b, c, d);
    CountOfFour(e, f, g, h);
    assert [a, b, c, d, e, f, g, h] == [a, b, c, d] + [e, f, g, h];
    Counting.CountConcat([a, b, c, d], [e, f, g, h], Scoring.Passed);
  }

  function Flag(r: Report): nat { if r.passed then 1 else 0 }

  lemma CountOfFour(a: Report, b: Report, c: Report, d: Report)
    ensures Counting.Count([a, b, c, d], Scoring.Passed) == Flag(a) + Flag(b) + Flag(c) + Flag(d)
  {
    Counting.CountPush([], a, Scoring.Passed);
    Counting.CountPush([a], b, Scoring.Passed);
    Counting.CountPush([a, b], c, Scoring.Passed);
    Counting.CountPush([a, b, c], d, Scoring.Passed);
    assert [] + [a] == [a] && [a] + [b] == [a, b] && [a, b] + [c] == [a, b, c] && [a, b, c] + [d] == [a, b, c, d];
  }

  lemma CountOfChain(content: string, contract: Option<OutputContract>, judge: Option<Support.Judge>, engines: Engines)
    requires RunChain(content, contract, judge, engines).Ok?
    ensures Counting.Count(RunChain(content, contract, judge, engines).value, Scoring.Passed) ==
            Flag(NonEmptyGate(content)) + Flag(JsonObjectGate(content, contract, engines))
            + Flag(RequiredFieldsGate(content, contract, engines)) + Flag(AllowedValuesGate(content, contract, engines))
            + Flag(JsonSchemaGate(content, contract, engines)) + Flag(GroundedGate(content, contract, engines))
            + Flag(SupportedGate(content, contract, judge, engines).0.value)
            + Flag(ShapeGate(content, contract, EventShape.DEFAULT_LIMITS, engines))
  {
    CountOfEight(NonEmptyGate(content), JsonObjectGate(content, contract, engines),
                 RequiredFieldsGate(content, contract, engines), AllowedValuesGate(content, contract, engines),
                 JsonSchemaGate(content, contract, engines), GroundedGate(content, contract, engines),
                 SupportedGate(content, contract, judge, engines).0.value,
                 ShapeGate(content, contract, EventShape.DEFAULT_LIMITS, engines));
  }

  lemma UnparsableFlags(content: string, c: OutputContract, judge: Option<Support.Judge>, engines: Engines)
    requires ParseObject(content, engines).None?
    ensures !JsonObjectGate(content, Some(c), engines).passed && !RequiredFieldsGate(content, Some(c), engines).passed
    ensures !AllowedValuesGate(content, Some(c), engines).passed
    ensures engines.parse(Fences.StripMarkdownFences(content)).None? ==>
              !ShapeGate(content, Some(c), EventShape.DEFAULT_LIMITS, engines).passed
  {
    ShapeMeans(content, Some(c), EventShape.DEFAULT_LIMITS, engines);
  }

  /** Under any contract, content that is not JSON scores at most 1/2 and a non-object root at most 5/8. */
  lemma UnparsableScores(content: string, c: OutputContract, judge: Option<Support.Judge>, engines: Engines)
    requires RunChain(content, Some(c), judge, engines).Ok? && ParseObject(content, engines).None?
    ensures Scoring.UniformScore(RunChain(content, Some(c), judge, engines).value).value <=
            if engines.parse(Fences.StripMarkdownFences(content)).None? then 1.0 / 2.0 else 5.0 / 8.0
  {
    CountOfChain(content, Some(c), judge, engines);
    UnparsableFlags(content, c, judge, engines);
    var reports := RunChain(content, Some(c), judge, engines).value;
    assert |reports| == 8;
    ScoreOfEight(reports, if engines.parse(Fences.StripMarkdownFences(content)).None? then 4 else 3);
  }

  /** Without a contract nothing is demanded but content: the score is 1, or 7/8 when the content is blank. */
  lemma NoContractScore(content: string, judge: Option<Support.Judge>, engines: Engines)
    ensures RunChain(content, None, judge, engines).Ok?
    ensures Scoring.UniformScore(RunChain(content, None, judge, engines).value).value ==
            if Text.Blank(content) then 7.0 / 8.0 else 1.0
  {
    NonEmptyMeans(content);
    CountOfChain(content, None, judge, engines);
    var reports := RunChain(content, None, judge, engines).value;
    assert |reports| == 8;
    ScoreOfCount(reports, if Text.Blank(content) then 7 else 8);
  }

  lemma ScoreOfCount(reports: seq<Report>, passed: nat)
    requires |reports| == 8 && Counting.Count(reports, Scoring.Passed) == passed
    ensures Scoring.UniformScore(reports).value == passed as real / 8.0
  {
  }

  /** A contract that demands a judgement the deployment cannot produce fails the run, whatever the content. */
  lemma MissingJudgeIsHardError(content: string, c: OutputContract, engines: Engines)
    requires c.grounding.Some? && c.grounding.value.support.Some?
    ensures RunChain(content, Some(c), None, engines) == Err(MissingJudge)
    ensures SupportedGate(content, Some(c), None, engines).1 == []
  {
  }

  /** No wired gate writes the judge's score detail. */
  lemma NoGateWritesJudgeScore(
    content: string, contract: Option<OutputContract>, judge: Option<Support.Judge>, engines: Engines)
    requires RunChain(content, contract, judge, engines).Ok?
    ensures forall r :: r in RunChain(content, contract, judge, engines).value ==> !Scoring.IsJudgeReport(r)
  {
    FieldGatesAreNoJudge(content, contract, engines);
    EvidenceGatesAreNoJudge(content, contract, judge, engines);
    NoneOfEight(NonEmptyGate(content), JsonObjectGate(content, contract, engines),
                RequiredFieldsGate(content, contract, engines), AllowedValuesGate(content, contract, engines),
                JsonSchemaGate(content, contract, engines), GroundedGate(content, contract, engines),
                SupportedGate(content, contract, judge, engines).0.value,
                ShapeGate(content, contract, EventShape.DEFAULT_LIMITS, engines));
  }

  lemma FieldGatesAreNoJudge(content: string, contract: Option<OutputContract>, engines: Engines)
    ensures !Scoring.IsJudgeReport(JsonObjectGate(content, contract, engines))
    ensures !Scoring.IsJudgeReport(RequiredFieldsGate(content, contract, engines))
    ensures !Scoring.IsJudgeReport(AllowedValuesGate(content, contract, engines))
    ensures !Scoring.IsJudgeReport(JsonSchemaGate(content, contract, engines))
    ensures !Scoring.IsJudgeReport(ShapeGate(content, contract, EventShape.DEFAULT_LIMITS, engines))
  {
  }

  lemma EvidenceGatesAreNoJudge(
    content: string, contract: Option<OutputContract>, judge: Option<Support.Judge>, engines: Engines)
    requires SupportedGate(content, contract, judge, engines).0.Ok?
    ensures !Scoring.IsJudgeReport(GroundedGate(content, contract, engines))
    ensures !Scoring.IsJudgeReport(SupportedGate(content, contract, judge, engines).0.value)
  {
  }

  lemma NoneOfEight(a: Report, b: Report, c: Report, d: Report, e: Report, f: Report, g: Report, h: Report)
    requires !Scoring.IsJudgeReport(a) && !Scoring.IsJudgeReport(b) && !Scoring.IsJudgeReport(c)
    requires !Scoring.IsJudgeReport(d) && !Scoring.IsJudgeReport(e) && !Scoring.IsJudgeReport(f)
    requires !Scoring.IsJudgeReport(g) && !Scoring.IsJudgeReport(h)
    ensures forall r :: r in [a, b, c, d, e, f, g, h] ==> !Scoring.IsJudgeReport(r)
  {
  }

  /** Without a judge configured, the chain's score under the judge-aware policy is its pass fraction. */
  lemma ChainScore(
    content: string, contract: Option<OutputContract>, judge: Option<Support.Judge>, engines: Engines,
    round: int -> real)
    requires RunChain(content, contract, judge, engines).Ok?
    ensures var reports := RunChain(content, contract, judge, engines).value;
            Scoring.JudgeAwareScore(reports, round) == Some(Scoring.UniformScore(reports))
  {
    NoGateWritesJudgeScore(content, contract, judge, engines);
    JudgeReply.NoJudgeMeansUniform(RunChain(content, contract, judge, engines).value, round);
  }

  /** With one appended, the score is what its reply says, whatever the gates found. */
  lemma JudgedChainScore(
    content: string, contract: Option<OutputContract>, judge: Option<Support.Judge>, engines: Engines,
    reply: string, threshold: real, round: int -> real)
    requires RunChain(content, contract, judge, engines).Ok?
    requires JudgeReply.FiniteDocuments(engines.parse) && JudgeReply.ParseScore(reply, engines.parse, round).Ok?
    ensures var score := JudgeReply.ParseScore(reply, engines.parse, round).value;
            && score.Finite? && 0.0 <= score.value <= 1.0
            && var reports := RunChain(content, contract, judge, engines).value
                              + [JudgeReply.JudgeReport(score, threshold)];
            && Scoring.ValidDetails(reports)
            && Scoring.JudgeAwareScore(reports, round) == Some(Scoring.Score(score.value, score.negativeZero))
  {
    JudgeReply.ParsedScoreIsAFraction(reply, engines.parse, round);
    NoGateWritesJudgeScore(content, contract, judge, engines);
    JudgeReply.ReplyBecomesScore(
      RunChain(content, contract, judge, engines).value, reply, threshold, engines.parse, round);
  }

  // ---------- Budgets and cosmetics ----------

  // ---------- What the reports say ----------

  /** The claims are the array under the rule's field. */
  lemma ClaimsMeaning(fields: seq<Field>, rule: GroundingRule, claims: seq<Value>)
    ensures Claims(fields, rule) == Some(claims) <==> Maps(fields, rule.claimsField, Arr(claims))
  {
    GetMeaning(fields, rule.claimsField, Arr(claims));
  }

  /** One report of each gate, in this order. */
  lemma ChainOrder(content: string, contract: Option<OutputContract>, judge: Option<Support.Judge>, engines: Engines)
    requires RunChain(content, contract, judge, engines).Ok?
    ensures var r := RunChain(content, contract, judge, engines).value;
            && |r| == 8 && r[0].validator == ContentNonEmpty && r[1].validator == JsonObjectOutput
            && r[2].validator == RequiredFields && r[3].validator == AllowedStringValues
            && r[4].validator == JsonSchema && r[5].validator == Validator.ClaimsGrounded
            && r[6].validator == Validator.ClaimsSupported && r[7].validator == BoundedShape
  {
  }

  /** Without an object to look at, the field gates say so; with one, they list exactly what is wrong. */
  lemma FieldGateDetails(content: string, c: OutputContract, engines: Engines)
    ensures ParseObject(content, engines).None? ==>
              && JsonObjectGate(content, Some(c), engines).detail == NotParsed
              && RequiredFieldsGate(content, Some(c), engines).detail == NotParsed
              && AllowedValuesGate(content, Some(c), engines).detail == NotParsed
    ensures ParseObject(content, engines).Some? && !RequiredFieldsGate(content, Some(c), engines).passed ==>
              var d := RequiredFieldsGate(content, Some(c), engines).detail;
              var fields := ParseObject(content, engines).value;
              d.Missing? && forall name :: name in d.fields <==> IsMissing(name, c.fields, fields)
    ensures ParseObject(content, engines).Some? && !AllowedValuesGate(content, Some(c), engines).passed ==>
              var d := AllowedValuesGate(content, Some(c), engines).detail;
              var fields := ParseObject(content, engines).value;
              d.Disallowed? && forall v :: v in d.values <==> exists r :: r in c.fields && Breaks(r, fields, v)
  {
    if ParseObject(content, engines).Some? {
      MissingMeaning(c.fields, ParseObject(content, engines).value);
      DisallowedMeaning(c.fields, ParseObject(content, engines).value);
    }
  }

  /** A required name the object lacks. */
  predicate IsMissing(name: string, rules: seq<FieldRule>, fields: seq<Field>)
  {
    Get(fields, name).None? && exists r :: r in rules && r.required && r.name == name
  }

  /** A failing grounding gate says there is no object, no claims array, or exactly which claims are ungrounded. */
  lemma GroundedGateDetails(content: string, c: OutputContract, engines: Engines)
    requires c.grounding.Some? && !GroundedGate(content, Some(c), engines).passed
    ensures var d, doc := GroundedGate(content, Some(c), engines).detail, ParseObject(content, engines);
            if doc.None? then d == NotParsed
            else
              var claims := Claims(doc.value, c.grounding.value);
              if claims.None? then d == NoClaims(c.grounding.value.claimsField)
              else d.Ungrounded? && NamesUngrounded(d.grounding, claims.value, c.grounding.value)
  {
    var doc, rule := ParseObject(content, engines), c.grounding.value;
    if doc.Some? && Claims(doc.value, rule).Some? {
      Grounding.ExactlyUngroundedAreNamed(Claims(doc.value, rule).value, 0, rule, engines.show);
    }
  }

  ghost predicate NamesUngrounded(vs: seq<Grounding.Violation>, claims: seq<Value>, rule: GroundingRule)
  {
    forall k :: Grounding.Named(vs, k) <==> 0 <= k < |claims| && !Grounding.Grounded(claims[k], rule)
  }

  /** A failing shape gate says how large the text is, that it does not parse, or which node offends first. */
  lemma ShapeGateDetails(content: string, c: OutputContract, limits: EventShape.Limits, engines: Engines)
    requires !ShapeGate(content, Some(c), limits, engines).passed
    ensures var d := ShapeGate(content, Some(c), limits, engines).detail;
            var bytes := |Utf8.Encode(Text.Trim(content))|;
            var doc := engines.parse(Fences.StripMarkdownFences(content));
            if bytes > limits.maxTotalSizeBytes then d == Oversize(limits.maxTotalSizeBytes, bytes)
            else if doc.None? then d == NotParsed
            else d.Misshapen? && EventShape.Walk(limits, doc.value, "$", 0) == Some(d.shape)
  {
    Fences.StripIgnoresTrim(content);
  }

  /** The support gate says why it did not judge, at no call, or reports a verdict per call and the rejected claims. */
  lemma SupportedGateDetails(content: string, c: OutputContract, judge: Support.Judge, engines: Engines)
    requires c.grounding.Some? && c.grounding.value.support.Some?
    requires SupportedGate(content, Some(c), Some(judge), engines).0.Ok?
    ensures var (r, log) := SupportedGate(content, Some(c), Some(judge), engines);
            var d, doc, rule := r.value.detail, ParseObject(content, engines), c.grounding.value;
            if doc.None? then d == NotParsed && log == []
            else
              var claims := Claims(doc.value, rule);
              if claims.None? then d == NoClaims(rule.claimsField) && log == []
              else if |claims.value| > 64 then d == TooManyClaims(|claims.value|) && log == []
              else
                && d.Judged? && d.minConfidence == rule.support.value.minConfidence && |d.judged.verdicts| == |log|
                && NamesRejected(d.judged.violations, BenchFor(rule, judge, engines), claims.value)
  {
    var doc, rule := ParseObject(content, engines), c.grounding.value;
    if doc.Some? && Claims(doc.value, rule).Some? && |Claims(doc.value, rule).value| <= 64 {
      var claims := Claims(doc.value, rule).value;
      Support.OneViolationPerRejection(BenchFor(rule, judge, engines), claims, 0, []);
      Support.VerdictsMatchCalls(BenchFor(rule, judge, engines), claims, 0, []);
    }
  }

  ghost predicate NamesRejected(vs: seq<Support.Violation>, bench: Support.Bench, claims: seq<Value>)
  {
    forall k :: k in Support.ViolationIndices(vs) <==> Support.RejectedAt(bench, claims, 0, [], k)
  }

  /** What the schema gate says of a failure, and that passing gates other than the support gate say nothing. */
  lemma SchemaGateDetails(content: string, c: OutputContract, engines: Engines)
    requires !JsonSchemaGate(content, Some(c), engines).passed
    ensures JsonSchemaGate(content, Some(c), engines).detail ==
            if engines.parse(Fences.StripMarkdownFences(content)).Some? then SchemaRejected
            else
              var schema := engines.parse(c.jsonSchema);
              if schema.Some? && engines.compiles(schema.value) then NotParsed else SchemaRejected
  {
  }

  lemma PassingGatesSayNothing(
    content: string, contract: Option<OutputContract>, judge: Option<Support.Judge>, engines: Engines)
    requires RunChain(content, contract, judge, engines).Ok?
    ensures var rs := RunChain(content, contract, judge, engines).value;
            forall r :: r in rs && r.passed ==> r.detail == Nothing || (r.detail.Judged? && r == rs[6])
  {
  }

  /** The call shows the judge exactly what the claim cites, in order. */
  predicate AskedOnCitations(call: Support.Call, claim: Value, rule: GroundingRule)
  {
    && Grounding.Cites(claim, rule)
    && var refs := Grounding.Cited(claim, rule);
    && |call.excerpts| == |refs|
    && forall k :: 0 <= k < |refs| ==> Str(call.excerpts[k].reference) == refs[k]
  }

  lemma QuestionsAreCitations(bench: Support.Bench, claims: seq<Value>, rule: GroundingRule, log: seq<Support.Call>)
    requires bench.refsField == rule.refsField && rule.allowedRefs <= bench.rule.bodies.Keys
    requires forall c :: c in claims ==> Grounding.Grounded(c, rule)
    requires log <= Support.Questions(bench, claims)
    ensures |log| <= |claims| && forall i :: 0 <= i < |log| ==> AskedOnCitations(log[i], claims[i], rule)
  {
    Support.GroundedClaimsAreAllJudged(bench, claims, rule);
    forall i | 0 <= i < |log| ensures AskedOnCitations(log[i], claims[i], rule) {
      assert log[i] == Support.Questions(bench, claims)[i];
      assert claims[i] in claims;
    }
  }

  /** What the support gate finds behind a passing grounding gate: the cap first, then the judgement. */
  lemma SupportBehindGrounding(content: string, c: OutputContract, judge: Support.Judge, engines: Engines)
    requires c.grounding.Some? && c.grounding.value.support.Some? && GroundedGate(content, Some(c), engines).passed
    ensures ParseObject(content, engines).Some?
    ensures AllClaimsGrounded(ParseObject(content, engines).value, c.grounding.value)
    ensures var rule := c.grounding.value;
            var claims := Claims(ParseObject(content, engines).value, rule).value;
            var (j, asked) := Support.Judgement(BenchFor(rule, judge, engines), claims, 0, []);
            SupportedGate(content, Some(c), Some(judge), engines) ==
            if |claims| > Support.MAX_JUDGED_CLAIMS
            then (Ok(Report(Validator.ClaimsSupported, false, TooManyClaims(|claims|))), [])
            else if j.Err? then (Err(j.error), asked)
            else (Ok(Report(Validator.ClaimsSupported, j.value.violations == [],
                            Judged(rule.support.value.minConfidence, j.value))), asked)
  {
    GroundedMeans(content, Some(c), engines);
  }

  /**
   Gate composition. Behind a passing grounding gate whose contract has a body for every allowed ref,
   a completed support gate has judged every claim if and only if there are at most 64 of them; each
   call, also of a gate that failed half way, shows exactly the refs its claim cites, in order; and a
   missing body is never reported. Above 64 nobody is asked and the gate fails.
   */
  lemma GroundedProposalIsJudgedInFull(content: string, c: OutputContract, judge: Support.Judge, engines: Engines)
    requires c.grounding.Some? && c.grounding.value.support.Some? && Wired(c.grounding.value)
    requires GroundedGate(content, Some(c), engines).passed
    ensures ParseObject(content, engines).Some? && Claims(ParseObject(content, engines).value, c.grounding.value).Some?
    ensures var claims := Claims(ParseObject(content, engines).value, c.grounding.value).value;
            var (r, log) := SupportedGate(content, Some(c), Some(judge), engines);
            && |log| <= |claims|
            && (forall i :: 0 <= i < |log| ==> AskedOnCitations(log[i], claims[i], c.grounding.value))
            && (r.Ok? ==> (|log| == |claims| <==> |claims| <= 64))
            && (r.Ok? && |claims| <= 64 ==>
                  r.value.detail.Judged? && Support.UnjudgedCount(r.value.detail.judged.violations) == 0)
            && (|claims| > 64 ==>
                  log == [] && r == Ok(Report(Validator.ClaimsSupported, false, TooManyClaims(|claims|))))
  {
    SupportBehindGrounding(content, c, judge, engines);
    var rule := c.grounding.value;
    var claims, bench := Claims(ParseObject(content, engines).value, rule).value, BenchFor(rule, judge, engines);
    if |claims| <= Support.MAX_JUDGED_CLAIMS {
      Support.CallsAreTheQuestions(bench, claims, 0, []);
      var (j, asked) := Support.Judgement(bench, claims, 0, []);
      assert [] + Support.Questions(bench, claims) == Support.Questions(bench, claims);
      QuestionsAreCitations(bench, claims, rule, asked);
      if j.Ok? { Support.NoMissingBodyReported(bench, claims, rule); }
    }
  }

  /** The cap does bite: more than 64 copies of a grounded claim pass the grounding gate and are not judged at all. */
  lemma GroundedButNotJudged(
    content: string, c: OutputContract, judge: Support.Judge, engines: Engines, claim: Value, n: nat)
    requires c.grounding.Some? && c.grounding.value.support.Some? && Grounding.Grounded(claim, c.grounding.value)
    requires n > 64
    requires engines.parse(Fences.StripMarkdownFences(content)) ==
             Some(Obj([Field(c.grounding.value.claimsField, Arr(Copies(claim, n)))]))
    ensures GroundedGate(content, Some(c), engines).passed
    ensures SupportedGate(content, Some(c), Some(judge), engines) ==
            (Ok(Report(Validator.ClaimsSupported, false, TooManyClaims(n))), [])
  {
    var rule, fields := c.grounding.value, ParseObject(content, engines).value;
    assert fields[0].key == rule.claimsField && Claims(fields, rule) == Some(Copies(claim, n));
    GroundedMeans(content, Some(c), engines);
    SupportBehindGrounding(content, c, judge, engines);
  }

  function Copies(claim: Value, n: nat): (r: seq<Value>)
    ensures |r| == n && forall x :: x in r ==> x == claim
  {
    seq(n, i => claim)
  }

  /** No proposal costs more than 64 judge calls, and a failing judge fails the gate rather than passing it. */
  lemma JudgeBudget(content: string, contract: Option<OutputContract>, judge: Option<Support.Judge>, engines: Engines)
    ensures var (r, log) := SupportedGate(content, contract, judge, engines);
            && |log| <= 64
            && (judge.Some? && r.Err? ==> log != [] && judge.value(log) == Err(r.error))
  {
    if contract.Some? && contract.value.grounding.Some? && contract.value.grounding.value.support.Some? && judge.Some? {
      var rule, fields := contract.value.grounding.value, ParseObject(content, engines);
      if fields.Some? && Claims(fields.value, rule).Some? {
        var bench, claims := BenchFor(rule, judge.value, engines), Claims(fields.value, rule).value;
        Support.CallsAreTheQuestions(bench, claims, 0, []);
        Support.QuestionsBound(bench, claims);
      }
    }
  }

  /**
   A body that is not itself fenced gets the same verdict bare and wrapped, from every gate that
   parses the payload and does not measure it.
   */
  lemma FencesDoNotChangeVerdicts(
    left: string, info: string, body: string, right: string,
    contract: Option<OutputContract>, judge: Option<Support.Judge>, engines: Engines)
    requires Text.Blank(left) && Text.Blank(right) && '\n' !in info && ' ' !in Text.Trim(info)
    requires !Fences.Delimited(Text.Trim(body))
    ensures var fenced := left + Fences.Wrap(info, body) + right;
            && JsonObjectGate(fenced, contract, engines) == JsonObjectGate(body, contract, engines)
            && RequiredFieldsGate(fenced, contract, engines) == RequiredFieldsGate(body, contract, engines)
            && AllowedValuesGate(fenced, contract, engines) == AllowedValuesGate(body, contract, engines)
            && JsonSchemaGate(fenced, contract, engines) == JsonSchemaGate(body, contract, engines)
            && GroundedGate(fenced, contract, engines) == GroundedGate(body, contract, engines)
            && SupportedGate(fenced, contract, judge, engines) == SupportedGate(body, contract, judge, engines)
  {
    Fences.FenceTransparency(left, info, body, right);
    SamePayloadSameVerdicts(left + Fences.Wrap(info, body) + right, body, contract, judge, engines);
  }

  lemma TrimmedIsNoLonger(before: string, body: string, after: string)
    ensures |Utf8.Encode(Text.Trim(body))| <= |Utf8.Encode(before + body + after)|
  {
    var l, r := Text.TrimSplits(body);
    Utf8.EncodeConcat(before + body, after);
    Utf8.EncodeConcat(before, body);
    Utf8.EncodeConcat(l + Text.Trim(body), r);
    Utf8.EncodeConcat(l, Text.Trim(body));
  }

  /** The one gate that does measure the content: a fence costs a passing body its pass exactly by its own bytes. */
  lemma FencesCountTowardsSize(
    left: string, info: string, body: string, right: string,
    contract: Option<OutputContract>, limits: EventShape.Limits, engines: Engines)
    requires Text.Blank(left) && Text.Blank(right) && '\n' !in info && ' ' !in Text.Trim(info)
    requires !Fences.Delimited(Text.Trim(body)) && contract.Some?
    ensures ShapeGate(left + Fences.Wrap(info, body) + right, contract, limits, engines).passed <==>
            && ShapeGate(body, contract, limits, engines).passed
            && |Utf8.Encode(Fences.Wrap(info, body))| <= limits.maxTotalSizeBytes
  {
    var fenced := left + Fences.Wrap(info, body) + right;
    Fences.FenceTransparency(left, info, body, right);
    Fences.WrappedIsTight(left, info, body, right);
    ShapeMeans(fenced, contract, limits, engines);
    ShapeMeans(body, contract, limits, engines);
    TrimmedIsNoLonger(Fences.FENCE + info + "\n", body, Fences.FENCE);
  }

  /** These gates see nothing of the content but its stripped payload. */
  lemma SamePayloadSameVerdicts(
    a: string, b: string, contract: Option<OutputContract>, judge: Option<Support.Judge>, engines: Engines)
    requires Fences.StripMarkdownFences(a) == Fences.StripMarkdownFences(b)
    ensures JsonObjectGate(a, contract, engines) == JsonObjectGate(b, contract, engines)
    ensures RequiredFieldsGate(a, contract, engines) == RequiredFieldsGate(b, contract, engines)
    ensures AllowedValuesGate(a, contract, engines) == AllowedValuesGate(b, contract, engines)
    ensures JsonSchemaGate(a, contract, engines) == JsonSchemaGate(b, contract, engines)
    ensures GroundedGate(a, contract, engines) == GroundedGate(b, contract, engines)
    ensures SupportedGate(a, contract, judge, engines) == SupportedGate(b, contract, judge, engines)
  {
    SameObject(a, b, engines);
    SameFieldVerdicts(a, b, contract, engines);
    SameSchemaVerdict(a, b, contract, engines);
    SameEvidenceVerdicts(a, b, contract, judge, engines);
  }

  lemma SameObject(a: string, b: string, engines: Engines)
    requires Fences.StripMarkdownFences(a) == Fences.StripMarkdownFences(b)
    ensures ParseObject(a, engines) == ParseObject(b, engines)
  {
  }

  lemma SameFieldVerdicts(a: string, b: string, contract: Option<OutputContract>, engines: Engines)
    requires ParseObject(a, engines) == ParseObject(b, engines)
    ensures JsonObjectGate(a, contract, engines) == JsonObjectGate(b, contract, engines)
    ensures RequiredFieldsGate(a, contract, engines) == RequiredFieldsGate(b, contract, engines)
    ensures AllowedValuesGate(a, contract, engines) == AllowedValuesGate(b, contract, engines)
  {
  }

  lemma SameSchemaVerdict(a: string, b: string, contract: Option<OutputContract>, engines: Engines)
    requires Fences.StripMarkdownFences(a) == Fences.StripMarkdownFences(b)
    ensures JsonSchemaGate(a, contract, engines) == JsonSchemaGate(b, contract, engines)
  {
  }

  lemma SameEvidenceVerdicts(
    a: string, b: string, contract: Option<OutputContract>, judge: Option<Support.Judge>, engines: Engines)
    requires ParseObject(a, engines) == ParseObject(b, engines)
    ensures GroundedGate(a, contract, engines) == GroundedGate(b, contract, engines)
    ensures SupportedGate(a, contract, judge, engines) == SupportedGate(b, contract, judge, engines)
  {
  }
}
