/** The semantic-support gate: every claim is put to a judge on exactly the evidence it cites. */
module Support {
  import opened Prelude
  import opened Json
  import opened Contracts
  import Grounding

  const MAX_JUDGED_CLAIMS: nat := 64

  datatype Excerpt = Excerpt(reference: string, body: string)

  /** One question put to the judge. */
  datatype Call = Call(claimText: string, excerpts: seq<Excerpt>)

  datatype Verdict = Verdict(supported: bool, confidence: nat, rationale: string)

  /** Any judge at all, possibly failing and possibly stateful: its answer may depend on every call so far. */
  type Judge = seq<Call> -> Result<Verdict, Error>

  datatype VerdictRecord = VerdictRecord(claimIndex: nat, preview: string, refs: seq<string>, verdict: Verdict)

  datatype Problem =
    | NotAnObject(actualType: string)
    | NoJudgeableBody(preview: string)
    | LowConfidence(preview: string, confidence: nat, minConfidence: nat)
    | NotSupported(preview: string)

  datatype Violation = Violation(claimIndex: nat, problem: Problem)

  datatype Judged = Judged(verdicts: seq<VerdictRecord>, violations: seq<Violation>)

  /** What is fixed while one proposal is judged. */
  datatype Bench = Bench(judge: Judge, refsField: string, rule: SupportRule, show: Value -> string)

  /** The bodies a reference list resolves to; strings without a body and non-strings are skipped. */
  function Resolve(refs: seq<Value>, bodies: map<string, string>): seq<Excerpt>
  {
    if refs == [] then []
    else if refs[0].Str? && refs[0].s in bodies
    then [Excerpt(refs[0].s, bodies[refs[0].s])] + Resolve(refs[1..], bodies)
    else Resolve(refs[1..], bodies)
  }

  function CitedExcerpts(fields: seq<Field>, refsField: string, rule: SupportRule): seq<Excerpt>
  {
    var refs := Grounding.Refs(fields, refsField);
    if refs.None? then [] else Resolve(refs.value, rule.bodies)
  }

  function References(excerpts: seq<Excerpt>): (r: seq<string>)
    ensures |r| == |excerpts| && forall i :: 0 <= i < |r| ==> r[i] == excerpts[i].reference
  {
    seq(|excerpts|, i requires 0 <= i < |excerpts| => excerpts[i].reference)
  }

  predicate Accepted(v: Verdict, rule: SupportRule) { v.supported && v.confidence >= rule.minConfidence }

  /** Whether, and with what question, a claim reaches the judge. */
  function Question(bench: Bench, claim: Value): Option<Call>
  {
    if !claim.Obj? then None
    else
      var excerpts := CitedExcerpts(claim.fields, bench.refsField, bench.rule);
      if excerpts == [] then None else Some(Call(Grounding.ClaimText(claim.fields, bench.show), excerpts))
  }

  function PreviewOf(bench: Bench, claim: Value): string
  {
    Grounding.PreviewOf(claim, bench.show)
  }

  function Unjudged(bench: Bench, index: nat, claim: Value): Violation
  {
    Violation(index, if claim.Obj? then NoJudgeableBody(PreviewOf(bench, claim)) else NotAnObject(TypeName(claim)))
  }

  function Rejection(bench: Bench, index: nat, claim: Value, v: Verdict): Violation
  {
    var preview := PreviewOf(bench, claim);
    Violation(index, if v.supported then LowConfidence(preview, v.confidence, bench.rule.minConfidence)
                     else NotSupported(preview))
  }

  /** The source's loop. The log is every question asked, in order; the first judge error aborts. */
  method JudgeClaims(bench: Bench, claims: seq<Value>) returns (r: Result<Judged, Error>, log: seq<Call>)
    ensures (r, log) == Judgement(bench, claims, 0, [])
  {
    log := [];
    var verdicts, violations := [], [];
    ExtendNothing(Judgement(bench, claims, 0, []));
    assert claims[0..] == claims;
    for index := 0 to |claims|
      invariant Judgement(bench, claims, 0, []) ==
                Extend(Judged(verdicts, violations), Judgement(bench, claims[index..], index, log))
    {
      var claim, rest := claims[index], claims[index..];
      assert rest[1..] == claims[index + 1..];
      ghost var before := Judged(verdicts, violations);
      ghost var tail := Judgement(bench, rest[1..], index + 1, log);
      var question := Question(bench, claim);
      if question.None? {
        violations := violations + [Unjudged(bench, index, claim)];
        ExtendTwice(before, Judged([], [Unjudged(bench, index, claim)]), tail);
        assert Judged(verdicts, violations) == Plus(before, Judged([], [Unjudged(bench, index, claim)]));
        continue;
      }
      log := log + [question.value];
      var answer := bench.judge(log);
      if answer.Err? {
        return Err(answer.error), log;
      }
      var verdict := answer.value;
      var record := VerdictRecord(index, PreviewOf(bench, claim), References(question.value.excerpts), verdict);
      verdicts := verdicts + [record];
      if !Accepted(verdict, bench.rule) {
        violations := violations + [Rejection(bench, index, claim, verdict)];
      }
      ghost var judged := Judgement(bench, rest[1..], index + 1, log);
      ExtendTwice(before, Step(bench, index, claim, question.value, verdict), judged);
      assert Judged(verdicts, violations) == Plus(before, Step(bench, index, claim, question.value, verdict));
    }
    assert claims[|claims|..] == [];
    assert Plus(Judged(verdicts, violations), Judged([], [])) == Judged(verdicts, violations);
    r := Ok(Judged(verdicts, violations));
  }

  function Plus(a: Judged, b: Judged): Judged { Judged(a.verdicts + b.verdicts, a.violations + b.violations) }

  function Extend(first: Judged, rest: (Result<Judged, Error>, seq<Call>)): (Result<Judged, Error>, seq<Call>)
  {
    if rest.0.Ok? then (Ok(Plus(first, rest.0.value)), rest.1) else rest
  }

  lemma ExtendNothing(rest: (Result<Judged, Error>, seq<Call>))
    ensures Extend(Judged([], []), rest) == rest
  {
    if rest.0.Ok? { assert Plus(Judged([], []), rest.0.value) == rest.0.value; }
  }

  lemma ExtendTwice(a: Judged, b: Judged, rest: (Result<Judged, Error>, seq<Call>))
    ensures Extend(a, Extend(b, rest)) == Extend(Plus(a, b), rest)
  {
    if rest.0.Ok? {
      var c := rest.0.value;
      assert a.verdicts + (b.verdicts + c.verdicts) == a.verdicts + b.verdicts + c.verdicts;
      assert a.violations + (b.violations + c.violations) == a.violations + b.violations + c.violations;
    }
  }

  /** What one judged claim contributes to the record. */
  function Step(bench: Bench, index: nat, claim: Value, question: Call, v: Verdict): Judged
  {
    Judged([VerdictRecord(index, PreviewOf(bench, claim), References(question.excerpts), v)],
           if Accepted(v, bench.rule) then [] else [Rejection(bench, index, claim, v)])
  }

  /** Judging the claims numbered from `index`, after the calls in `log`. */
  function Judgement(bench: Bench, claims: seq<Value>, index: nat, log: seq<Call>): (Result<Judged, Error>, seq<Call>)
  {
    if claims == [] then (Ok(Judged([], [])), log)
    else
      var question := Question(bench, claims[0]);
      if question.None? then
        Extend(Judged([], [Unjudged(bench, index, claims[0])]), Judgement(bench, claims[1..], index + 1, log))
      else
        var asked := log + [question.value];
        var answer := bench.judge(asked);
        if answer.Err? then (Err(answer.error), asked)
        else Extend(Step(bench, index, claims[0], question.value, answer.value),
                    Judgement(bench, claims[1..], index + 1, asked))
  }

  // ---------- Which calls are made ----------

  /** The questions of all claims that have one, in order. */
  function Questions(bench: Bench, claims: seq<Value>): seq<Call>
  {
    if claims == [] then []
    else
      var q := Question(bench, claims[0]);
      (if q.Some? then [q.value] else []) + Questions(bench, claims[1..])
  }

  /**
   Fail closed: on success every question was asked exactly once, in order, and every answer was a
   verdict; on failure the log stops at the first erring call, all earlier answers were verdicts, and
   that error is the result.
   */
  lemma {:induction false} CallsAreTheQuestions(bench: Bench, claims: seq<Value>, index: nat, log: seq<Call>)
    ensures var (r, done) := Judgement(bench, claims, index, log);
            && log <= done <= log + Questions(bench, claims)
            && (r.Ok? ==> done == log + Questions(bench, claims))
            && (r.Err? ==> |log| < |done| && bench.judge(done) == Err(r.error))
            && (forall k :: |log| < k < |done| ==> bench.judge(done[..k]).Ok?)
            && (r.Ok? && |log| < |done| ==> bench.judge(done).Ok?)
  {
    if claims == [] {
      assert log + [] == log;
    } else {
      var q := Question(bench, claims[0]);
      if q.None? {
        CallsAreTheQuestions(bench, claims[1..], index + 1, log);
        assert Questions(bench, claims) == Questions(bench, claims[1..]);
      } else {
        var asked := log + [q.value];
        assert log + Questions(bench, claims) == asked + Questions(bench, claims[1..]);
        if bench.judge(asked).Ok? {
          CallsAreTheQuestions(bench, claims[1..], index + 1, asked);
          var done := Judgement(bench, claims, index, log).1;
          assert done[..|asked|] == asked;
          if |done| == |asked| { assert done == asked; }
        }
      }
    }
  }

  /** References are resolved one by one, in order and with their repetitions. */
  lemma {:induction false} ResolveOneByOne(a: seq<Value>, r: Value, b: seq<Value>, bodies: map<string, string>)
    ensures Resolve(a + [r] + b, bodies) ==
            Resolve(a, bodies) + (if r.Str? && r.s in bodies then [Excerpt(r.s, bodies[r.s])] else []) +
            Resolve(b, bodies)
  {
    if a == [] {
      assert (a + [r] + b)[0] == r && (a + [r] + b)[1..] == b;
    } else {
      assert (a + [r] + b)[0] == a[0] && (a + [r] + b)[1..] == a[1..] + [r] + b;
      ResolveOneByOne(a[1..], r, b, bodies);
    }
  }

  /** A claim is put to the judge exactly when it is an object that cites something with a body. */
  lemma AskedIffJudgeable(bench: Bench, claim: Value)
    ensures Question(bench, claim).Some? <==>
            claim.Obj? && exists refs :: Maps(claim.fields, bench.refsField, Arr(refs)) && CitesABody(refs, bench.rule)
  {
    if claim.Obj? {
      var refs := Grounding.Refs(claim.fields, bench.refsField);
      if refs.Some? {
        Grounding.RefsMeaning(claim.fields, bench.refsField, refs.value);
        ResolvesSomethingIff(refs.value, bench.rule);
      }
      if rs :| Maps(claim.fields, bench.refsField, Arr(rs)) && CitesABody(rs, bench.rule) {
        Grounding.RefsMeaning(claim.fields, bench.refsField, rs);
        ResolvesSomethingIff(rs, bench.rule);
      }
    }
  }

  predicate CitesABody(refs: seq<Value>, rule: SupportRule) { exists r :: r in refs && r.Str? && r.s in rule.bodies }

  lemma {:induction false} ResolvesSomethingIff(refs: seq<Value>, rule: SupportRule)
    ensures Resolve(refs, rule.bodies) != [] <==> CitesABody(refs, rule)
  {
    if refs != [] {
      ResolvesSomethingIff(refs[1..], rule);
      assert refs == [refs[0]] + refs[1..];
    }
  }

  /** The call puts to the judge what the claim says, with the bodies of what it cites. */
  ghost predicate Quotes(bench: Bench, claim: Value, c: Call)
  {
    && claim.Obj? && Grounding.Says(claim.fields, bench.show, c.claimText)
    && exists refs :: Maps(claim.fields, bench.refsField, Arr(refs)) && c.excerpts == Resolve(refs, bench.rule.bodies)
  }

  lemma QuestionQuotes(bench: Bench, claim: Value)
    requires Question(bench, claim).Some?
    ensures Quotes(bench, claim, Question(bench, claim).value)
  {
    Grounding.ClaimTextSays(claim.fields, bench.show);
    var refs := Grounding.Refs(claim.fields, bench.refsField).value;
    Grounding.RefsMeaning(claim.fields, bench.refsField, refs);
    assert Question(bench, claim).value.excerpts == Resolve(refs, bench.rule.bodies);
  }

  lemma {:induction false} QuestionsQuote(bench: Bench, claims: seq<Value>, c: Call)
    requires c in Questions(bench, claims)
    ensures exists i :: 0 <= i < |claims| && Quotes(bench, claims[i], c)
  {
    var q := Question(bench, claims[0]);
    if q.Some? && c == q.value {
      QuestionQuotes(bench, claims[0]);
    } else {
      QuestionsQuote(bench, claims[1..], c);
      var i :| 0 <= i < |claims[1..]| && Quotes(bench, claims[1..][i], c);
      assert claims[i + 1] == claims[1..][i];
    }
  }

  /** Every call made, also by a judgement that fails half way, quotes one of the claims. */
  lemma CallsQuoteTheirClaims(bench: Bench, claims: seq<Value>, c: Call)
    requires c in Judgement(bench, claims, 0, []).1
    ensures exists i :: 0 <= i < |claims| && Quotes(bench, claims[i], c)
  {
    CallsAreTheQuestions(bench, claims, 0, []);
    assert [] + Questions(bench, claims) == Questions(bench, claims);
    QuestionsQuote(bench, claims, c);
  }

  lemma {:induction false} QuestionsBound(bench: Bench, claims: seq<Value>)
    ensures |Questions(bench, claims)| <= |claims|
  {
    if claims != [] { QuestionsBound(bench, claims[1..]); }
  }

  /** A judge sees a body only under a reference the claim itself cites. */
  lemma {:induction false} ExcerptsAreCited(refs: seq<Value>, bodies: map<string, string>, e: Excerpt)
    ensures e in Resolve(refs, bodies) <==>
            Str(e.reference) in refs && e.reference in bodies && bodies[e.reference] == e.body
  {
    if refs != [] {
      ExcerptsAreCited(refs[1..], bodies, e);
      assert refs == [refs[0]] + refs[1..];
    }
  }

  // ---------- What is recorded ----------

  /** The answer the judge gives to claim `i` when the claims before it have been put to it. */
  function Answer(bench: Bench, claims: seq<Value>, log: seq<Call>, i: nat): Result<Verdict, Error>
    requires i < |claims|
  {
    bench.judge(log + Questions(bench, claims[..i + 1]))
  }

  /** The deterministic decision on claim `i`. */
  predicate Rejected(bench: Bench, claims: seq<Value>, log: seq<Call>, i: nat)
    requires i < |claims|
  {
    Question(bench, claims[i]).None? ||
    (var a := Answer(bench, claims, log, i);
     a.Ok? && (!a.value.supported || a.value.confidence < bench.rule.minConfidence))
  }

  predicate Increasing(s: seq<nat>) { forall i, j :: 0 <= i < j < |s| ==> s[i] < s[j] }

  function ViolationIndices(vs: seq<Violation>): (r: seq<nat>)
    ensures |r| == |vs| && forall i :: 0 <= i < |r| ==> r[i] == vs[i].claimIndex
  {
    seq(|vs|, i requires 0 <= i < |vs| => vs[i].claimIndex)
  }

  function VerdictIndices(vs: seq<VerdictRecord>): (r: seq<nat>)
    ensures |r| == |vs| && forall i :: 0 <= i < |r| ==> r[i] == vs[i].claimIndex
  {
    seq(|vs|, i requires 0 <= i < |vs| => vs[i].claimIndex)
  }

  lemma QuestionsStep(bench: Bench, claims: seq<Value>, log: seq<Call>, i: nat)
    requires 0 < i < |claims|
    ensures log + Questions(bench, claims[..i + 1]) ==
            (log + if Question(bench, claims[0]).Some? then [Question(bench, claims[0]).value] else [])
            + Questions(bench, claims[1..][..i])
  {
    assert claims[..i + 1][1..] == claims[1..][..i];
    assert claims[..i + 1][0] == claims[0];
  }

  lemma AnswerShift(bench: Bench, claims: seq<Value>, log: seq<Call>, i: nat)
    requires 0 < i < |claims|
    ensures Answer(bench, claims, log, i) == Answer(bench, claims[1..], Later(bench, claims, log), i - 1)
  {
    QuestionsStep(bench, claims, log, i);
  }

  /** The log a claim list is judged after, once its first claim is behind it. */
  function Later(bench: Bench, claims: seq<Value>, log: seq<Call>): seq<Call>
    requires claims != []
  {
    log + if Question(bench, claims[0]).Some? then [Question(bench, claims[0]).value] else []
  }

  /** What the first claim of a completed judgement contributes. */
  function First(bench: Bench, claims: seq<Value>, index: nat, log: seq<Call>): Judged
    requires claims != [] && Judgement(bench, claims, index, log).0.Ok?
  {
    var q := Question(bench, claims[0]);
    if q.None? then Judged([], [Unjudged(bench, index, claims[0])])
    else Step(bench, index, claims[0], q.value, bench.judge(log + [q.value]).value)
  }

  /** A completed judgement is its first claim's contribution followed by the rest's. */
  lemma Unfold(bench: Bench, claims: seq<Value>, index: nat, log: seq<Call>)
    requires claims != [] && Judgement(bench, claims, index, log).0.Ok?
    ensures var rest := Judgement(bench, claims[1..], index + 1, Later(bench, claims, log)).0;
            && rest.Ok?
            && Judgement(bench, claims, index, log).0.value == Plus(First(bench, claims, index, log), rest.value)
    ensures Answer(bench, claims, log, 0) == bench.judge(Later(bench, claims, log))
  {
    if Question(bench, claims[0]).None? { assert Later(bench, claims, log) == log; }
    assert claims[..1] == [claims[0]];
    var own := if Question(bench, claims[0]).Some? then [Question(bench, claims[0]).value] else [];
    assert Questions(bench, [claims[0]]) == own + Questions(bench, []);
    assert own + [] == own;
  }

  lemma JoinIncreasing(a: seq<nat>, b: seq<nat>, index: nat)
    requires |a| <= 1 && (a != [] ==> a[0] == index)
    requires Increasing(b) && forall k :: k in b ==> k > index
    ensures Increasing(a + b)
  {
    forall i, j | 0 <= i < j < |a + b| ensures (a + b)[i] < (a + b)[j] {
      assert (a + b)[j] == b[j - |a|] && b[j - |a|] in b;
      if i >= |a| { assert (a + b)[i] == b[i - |a|]; }
    }
  }

  /** Claim number `k`, counting from `index`, is rejected. */
  predicate RejectedAt(bench: Bench, claims: seq<Value>, index: nat, log: seq<Call>, k: int)
  {
    index <= k < index + |claims| && Rejected(bench, claims, log, k - index)
  }

  /** Claim number `k`, counting from `index`, is put to the judge. */
  predicate JudgedAt(bench: Bench, claims: seq<Value>, index: nat, k: int)
  {
    index <= k < index + |claims| && Question(bench, claims[k - index]).Some?
  }

  lemma RejectedShift(bench: Bench, claims: seq<Value>, index: nat, log: seq<Call>, k: int)
    requires claims != []
    ensures RejectedAt(bench, claims, index, log, k) <==>
            (k == index && Rejected(bench, claims, log, 0)) ||
            RejectedAt(bench, claims[1..], index + 1, Later(bench, claims, log), k)
  {
    if index < k < index + |claims| { AnswerShift(bench, claims, log, k - index); }
  }

  lemma FirstContribution(bench: Bench, claims: seq<Value>, index: nat, log: seq<Call>)
    requires claims != [] && Judgement(bench, claims, index, log).0.Ok?
    ensures ViolationIndices(First(bench, claims, index, log).violations) ==
            if Rejected(bench, claims, log, 0) then [index] else []
    ensures VerdictIndices(First(bench, claims, index, log).verdicts) ==
            if Question(bench, claims[0]).Some? then [index] else []
  {
    Unfold(bench, claims, index, log);
  }

  lemma IndicesConcat(a: Judged, b: Judged)
    ensures ViolationIndices(Plus(a, b).violations) == ViolationIndices(a.violations) + ViolationIndices(b.violations)
    ensures VerdictIndices(Plus(a, b).verdicts) == VerdictIndices(a.verdicts) + VerdictIndices(b.verdicts)
  {
  }

  /** The claim numbers on record: the first claim's, if it has one, and then those of the rest. */
  lemma IndicesUnfold(bench: Bench, claims: seq<Value>, index: nat, log: seq<Call>)
    requires claims != [] && Judgement(bench, claims, index, log).0.Ok?
    ensures var whole := Judgement(bench, claims, index, log).0;
            var rest := Judgement(bench, claims[1..], index + 1, Later(bench, claims, log)).0;
            && rest.Ok?
            && ViolationIndices(whole.value.violations) ==
               (if Rejected(bench, claims, log, 0) then [index] else []) + ViolationIndices(rest.value.violations)
            && VerdictIndices(whole.value.verdicts) ==
               (if Question(bench, claims[0]).Some? then [index] else []) + VerdictIndices(rest.value.verdicts)
  {
    Unfold(bench, claims, index, log);
    FirstContribution(bench, claims, index, log);
    IndicesConcat(First(bench, claims, index, log),
                  Judgement(bench, claims[1..], index + 1, Later(bench, claims, log)).0.value);
  }

  /** Every rejected claim has exactly one violation, every other claim none. */
  lemma {:induction false} OneViolationPerRejection(bench: Bench, claims: seq<Value>, index: nat, log: seq<Call>)
    requires Judgement(bench, claims, index, log).0.Ok?
    ensures var indices := ViolationIndices(Judgement(bench, claims, index, log).0.value.violations);
            && Increasing(indices)
            && forall k :: k in indices <==> RejectedAt(bench, claims, index, log, k)
  {
    if claims != [] {
      IndicesUnfold(bench, claims, index, log);
      var later := Later(bench, claims, log);
      OneViolationPerRejection(bench, claims[1..], index + 1, later);
      RejectionsStep(bench, claims, index, log, if Rejected(bench, claims, log, 0) then [index] else [],
                     ViolationIndices(Judgement(bench, claims[1..], index + 1, later).0.value.violations));
    }
  }

  lemma RejectionsStep(bench: Bench, claims: seq<Value>, index: nat, log: seq<Call>, head: seq<nat>, tail: seq<nat>)
    requires claims != [] && head == (if Rejected(bench, claims, log, 0) then [index] else [])
    requires Increasing(tail)
    requires forall k :: k in tail <==> RejectedAt(bench, claims[1..], index + 1, Later(bench, claims, log), k)
    ensures Increasing(head + tail) && forall k :: k in head + tail <==> RejectedAt(bench, claims, index, log, k)
  {
    JoinIncreasing(head, tail, index);
    forall k ensures k in head + tail <==> RejectedAt(bench, claims, index, log, k) {
      RejectedShift(bench, claims, index, log, k);
      assert k in head + tail <==> k in head || k in tail;
    }
  }

  /** Every judged claim has exactly one verdict record, every other claim none. */
  lemma {:induction false} OneVerdictPerQuestion(bench: Bench, claims: seq<Value>, index: nat, log: seq<Call>)
    requires Judgement(bench, claims, index, log).0.Ok?
    ensures var indices := VerdictIndices(Judgement(bench, claims, index, log).0.value.verdicts);
            && Increasing(indices)
            && forall k :: k in indices <==> JudgedAt(bench, claims, index, k)
  {
    if claims != [] {
      IndicesUnfold(bench, claims, index, log);
      var later := Later(bench, claims, log);
      OneVerdictPerQuestion(bench, claims[1..], index + 1, later);
      QuestionIndicesStep(bench, claims, index, if Question(bench, claims[0]).Some? then [index] else [],
                          VerdictIndices(Judgement(bench, claims[1..], index + 1, later).0.value.verdicts));
    }
  }

  lemma QuestionIndicesStep(bench: Bench, claims: seq<Value>, index: nat, head: seq<nat>, tail: seq<nat>)
    requires claims != [] && head == (if Question(bench, claims[0]).Some? then [index] else [])
    requires Increasing(tail) && forall k :: k in tail <==> JudgedAt(bench, claims[1..], index + 1, k)
    ensures Increasing(head + tail) && forall k :: k in head + tail <==> JudgedAt(bench, claims, index, k)
  {
    JoinIncreasing(head, tail, index);
    forall k ensures k in head + tail <==> JudgedAt(bench, claims, index, k) {
      assert k in head + tail <==> k in head || k in tail;
      if index < k < index + |claims| { assert claims[1..][k - index - 1] == claims[k - index]; }
    }
  }

  /** The record is of a claim that was put to the judge, with its answer, preview and references. */
  ghost predicate Reports(bench: Bench, claims: seq<Value>, index: nat, log: seq<Call>, v: VerdictRecord)
  {
    && index <= v.claimIndex < index + |claims|
    && var i := v.claimIndex - index;
    && Question(bench, claims[i]).Some? && Answer(bench, claims, log, i) == Ok(v.verdict)
    && v.refs == References(Question(bench, claims[i]).value.excerpts)
    && Grounding.Previews(claims[i], bench.show, v.preview)
  }

  lemma ReportsShift(bench: Bench, claims: seq<Value>, index: nat, log: seq<Call>, v: VerdictRecord)
    requires claims != [] && Reports(bench, claims[1..], index + 1, Later(bench, claims, log), v)
    ensures Reports(bench, claims, index, log, v)
  {
    AnswerShift(bench, claims, log, v.claimIndex - index);
  }

  /** Every verdict record carries the judge's own answer to that claim. */
  lemma {:induction false} VerdictsAreAnswers(
    bench: Bench, claims: seq<Value>, index: nat, log: seq<Call>, v: VerdictRecord)
    requires Judgement(bench, claims, index, log).0.Ok?
    requires v in Judgement(bench, claims, index, log).0.value.verdicts
    ensures Reports(bench, claims, index, log, v)
  {
    if claims != [] {
      var rest, later := claims[1..], Later(bench, claims, log);
      VerdictsUnfold(bench, claims, index, log, v);
      if v in Judgement(bench, rest, index + 1, later).0.value.verdicts {
        VerdictsAreAnswers(bench, rest, index + 1, later, v);
        ReportsShift(bench, claims, index, log, v);
      } else {
        FirstVerdictIsTheAnswer(bench, claims, index, log, v);
      }
    }
  }

  lemma VerdictsUnfold(bench: Bench, claims: seq<Value>, index: nat, log: seq<Call>, v: VerdictRecord)
    requires claims != [] && Judgement(bench, claims, index, log).0.Ok?
    ensures var rest := Judgement(bench, claims[1..], index + 1, Later(bench, claims, log)).0;
            && rest.Ok?
            && (v in Judgement(bench, claims, index, log).0.value.verdicts <==>
                v in First(bench, claims, index, log).verdicts || v in rest.value.verdicts)
  {
    Unfold(bench, claims, index, log);
  }

  lemma FirstVerdictIsTheAnswer(bench: Bench, claims: seq<Value>, index: nat, log: seq<Call>, v: VerdictRecord)
    requires claims != [] && Judgement(bench, claims, index, log).0.Ok?
    requires v in First(bench, claims, index, log).verdicts
    ensures Reports(bench, claims, index, log, v)
  {
    if claims[0].Obj? { Grounding.PreviewOfPreviews(claims[0], bench.show); }
    Unfold(bench, claims, index, log);
  }

  /** What a violation on record says about the claim it names. */
  ghost predicate Explains(bench: Bench, claims: seq<Value>, index: nat, log: seq<Call>, v: Violation)
  {
    && index <= v.claimIndex < index + |claims|
    && var i := v.claimIndex - index;
    match v.problem
    case NotAnObject(actual) => !claims[i].Obj? && actual == TypeName(claims[i])
    case NoJudgeableBody(preview) =>
      && claims[i].Obj? && CitedExcerpts(claims[i].fields, bench.refsField, bench.rule) == []
      && Grounding.Previews(claims[i], bench.show, preview)
    case LowConfidence(preview, confidence, least) =>
      && Question(bench, claims[i]).Some? && Grounding.Previews(claims[i], bench.show, preview)
      && var a := Answer(bench, claims, log, i);
      a.Ok? && a.value.supported && a.value.confidence == confidence < least == bench.rule.minConfidence
    case NotSupported(preview) =>
      && Question(bench, claims[i]).Some? && Grounding.Previews(claims[i], bench.show, preview)
      && Answer(bench, claims, log, i).Ok? && !Answer(bench, claims, log, i).value.supported
  }

  lemma ExplainsShift(bench: Bench, claims: seq<Value>, index: nat, log: seq<Call>, v: Violation)
    requires claims != [] && Explains(bench, claims[1..], index + 1, Later(bench, claims, log), v)
    ensures Explains(bench, claims, index, log, v)
  {
    AnswerShift(bench, claims, log, v.claimIndex - index);
  }

  lemma FirstViolationExplains(bench: Bench, claims: seq<Value>, index: nat, log: seq<Call>, v: Violation)
    requires claims != [] && Judgement(bench, claims, index, log).0.Ok?
    requires v in First(bench, claims, index, log).violations
    ensures Explains(bench, claims, index, log, v)
  {
    if claims[0].Obj? { Grounding.PreviewOfPreviews(claims[0], bench.show); }
    Unfold(bench, claims, index, log);
  }

  lemma ViolationsUnfold(bench: Bench, claims: seq<Value>, index: nat, log: seq<Call>, v: Violation)
    requires claims != [] && Judgement(bench, claims, index, log).0.Ok?
    ensures var rest := Judgement(bench, claims[1..], index + 1, Later(bench, claims, log)).0;
            && rest.Ok?
            && (v in Judgement(bench, claims, index, log).0.value.violations <==>
                v in First(bench, claims, index, log).violations || v in rest.value.violations)
  {
    Unfold(bench, claims, index, log);
  }

  /** Every violation states the true reason: wrong type, nothing judgeable, too little confidence, or no support. */
  lemma {:induction false} ViolationsSayWhy(
    bench: Bench, claims: seq<Value>, index: nat, log: seq<Call>, v: Violation)
    requires Judgement(bench, claims, index, log).0.Ok?
    requires v in Judgement(bench, claims, index, log).0.value.violations
    ensures Explains(bench, claims, index, log, v)
  {
    if claims != [] {
      var rest, later := claims[1..], Later(bench, claims, log);
      ViolationsUnfold(bench, claims, index, log, v);
      if v in Judgement(bench, rest, index + 1, later).0.value.violations {
        ViolationsSayWhy(bench, rest, index + 1, later, v);
        ExplainsShift(bench, claims, index, log, v);
      } else {
        FirstViolationExplains(bench, claims, index, log, v);
      }
    }
  }

  function UnjudgedCount(vs: seq<Violation>): nat
  {
    if vs == [] then 0
    else (if vs[0].problem.NotAnObject? || vs[0].problem.NoJudgeableBody? then 1 else 0) + UnjudgedCount(vs[1..])
  }

  lemma {:induction false} UnjudgedConcat(a: seq<Violation>, b: seq<Violation>)
    ensures UnjudgedCount(a + b) == UnjudgedCount(a) + UnjudgedCount(b)
  {
    if a == [] {
      assert a + b == b;
    } else {
      assert (a + b)[1..] == a[1..] + b;
      UnjudgedConcat(a[1..], b);
    }
  }

  /** Conservation: verdict records plus unjudged violations are the claims. */
  lemma {:induction false} RecordsAddUp(bench: Bench, claims: seq<Value>, index: nat, log: seq<Call>)
    requires Judgement(bench, claims, index, log).0.Ok?
    ensures var j := Judgement(bench, claims, index, log).0.value;
            |j.verdicts| + UnjudgedCount(j.violations) == |claims|
  {
    if claims != [] {
      var q, rest := Question(bench, claims[0]), claims[1..];
      if q.None? {
        RecordsAddUp(bench, rest, index + 1, log);
        UnjudgedConcat([Unjudged(bench, index, claims[0])], Judgement(bench, rest, index + 1, log).0.value.violations);
      } else {
        var asked := log + [q.value];
        RecordsAddUp(bench, rest, index + 1, asked);
        UnjudgedConcat(Step(bench, index, claims[0], q.value, bench.judge(asked).value).violations,
                       Judgement(bench, rest, index + 1, asked).0.value.violations);
      }
    }
  }

  // ---------- Composition with the grounding gate ----------

  lemma {:induction false} AllowedRefsResolve(refs: seq<Value>, bodies: map<string, string>)
    requires forall r :: r in refs ==> r.Str? && r.s in bodies
    ensures |Resolve(refs, bodies)| == |refs|
    ensures forall i :: 0 <= i < |refs| ==> Str(Resolve(refs, bodies)[i].reference) == refs[i]
  {
    if refs != [] {
      assert refs == [refs[0]] + refs[1..];
      AllowedRefsResolve(refs[1..], bodies);
    }
  }

  /**
   The judging loop has one question for each of a list of grounded claims, on exactly the references
   it cites and in their order, when the rule has a body for every allowed reference.
   */
  lemma {:induction false} GroundedClaimsAreAllJudged(bench: Bench, claims: seq<Value>, rule: GroundingRule)
    requires bench.refsField == rule.refsField && rule.allowedRefs <= bench.rule.bodies.Keys
    requires forall c :: c in claims ==> Grounding.Grounded(c, rule)
    ensures |Questions(bench, claims)| == |claims|
    ensures forall i :: 0 <= i < |claims| ==>
              && Question(bench, claims[i]) == Some(Questions(bench, claims)[i])
              && var refs := Grounding.Refs(claims[i].fields, rule.refsField).value;
              && |Questions(bench, claims)[i].excerpts| == |refs|
              && forall k :: 0 <= k < |refs| ==> Str(Questions(bench, claims)[i].excerpts[k].reference) == refs[k]
  {
    if claims != [] {
      assert claims == [claims[0]] + claims[1..];
      assert Grounding.Grounded(claims[0], rule);
      AllowedRefsResolve(Grounding.Refs(claims[0].fields, rule.refsField).value, bench.rule.bodies);
      GroundedClaimsAreAllJudged(bench, claims[1..], rule);
    }
  }

  lemma NoMissingBodyReported(bench: Bench, claims: seq<Value>, rule: GroundingRule)
    requires bench.refsField == rule.refsField && rule.allowedRefs <= bench.rule.bodies.Keys
    requires forall c :: c in claims ==> Grounding.Grounded(c, rule)
    requires Judgement(bench, claims, 0, []).0.Ok?
    ensures UnjudgedCount(Judgement(bench, claims, 0, []).0.value.violations) == 0
    ensures |Judgement(bench, claims, 0, []).1| == |claims|
  {
    GroundedClaimsAreAllJudged(bench, claims, rule);
    CallsAreTheQuestions(bench, claims, 0, []);
    RecordsAddUp(bench, claims, 0, []);
    VerdictsMatchCalls(bench, claims, 0, []);
  }

  /** There is one verdict record per call made. */
  lemma {:induction false} VerdictsMatchCalls(bench: Bench, claims: seq<Value>, index: nat, log: seq<Call>)
    requires Judgement(bench, claims, index, log).0.Ok?
    ensures var (r, done) := Judgement(bench, claims, index, log); |r.value.verdicts| == |done| - |log|
  {
    if claims != [] {
      var q := Question(bench, claims[0]);
      VerdictsMatchCalls(bench, claims[1..], index + 1, if q.None? then log else log + [q.value]);
    }
  }
}
