/** Reading an LLM judge's reply, and carrying its score to the ranking. */
module JudgeReply {
  import opened Prelude
  import opened Json
  import opened Reports
  import opened Text
  import Scoring
  import Support

  datatype ReplyError = NotAnObject | Malformed | MissingField

  /** The text from the first opening brace through the last closing brace, when the latter comes later. */
  function Braced(text: string): Option<string>
  {
    Between(text, IndexOf(text, '{'), AfterLast(text, '}'))
  }

  function Between(text: string, start: nat, after: nat): Option<string>
    requires start <= |text| && after <= |text|
  {
    if start == |text| || after == 0 || after - 1 <= start then None else Some(text[start..after])
  }

  function Member(v: Value, key: string): Option<Value> { if v.Obj? then Get(v.fields, key) else None }

  /** The reply object, parsed. */
  function Reply(text: string, parse: string -> Option<Value>): Result<Value, ReplyError>
  {
    Parsed(Braced(text), parse)
  }

  function Parsed(braced: Option<string>, parse: string -> Option<Value>): Result<Value, ReplyError>
  {
    if braced.None? then Err(NotAnObject)
    else
      var value := parse(braced.value);
      if value.None? then Err(Malformed) else Ok(value.value)
  }

  function NumberIn(v: Value, key: string, round: int -> real): Result<F64, ReplyError>
  {
    var m := Member(v, key);
    if m.Some? && m.value.Num? then Ok(AsF64(m.value.n, round)) else Err(MissingField)
  }

  /** A percentage as a fraction. */
  function Hundredth(f: F64): F64 { if f.Finite? then Finite(f.value / 100.0, f.negativeZero) else f }

  function ParseScore(text: string, parse: string -> Option<Value>, round: int -> real): Result<F64, ReplyError>
  {
    var value := Reply(text, parse);
    if value.Err? then Err(value.error)
    else
      var raw := NumberIn(value.value, "score", round);
      if raw.Err? then raw else Ok(Scoring.Clamp(Hundredth(raw.value), 0.0, 1.0))
  }

  /** Rounding half away from zero of a value known to lie in [0, 100]. */
  function Percent(f: F64): nat
  {
    var c := Scoring.Clamp(f, 0.0, 100.0);
    if c.Finite? && c.value >= 0.0 then (c.value + 0.5).Floor else 0
  }

  function ParseVerdict(text: string, parse: string -> Option<Value>, round: int -> real)
    : Result<Support.Verdict, ReplyError>
  {
    var value := Reply(text, parse);
    if value.Err? then Err(value.error)
    else
      var supported := Member(value.value, "supported");
      if supported.None? || !supported.value.Bool? then Err(MissingField)
      else
        var confidence := NumberIn(value.value, "confidence", round);
        if confidence.Err? then Err(MissingField)
        else
          var reason := Member(value.value, "reason");
          Ok(Support.Verdict(supported.value.b, Percent(confidence.value),
                             if reason.Some? && reason.value.Str? then reason.value.s else ""))
  }

  /** The judge validator's report on a proposal it rated. */
  function JudgeReport(score: F64, threshold: real): Report
  {
    Report(LlmJudge, score.Finite? && score.value >= threshold,
           JudgeScore(if score.Finite? then Num(Float(score)) else Null))
  }

  // ---------- Framing ----------

  lemma FirstBrace(prefix: string, text: string, suffix: string)
    requires '{' !in prefix
    ensures var at := IndexOf(prefix + text + suffix, '{');
            if IndexOf(text, '{') < |text| then at == |prefix| + IndexOf(text, '{') else at >= |prefix| + |text|
  {
    var whole, i := prefix + text + suffix, IndexOf(text, '{');
    var at := IndexOf(whole, '{');
    forall j | 0 <= j < |prefix| + i ensures whole[j] != '{' {
      if j < |prefix| { assert whole[j] == prefix[j]; } else { assert whole[j] == text[j - |prefix|]; }
    }
    if i < |text| { assert whole[|prefix| + i] == text[i]; }
  }

  lemma LastBrace(prefix: string, text: string, suffix: string)
    requires '}' !in suffix
    ensures var after := AfterLast(prefix + text + suffix, '}');
            if AfterLast(text, '}') > 0 then after == |prefix| + AfterLast(text, '}') else after <= |prefix|
  {
    var whole, a := prefix + text + suffix, AfterLast(text, '}');
    var after := AfterLast(whole, '}');
    forall j | |prefix| + a <= j < |whole| ensures whole[j] != '}' {
      if j < |prefix| + |text| { assert whole[j] == text[j - |prefix|]; }
      else { assert whole[j] == suffix[j - |prefix| - |text|]; }
    }
    if a > 0 { assert whole[|prefix| + a - 1] == text[a - 1]; }
  }

  /** Prose before the object, as long as it opens no brace, and after it, as long as it closes none, is ignored. */
  lemma ProseIsIgnored(prefix: string, text: string, suffix: string)
    requires '{' !in prefix && '}' !in suffix
    ensures Braced(prefix + text + suffix) == Braced(text)
  {
    FirstBrace(prefix, text, suffix);
    LastBrace(prefix, text, suffix);
    BetweenShifts(prefix, text, suffix, IndexOf(text, '{'), AfterLast(text, '}'),
                  IndexOf(prefix + text + suffix, '{'), AfterLast(prefix + text + suffix, '}'));
  }

  /** The same stretch, at positions shifted by the prefix or, when there is none, outside the text. */
  lemma BetweenShifts(
    prefix: string, text: string, suffix: string, start: nat, after: nat, wholeStart: nat, wholeAfter: nat)
    requires start <= |text| && after <= |text|
    requires wholeStart <= |prefix + text + suffix| && wholeAfter <= |prefix + text + suffix|
    requires if start < |text| then wholeStart == |prefix| + start else wholeStart >= |prefix| + |text|
    requires if after > 0 then wholeAfter == |prefix| + after else wholeAfter <= |prefix|
    ensures Between(prefix + text + suffix, wholeStart, wholeAfter) == Between(text, start, after)
  {
    if start < |text| && start <= after {
      assert (prefix + text + suffix)[|prefix| + start..|prefix| + after] == text[start..after];
    }
  }

  lemma ProseDoesNotChangeTheReply(
    prefix: string, text: string, suffix: string, parse: string -> Option<Value>, round: int -> real)
    requires '{' !in prefix && '}' !in suffix
    ensures ParseScore(prefix + text + suffix, parse, round) == ParseScore(text, parse, round)
    ensures ParseVerdict(prefix + text + suffix, parse, round) == ParseVerdict(text, parse, round)
  {
    ProseIsIgnored(prefix, text, suffix);
    SameReplySameScore(prefix + text + suffix, text, parse, round);
    SameReplySameVerdict(prefix + text + suffix, text, parse, round);
  }

  lemma SameReplySameScore(a: string, b: string, parse: string -> Option<Value>, round: int -> real)
    requires Braced(a) == Braced(b)
    ensures ParseScore(a, parse, round) == ParseScore(b, parse, round)
  {
  }

  lemma SameReplySameVerdict(a: string, b: string, parse: string -> Option<Value>, round: int -> real)
    requires Braced(a) == Braced(b)
    ensures ParseVerdict(a, parse, round) == ParseVerdict(b, parse, round)
  {
  }

  // ---------- From reply to ranking ----------

  lemma {:induction false} DetailSkips(structural: seq<Report>, rest: seq<Report>)
    requires forall r :: r in structural ==> !Scoring.IsJudgeReport(r)
    ensures Scoring.FirstJudgeDetail(structural + rest) == Scoring.FirstJudgeDetail(rest)
  {
    if structural == [] {
      assert structural + rest == rest;
    } else {
      assert structural[0] in structural;
      assert (structural + rest)[1..] == structural[1..] + rest;
      DetailSkips(structural[1..], rest);
    }
  }

  /** JSON has no way to write a number that is not a finite double. */
  ghost predicate FiniteDocuments(parse: string -> Option<Value>)
  {
    forall text :: parse(text).Some? ==> FiniteNumbers(parse(text).value)
  }

  /** So every score that is read is a finite double in [0, 1]. */
  lemma ParsedScoreIsAFraction(text: string, parse: string -> Option<Value>, round: int -> real)
    requires FiniteDocuments(parse) && ParseScore(text, parse, round).Ok?
    ensures var score := ParseScore(text, parse, round).value;
            score.Finite? && ValidF64(score) && 0.0 <= score.value <= 1.0
  {
    var doc := Reply(text, parse).value;
    assert FiniteNumbers(doc);
    var m := Get(doc.fields, "score").value;
    var i :| 0 <= i < |doc.fields| && doc.fields[i] == Field("score", m);
    assert FiniteNumbers(m);
  }

  /**
   A reply becomes, unchanged, the score the ranking uses: the scorer's own clamp is the
   identity, because the judge's report is the only one carrying the judge detail.
   */
  lemma ReplyBecomesScore(
    structural: seq<Report>, text: string, threshold: real, parse: string -> Option<Value>, round: int -> real)
    requires forall r :: r in structural ==> !Scoring.IsJudgeReport(r)
    requires FiniteDocuments(parse) && ParseScore(text, parse, round).Ok?
    ensures var score := ParseScore(text, parse, round).value;
            && score.Finite? && 0.0 <= score.value <= 1.0
            && Scoring.JudgeAwareScore(structural + [JudgeReport(score, threshold)], round) ==
               Some(Scoring.Score(score.value, score.negativeZero))
            && (JudgeReport(score, threshold).passed <==> score.value >= threshold)
  {
    ParsedScoreIsAFraction(text, parse, round);
    var report := JudgeReport(ParseScore(text, parse, round).value, threshold);
    DetailSkips(structural, [report]);
  }

  /** Without a judge detail the judge-aware policy is the uniform policy. */
  lemma NoJudgeMeansUniform(reports: seq<Report>, round: int -> real)
    requires forall r :: r in reports ==> !Scoring.IsJudgeReport(r)
    ensures Scoring.JudgeAwareScore(reports, round) == Some(Scoring.UniformScore(reports))
  {
    assert reports + [] == reports;
    DetailSkips(reports, []);
  }

  /** A higher raw score never yields a lower parsed score. */
  lemma ParsedScoreIsMonotone(a: string, b: string, parse: string -> Option<Value>, round: int -> real)
    requires Reply(a, parse).Ok? && Reply(b, parse).Ok?
    requires var x := NumberIn(Reply(a, parse).value, "score", round);
             var y := NumberIn(Reply(b, parse).value, "score", round);
             x.Ok? && y.Ok? && x.value.Finite? && y.value.Finite? && x.value.value <= y.value.value
    ensures ParseScore(a, parse, round).Ok? && ParseScore(b, parse, round).Ok?
    ensures ParseScore(a, parse, round).value.Finite? && ParseScore(b, parse, round).value.Finite?
    ensures ParseScore(a, parse, round).value.value <= ParseScore(b, parse, round).value.value
  {
    var x := NumberIn(Reply(a, parse).value, "score", round).value.value;
    var y := NumberIn(Reply(b, parse).value, "score", round).value.value;
    assert x / 100.0 <= y / 100.0;
  }

  /** A reply that writes minus zero is read as minus zero. */
  lemma MinusZeroIsRead(text: string, parse: string -> Option<Value>, round: int -> real)
    requires Reply(text, parse) == Ok(Obj([Field("score", Num(Float(Finite(0.0, true))))]))
    ensures ParseScore(text, parse, round) == Ok(Finite(0.0, true))
  {
    var doc := Reply(text, parse).value;
    assert doc.fields[0].key == "score";
    assert NumberIn(doc, "score", round) == Ok(Finite(0.0, true));
  }

  /** Within 0 to 100 the parsed score is the raw one as a percentage; outside, the nearer end of [0, 1]. */
  lemma ParsedScoreIsThePercentage(text: string, parse: string -> Option<Value>, round: int -> real)
    requires Reply(text, parse).Ok?
    requires var x := NumberIn(Reply(text, parse).value, "score", round); x.Ok? && x.value.Finite?
    ensures ParseScore(text, parse, round).Ok? && ParseScore(text, parse, round).value.Finite?
    ensures var raw := NumberIn(Reply(text, parse).value, "score", round).value.value;
            var score := ParseScore(text, parse, round).value;
            && (0.0 <= raw <= 100.0 ==> score.value * 100.0 == raw)
            && (raw < 0.0 ==> score == Finite(0.0, false))
            && (raw > 100.0 ==> score == Finite(1.0, false))
  {
    var raw := NumberIn(Reply(text, parse).value, "score", round).value.value;
    Scoring.ScaledOrder(raw / 100.0, 0.0, 100.0);
    Scoring.ScaledOrder(raw / 100.0, 1.0, 100.0);
  }

  /** `n` is `x` rounded half up and cut off at 0 and 100. */
  predicate RoundsTo(x: real, n: nat)
  {
    && n <= 100 && (x < 0.0 ==> n == 0) && (x > 100.0 ==> n == 100)
    && (0.0 <= x <= 100.0 ==> n as real - 0.5 <= x < n as real + 0.5)
  }

  /** A support verdict's confidence is the number the judge wrote, rounded half up, within 0 to 100. */
  lemma ConfidenceIsRoundedPercentage(f: F64)
    ensures Percent(f) <= 100
    ensures f.Finite? ==> RoundsTo(f.value, Percent(f))
  {
    var c := Scoring.Clamp(f, 0.0, 100.0);
    if c.Finite? && c.value >= 0.0 { assert c.value + 0.5 < 101.0; }
  }

  // ---------- What is read, on the text and the document ----------

  /** `t` runs from the first opening brace of the text through its last closing one. */
  ghost predicate IsBraced(text: string, t: string)
  {
    exists i, j :: Outermost(text, i, j) && t == text[i..j + 1]
  }

  predicate Outermost(text: string, i: int, j: int)
  {
    0 <= i < j < |text| && text[i] == '{' && text[j] == '}' && '{' !in text[..i] && '}' !in text[j + 1..]
  }

  lemma BracedMeaning(text: string, t: string)
    ensures Braced(text) == Some(t) <==> IsBraced(text, t)
  {
    if Braced(text) == Some(t) { BracedIsOutermost(text); }
    if IsBraced(text, t) {
      var i, j :| Outermost(text, i, j) && t == text[i..j + 1];
      BracesAreAt(text, i, j);
    }
  }

  lemma BracedIsOutermost(text: string)
    requires Braced(text).Some?
    ensures Outermost(text, IndexOf(text, '{'), AfterLast(text, '}') - 1)
    ensures Braced(text).value == text[IndexOf(text, '{')..AfterLast(text, '}') - 1 + 1]
  {
  }

  lemma BracesAreAt(text: string, i: nat, j: nat)
    requires Outermost(text, i, j)
    ensures IndexOf(text, '{') == i && AfterLast(text, '}') == j + 1
  {
    assert forall k :: 0 <= k < i ==> text[k] == text[..i][k];
    assert forall k :: j + 1 <= k < |text| ==> text[k] == text[j + 1..][k - j - 1];
  }

  /** The document is what parses between those braces, and there is none otherwise. */
  lemma ReplyMeaning(text: string, parse: string -> Option<Value>, v: Value)
    ensures Reply(text, parse) == Ok(v) <==> exists t :: IsBraced(text, t) && parse(t) == Some(v)
  {
    var braced := Braced(text);
    if braced.Some? { BracedMeaning(text, braced.value); }
    if t :| IsBraced(text, t) && parse(t) == Some(v) { BracedMeaning(text, t); }
  }

  /** Why a reply is refused: no braces, no document between them, or a field that is missing or of another type. */
  lemma RefusalSaysWhy(text: string, parse: string -> Option<Value>, round: int -> real)
    ensures Reply(text, parse) == Err(NotAnObject) <==> !exists t :: IsBraced(text, t)
    ensures Reply(text, parse) == Err(Malformed) <==> exists t :: IsBraced(text, t) && parse(t).None?
    ensures Reply(text, parse) != Err(MissingField)
    ensures ParseScore(text, parse, round).Err? ==>
              Err(ParseScore(text, parse, round).error) ==
              if Reply(text, parse).Err? then Reply(text, parse) else Err(MissingField)
    ensures ParseVerdict(text, parse, round).Err? ==>
              Err(ParseVerdict(text, parse, round).error) ==
              if Reply(text, parse).Err? then Reply(text, parse) else Err(MissingField)
  {
    var braced := Braced(text);
    if braced.Some? { BracedMeaning(text, braced.value); }
    if t :| IsBraced(text, t) { BracedMeaning(text, t); }
    if t :| IsBraced(text, t) && parse(t).None? { BracedMeaning(text, t); }
  }

  /** The object has a number under `key`, standing for `x`. */
  ghost predicate HasNumber(fields: seq<Field>, key: string, x: real, round: int -> real)
  {
    exists n :: Maps(fields, key, Num(n)) && Denotes(n, x, round)
  }

  lemma NumberInMeaning(v: Value, key: string, round: int -> real)
    requires FiniteNumbers(v)
    ensures NumberIn(v, key, round).Ok? <==> v.Obj? && exists n :: Maps(v.fields, key, Num(n))
    ensures NumberIn(v, key, round).Ok? ==>
              var f := NumberIn(v, key, round).value; f.Finite? && HasNumber(v.fields, key, f.value, round)
  {
    if v.Obj? {
      forall u ensures Get(v.fields, key) == Some(u) <==> Maps(v.fields, key, u) { GetMeaning(v.fields, key, u); }
      if NumberIn(v, key, round).Ok? {
        var m := Get(v.fields, key).value;
        var i :| 0 <= i < |v.fields| && v.fields[i] == Field(key, m);
        assert FiniteNumbers(m);
        assert Maps(v.fields, key, Num(m.n));
      }
    }
  }

  /** The score, on the document: the number under `score` as a percentage, cut off at 0 and 1. */
  lemma ScoreMeaning(text: string, parse: string -> Option<Value>, round: int -> real)
    requires Reply(text, parse).Ok? && FiniteNumbers(Reply(text, parse).value)
    ensures var v := Reply(text, parse).value;
            && (ParseScore(text, parse, round).Ok? <==> v.Obj? && exists n :: Maps(v.fields, "score", Num(n)))
            && (ParseScore(text, parse, round).Ok? ==>
                  exists raw :: HasNumber(v.fields, "score", raw, round) &&
                                IsPercentage(raw, ParseScore(text, parse, round).value))
  {
    var v := Reply(text, parse).value;
    NumberInMeaning(v, "score", round);
    if ParseScore(text, parse, round).Ok? { ParsedScoreIsThePercentage(text, parse, round); }
  }

  predicate IsPercentage(raw: real, score: F64)
  {
    && score.Finite? && (0.0 <= raw <= 100.0 ==> score.value * 100.0 == raw)
    && (raw < 0.0 ==> score == Finite(0.0, false)) && (raw > 100.0 ==> score == Finite(1.0, false))
  }

  /** The verdict, on the document: the flag, the rounded number, and the reason if it is a string. */
  ghost predicate ReadsAs(fields: seq<Field>, round: int -> real, verdict: Support.Verdict)
  {
    && Maps(fields, "supported", Bool(verdict.supported))
    && (exists x :: HasNumber(fields, "confidence", x, round) && RoundsTo(x, verdict.confidence))
    && if exists s :: Maps(fields, "reason", Str(s)) then Maps(fields, "reason", Str(verdict.rationale))
       else verdict.rationale == ""
  }

  /** A verdict is read exactly from a boolean `supported` and a numeric `confidence`, and it says what they say. */
  lemma VerdictMeaning(text: string, parse: string -> Option<Value>, round: int -> real)
    requires Reply(text, parse).Ok? && FiniteNumbers(Reply(text, parse).value)
    ensures var v := Reply(text, parse).value;
            && (ParseVerdict(text, parse, round).Ok? <==>
                && v.Obj? && (exists b :: Maps(v.fields, "supported", Bool(b)))
                && exists n :: Maps(v.fields, "confidence", Num(n)))
            && (ParseVerdict(text, parse, round).Ok? ==>
                  ReadsAs(v.fields, round, ParseVerdict(text, parse, round).value))
  {
    var v := Reply(text, parse).value;
    NumberInMeaning(v, "confidence", round);
    if v.Obj? {
      BooleanMeaning(v.fields, "supported");
      if ParseVerdict(text, parse, round).Ok? {
        var f := NumberIn(v, "confidence", round).value;
        ConfidenceIsRoundedPercentage(f);
        assert HasNumber(v.fields, "confidence", f.value, round);
        ReasonMeaning(v.fields);
      }
    }
  }

  lemma BooleanMeaning(fields: seq<Field>, key: string)
    ensures forall b :: Get(fields, key) == Some(Bool(b)) <==> Maps(fields, key, Bool(b))
  {
    forall b ensures Get(fields, key) == Some(Bool(b)) <==> Maps(fields, key, Bool(b)) {
      GetMeaning(fields, key, Bool(b));
    }
  }

  lemma ReasonMeaning(fields: seq<Field>)
    ensures forall s :: Get(fields, "reason") == Some(Str(s)) <==> Maps(fields, "reason", Str(s))
  {
    forall s ensures Get(fields, "reason") == Some(Str(s)) <==> Maps(fields, "reason", Str(s)) {
      GetMeaning(fields, "reason", Str(s));
    }
  }
}
