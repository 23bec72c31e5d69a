/** The metric on the outcomes the wired chain produces: eight gate reports and the judge's. */
module JudgedChain {
  import opened Prelude
  import opened Json
  import opened Contracts
  import opened Reports
  import opened Counting
  import opened Scoring
  import opened Ranking
  import OutputGates
  import EventShape
  import Fences
  import Support
  import Text
  import Utf8

  /** What one deliberation holds fixed. */
  datatype Setting = Setting(contract: Option<OutputContract>, judge: Option<Support.Judge>, engines: Engines)

  /** A proposal that went through the wired gates and was given a score by the judge. */
  ghost predicate Wired(o: Outcome, content: string, score: F64, s: Setting)
  {
    var chain := OutputGates.RunChain(content, s.contract, s.judge, s.engines);
    && chain.Ok? && o.reports == JudgedReports(chain.value, score)
    && score.Finite? && ValidF64(score) && 0.0 <= score.value <= 1.0
    && o.score == Score(score.value, score.negativeZero)
  }

  /** Its structural reports are the eight of the gates, and its score is the policy's. */
  lemma WiredHasReports(o: Outcome, content: string, score: F64, s: Setting, round: int -> real)
    requires Wired(o, content, score, s)
    ensures NonJudge(o.reports) == OutputGates.RunChain(content, s.contract, s.judge, s.engines).value
    ensures NonJudge(o.reports) != [] && HasJudgeVerdict(o) && Scored(o, round)
  {
    OutputGates.NoGateWritesJudgeScore(content, s.contract, s.judge, s.engines);
    JudgedReportsScore(OutputGates.RunChain(content, s.contract, s.judge, s.engines).value, score, round);
  }

  /** Every listed proposal is wired. */
  ghost predicate AllWired(os: seq<Outcome>, s: Setting)
  {
    forall o :: o in os ==> exists content: string, score: F64 :: Wired(o, content, score, s)
  }

  /**
   On wired proposals, without a tie: if one passes all eight gates the metric always says whether the
   leader wins without the judge. If none does, it says so exactly when the smallest id attains the
   best pass fraction, or the leader is neither that proposal nor the judge-free winner.
   */
  lemma WiredMetricIsRightIff(os: seq<Outcome>, w: Outcome, s: Setting)
    requires DistinctIds(os) && Discriminate(os).Some? && Discriminate(os) != Some(Tie) && Names(os, w)
    requires AllWired(os, s)
    ensures Discriminate(os) == Some(Intended(os)) <==>
            || (exists o :: o in os && StructurallyValid(o))
            || (forall o :: o in os ==> WithoutJudge(o).score.value <= WithoutJudge(w).score.value)
            || (os[0].id != w.id && JudgeFreeWinner(os) != Some(os[0].id))
  {
    forall o | o in os ensures NonJudge(o.reports) != [] {
      var content: string, score: F64 :| Wired(o, content, score, s);
      WiredHasReports(o, content, score, s, n => 0.0);
    }
    MetricIsRightIff(os, w);
    WinnerIffUnbeaten(os, w);
    if exists o :: o in os && StructurallyValid(o) {
      BaselineIsTopIff(os, w);
    } else {
      FallbackIsTopIff(os, w);
    }
  }

  /** A contract that asks for a JSON object and nothing else. */
  predicate Bare(c: OutputContract) { c.jsonSchema == [] && c.grounding.None? }

  /** Not JSON at all. */
  predicate NotJson(content: string, engines: Engines)
  {
    !Text.Blank(content) && engines.parse(Fences.StripMarkdownFences(content)).None?
  }

  /** JSON with a root that is not an object, short enough. */
  predicate EmptyArray(content: string, engines: Engines)
  {
    && !Text.Blank(content) && engines.parse(Fences.StripMarkdownFences(content)) == Some(Arr([]))
    && |Utf8.Encode(Text.Trim(content))| <= EventShape.DEFAULT_LIMITS.maxTotalSizeBytes
  }

  lemma ShapeOfEmptyArray(limits: EventShape.Limits)
    ensures OutputGates.WithinBudget(Arr([]), limits)
  {
    OutputGates.WalkMeans(limits, Arr([]));
  }

  /** Under a bare contract, content that is no object passes four gates, and the shape gate if it does. */
  lemma BareCount(content: string, c: OutputContract, engines: Engines)
    requires Bare(c) && OutputGates.ParseObject(content, engines).None? && !Text.Blank(content)
    ensures OutputGates.RunChain(content, Some(c), None, engines).Ok?
    ensures Count(OutputGates.RunChain(content, Some(c), None, engines).value, Passed) ==
            4 + OutputGates.Flag(OutputGates.ShapeGate(content, Some(c), EventShape.DEFAULT_LIMITS, engines))
  {
    OutputGates.NonEmptyMeans(content);
    OutputGates.CountOfChain(content, Some(c), None, engines);
  }

  /** It is not valid, and its judge-free score is 4/8 or 5/8. */
  lemma BareScore(o: Outcome, content: string, score: F64, c: OutputContract, engines: Engines, round: int -> real)
    requires Bare(c) && OutputGates.ParseObject(content, engines).None? && !Text.Blank(content)
    requires Wired(o, content, score, Setting(Some(c), None, engines))
    ensures !StructurallyValid(o) && HasJudgeVerdict(o) && Scored(o, round)
    ensures var shape := OutputGates.ShapeGate(content, Some(c), EventShape.DEFAULT_LIMITS, engines);
            WithoutJudge(o).score.value == if shape.passed then 5.0 / 8.0 else 0.5
  {
    var s := Setting(Some(c), None, engines);
    WiredHasReports(o, content, score, s, round);
    BareCount(content, c, engines);
    FullWithoutJudge(o);
    var passed := Count(NonJudge(o.reports), Passed);
    OutputGates.ScoreOfCount(NonJudge(o.reports), passed);
  }

  /**
   For every contract that asks for an object and nothing else: text that is not JSON, which the judge
   scores higher, against a short empty array. The metric reports that the judge agreed, while without
   the judge the array would have won.
   */
  lemma FallbackExample(a: Outcome, x: string, p: F64, b: Outcome, y: string, q: F64, c: OutputContract,
                        engines: Engines, round: int -> real)
    requires Bare(c) && NotJson(x, engines) && EmptyArray(y, engines)
    requires Wired(a, x, p, Setting(Some(c), None, engines)) && Wired(b, y, q, Setting(Some(c), None, engines))
    requires Text.Less(a.id, b.id) && p.value > q.value
    ensures Scored(a, round) && Scored(b, round) && Rank([a, b]) == [a, b]
    ensures Discriminate([a, b]) == Some(Agreed)
    ensures JudgeFreeWinner([a, b]) == Some(b.id) && Intended([a, b]) == Reranked
  {
    BareScore(a, x, p, c, engines, round);
    BareScore(b, y, q, c, engines, round);
    OutputGates.ShapeMeans(x, Some(c), EventShape.DEFAULT_LIMITS, engines);
    OutputGates.ShapeMeans(y, Some(c), EventShape.DEFAULT_LIMITS, engines);
    ShapeOfEmptyArray(EventShape.DEFAULT_LIMITS);
    FallbackMisleads(a, b);
  }
}
