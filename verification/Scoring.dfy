/** Turning validator reports into scores, and measuring whether a judge changed the winner. */
module Scoring {
  import opened Prelude
  import opened Json
  import opened Reports
  import opened Counting
  import Text

  /** A score in [0, 1]. Equality compares the bits, so the two zeros differ; ordering compares the values. */
  datatype Score = Score(value: real, negativeZero: bool)

  const MIN := Score(0.0, false)

  function NewScore(f: F64): Option<Score>
  {
    if f.Finite? && 0.0 <= f.value <= 1.0 then Some(Score(f.value, f.negativeZero)) else None
  }

  /** `f64::clamp`: values outside the range become its bounds, everything else (also -0.0 and NaN) is kept. */
  function Clamp(f: F64, lo: real, hi: real): F64
  {
    match f
    case NaN => NaN
    case Infinite(negative) => Finite(if negative then lo else hi, false)
    case Finite(v, _) => if v < lo then Finite(lo, false) else if v > hi then Finite(hi, false) else f
  }

  predicate Passed(r: Report) { r.passed }

  predicate IsJudgeReport(r: Report) { r.detail.JudgeScore? }

  /** The fraction of reports that passed; no report means no confidence. */
  function UniformScore(reports: seq<Report>): Score
  {
    if reports == [] then MIN else Score(Count(reports, Passed) as real / |reports| as real, false)
  }

  /** The pass fraction is 1 exactly for a non-empty list of passing reports, and never more. */
  lemma FullScore(reports: seq<Report>)
    ensures 0.0 <= UniformScore(reports).value <= 1.0
    ensures UniformScore(reports).value == 1.0 <==> reports != [] && forall r :: r in reports ==> r.passed
  {
    CountPositive(reports, Passed);
    if reports != [] {
      Fraction(Count(reports, Passed) as real, |reports| as real);
    }
  }

  /** The score counts the passing reports; without a report it is a plain zero. */
  lemma ScoreIsTheFraction(reports: seq<Report>)
    ensures UniformScore(reports).value * |reports| as real == |Positions(reports, (r: Report) => r.passed)| as real
    ensures !UniformScore(reports).negativeZero && (reports == [] ==> UniformScore(reports).value == 0.0)
  {
    CountMeaning(reports, Passed);
    assert Positions(reports, (r: Report) => r.passed) == Positions(reports, Passed);
    if reports != [] { Quotient(Count(reports, Passed) as real, |reports| as real); }
  }

  lemma Quotient(c: real, n: real)
    requires n > 0.0
    ensures c / n * n == c
  {
  }

  lemma Fraction(c: real, n: real)
    requires 0.0 <= c <= n && n > 0.0
    ensures 0.0 <= c / n <= 1.0 && (c / n == 1.0 <==> c == n)
  {
    var q := c / n;
    assert q * n == c;
    FractionOf(q, c, n);
  }

  lemma FractionOf(q: real, c: real, n: real)
    requires 0.0 <= c <= n && n > 0.0 && q * n == c
    ensures 0.0 <= q <= 1.0 && (q == 1.0 <==> c == n)
  {
    if q < 0.0 {
      ScaledOrder(q, 0.0, n);
    } else if q == 1.0 {
      assert q * n == n;
    } else {
      ScaledOrder(q, 1.0, n);
    }
  }

  lemma ScaledOrder(x: real, y: real, n: real)
    requires n > 0.0
    ensures x < y ==> x * n < y * n
    ensures y < x ==> y * n < x * n
  {
  }

  /** The first judge detail found, in report order. */
  function FirstJudgeDetail(reports: seq<Report>): Option<Value>
  {
    if reports == [] then None
    else if IsJudgeReport(reports[0]) then Some(reports[0].detail.score)
    else FirstJudgeDetail(reports[1..])
  }

  /** A numeric verdict is the score; otherwise the pass fraction is. */
  function JudgeAwareScore(reports: seq<Report>, round: int -> real): Option<Score>
  {
    var detail := FirstJudgeDetail(reports);
    if detail.Some? && detail.value.Num? then NewScore(Clamp(AsF64(detail.value.n, round), 0.0, 1.0))
    else Some(UniformScore(reports))
  }

  datatype Outcome = Outcome(id: string, score: Score, reports: seq<Report>)

  datatype Discrimination = Tie | Agreed | Reranked

  predicate HasJudgeVerdict(o: Outcome) { exists r :: r in o.reports && IsJudgeReport(r) }

  predicate StructurallyValid(o: Outcome) { forall r :: r in o.reports && !IsJudgeReport(r) ==> r.passed }

  function IdsOf(os: seq<Outcome>): (r: seq<string>)
    ensures |r| == |os| && forall i :: 0 <= i < |r| ==> r[i] == os[i].id
  {
    seq(|os|, i requires 0 <= i < |os| => os[i].id)
  }

  function ValidOnes(os: seq<Outcome>): seq<Outcome>
  {
    if os == [] then [] else (if StructurallyValid(os[0]) then [os[0]] else []) + ValidOnes(os[1..])
  }

  /** The iterator minimum. */
  function MinId(ids: seq<string>): Option<string>
  {
    if ids == [] then None
    else
      var rest := MinId(ids[1..]);
      if rest.Some? && Text.Less(rest.value, ids[0]) then rest else Some(ids[0])
  }

  /** The smallest id among the structurally valid proposals, or the smallest id overall when none is. */
  function StructuralBaselineWinner(ranked: seq<Outcome>): Option<string>
  {
    var valid := MinId(IdsOf(ValidOnes(ranked)));
    if valid.Some? then valid else MinId(IdsOf(ranked))
  }

  function ScoredLike(s: Score): Outcome -> bool { (o: Outcome) => o.score == s }

  /** Whether the judge's verdict changed the winner of a score-ranked list. */
  function Discriminate(ranked: seq<Outcome>): Option<Discrimination>
  {
    if |ranked| < 2 || !(exists o :: o in ranked && HasJudgeVerdict(o)) then None
    else if Count(ranked, ScoredLike(ranked[0].score)) > 1 then Some(Tie)
    else
      var baseline := StructuralBaselineWinner(ranked);
      if baseline.None? then None
      else if ranked[0].id == baseline.value then Some(Agreed) else Some(Reranked)
  }

  // ---------- Minimum ids ----------

  /** `m` is the least of `ids`. */
  predicate Least(m: string, ids: seq<string>)
  {
    m in ids && forall x :: x in ids ==> x == m || Text.Less(m, x)
  }

  lemma {:induction false} MinIdIsLeast(ids: seq<string>)
    ensures MinId(ids).None? <==> ids == []
    ensures ids != [] ==> Least(MinId(ids).value, ids)
  {
    if ids != [] {
      MinIdIsLeast(ids[1..]);
      assert ids == [ids[0]] + ids[1..];
      if ids[1..] != [] {
        var m := MinId(ids[1..]).value;
        Text.LessTrichotomy(m, ids[0]);
        forall x | x in ids ensures x == MinId(ids).value || Text.Less(MinId(ids).value, x) {
          if x in ids[1..] && !Text.Less(m, ids[0]) && x != m && m != ids[0] { Text.LessTransitive(ids[0], m, x); }
        }
      }
    }
  }

  lemma {:induction false} ValidOnesMeaning(os: seq<Outcome>, o: Outcome)
    ensures o in ValidOnes(os) <==> o in os && StructurallyValid(o)
  {
    if os != [] {
      ValidOnesMeaning(os[1..], o);
      assert os == [os[0]] + os[1..];
    }
  }

  /** The baseline winner, said declaratively and without reference to list order. */
  ghost predicate IsBaseline(os: seq<Outcome>, id: string)
  {
    if exists o :: o in os && StructurallyValid(o)
    then
      && (exists o :: o in os && StructurallyValid(o) && o.id == id)
      && forall o :: o in os && StructurallyValid(o) ==> o.id == id || Text.Less(id, o.id)
    else
      && (exists o :: o in os && o.id == id)
      && forall o :: o in os ==> o.id == id || Text.Less(id, o.id)
  }

  lemma LeastOfIds(os: seq<Outcome>, id: string)
    ensures Least(id, IdsOf(os)) <==>
            (exists o :: o in os && o.id == id) && forall o :: o in os ==> o.id == id || Text.Less(id, o.id)
  {
    var ids := IdsOf(os);
    if Least(id, ids) {
      var i :| 0 <= i < |ids| && ids[i] == id;
      assert os[i] in os;
      forall o | o in os ensures o.id == id || Text.Less(id, o.id) {
        var j :| 0 <= j < |os| && os[j] == o;
        assert ids[j] in ids;
      }
    }
    if (exists o :: o in os && o.id == id) && forall o :: o in os ==> o.id == id || Text.Less(id, o.id) {
      var o :| o in os && o.id == id;
      var i :| 0 <= i < |os| && os[i] == o;
      assert ids[i] == id;
      forall x | x in ids ensures x == id || Text.Less(id, x) {
        var j :| 0 <= j < |ids| && ids[j] == x;
        assert os[j] in os;
      }
    }
  }

  lemma BaselineExists(os: seq<Outcome>)
    requires os != []
    ensures StructuralBaselineWinner(os).Some? && IsBaseline(os, StructuralBaselineWinner(os).value)
  {
    var valid := ValidOnes(os);
    forall o ensures o in valid <==> o in os && StructurallyValid(o) { ValidOnesMeaning(os, o); }
    MinIdIsLeast(IdsOf(valid));
    MinIdIsLeast(IdsOf(os));
    var id := StructuralBaselineWinner(os).value;
    if valid != [] {
      assert valid[0] in valid;
      LeastOfIds(valid, id);
    } else {
      LeastOfIds(os, id);
    }
  }

  lemma BaselineIsUnique(os: seq<Outcome>, a: string, b: string)
    requires IsBaseline(os, a) && IsBaseline(os, b)
    ensures a == b
  {
    Text.LessTrichotomy(a, b);
  }

  /** The baseline depends only on which outcomes there are. */
  lemma BaselineIgnoresOrder(a: seq<Outcome>, b: seq<Outcome>)
    requires a != [] && multiset(a) == multiset(b)
    ensures StructuralBaselineWinner(a) == StructuralBaselineWinner(b)
  {
    SameElements(a, b);
    BaselineExists(a);
    BaselineExists(b);
    BaselineIsUnique(a, StructuralBaselineWinner(a).value, StructuralBaselineWinner(b).value);
  }

  lemma SameElements<T>(a: seq<T>, b: seq<T>)
    requires multiset(a) == multiset(b)
    ensures |a| == |b| && forall x :: x in a <==> x in b
  {
    assert forall x :: x in a <==> x in multiset(a);
    assert forall x :: x in b <==> x in multiset(b);
    assert |multiset(a)| == |a| && |multiset(b)| == |b|;
  }

  // ---------- The discrimination metric ----------

  predicate Descending(ranked: seq<Outcome>)
  {
    forall i, j :: 0 <= i < j < |ranked| ==> ranked[i].score.value >= ranked[j].score.value
  }

  /** The metric is reported exactly when there is something to discriminate and a judge spoke. */
  lemma DiscriminatesIffJudged(ranked: seq<Outcome>)
    ensures Discriminate(ranked).Some? <==> |ranked| >= 2 && exists o :: o in ranked && HasJudgeVerdict(o)
  {
    if |ranked| >= 2 { BaselineExists(ranked); }
  }

  /** Some other proposal has the same score value as the first of a descending list. */
  predicate TopShared(ranked: seq<Outcome>)
    requires ranked != []
  {
    exists j :: 0 < j < |ranked| && ranked[j].score.value == ranked[0].score.value
  }

  /** The first entry is a zero whose sign no other entry shares, while another zero has the other sign. */
  predicate LoneZeroOnTop(ranked: seq<Outcome>)
    requires ranked != []
  {
    ranked[0].score.value == 0.0 && |ranked| > 1 &&
    forall j :: 0 < j < |ranked| ==> ranked[j].score.negativeZero != ranked[0].score.negativeZero
  }

  /** A score the constructor can have made: within [0, 1], and signed only at zero. */
  predicate ValidScore(s: Score) { 0.0 <= s.value <= 1.0 && (s.negativeZero ==> s.value == 0.0) }

  predicate ValidScores(ranked: seq<Outcome>) { forall o :: o in ranked ==> ValidScore(o.score) }

  /** The judge details of the reports hold doubles. */
  predicate ValidDetails(reports: seq<Report>)
  {
    forall r :: r in reports && IsJudgeReport(r) ==> FiniteNumbers(r.detail.score)
  }

  /** An outcome as the judge-aware policy scores it. */
  predicate Scored(o: Outcome, round: int -> real)
  {
    ValidDetails(o.reports) && JudgeAwareScore(o.reports, round) == Some(o.score)
  }

  lemma {:induction false} FirstDetailIsListed(reports: seq<Report>)
    ensures FirstJudgeDetail(reports).Some? ==>
              exists r :: r in reports && IsJudgeReport(r) && r.detail.score == FirstJudgeDetail(reports).value
  {
    if reports != [] {
      assert reports[0] in reports && forall r :: r in reports[1..] ==> r in reports;
      FirstDetailIsListed(reports[1..]);
    }
  }

  /** The policy never fails on such reports, and what it gives is a score. */
  lemma PolicyGivesValidScores(reports: seq<Report>, round: int -> real)
    requires ValidDetails(reports)
    ensures JudgeAwareScore(reports, round).Some? && ValidScore(JudgeAwareScore(reports, round).value)
  {
    FullScore(reports);
    FirstDetailIsListed(reports);
  }

  lemma ScoredOutcomesAreValid(os: seq<Outcome>, round: int -> real)
    requires forall o :: o in os ==> Scored(o, round)
    ensures ValidScores(os)
  {
    forall o | o in os ensures ValidScore(o.score) { PolicyGivesValidScores(o.reports, round); }
  }

  /** Tie is reported exactly when the maximum score is shared, except when the top is a lone signed zero. */
  lemma TieIffTopShared(ranked: seq<Outcome>)
    requires Discriminate(ranked).Some? && Descending(ranked) && ValidScores(ranked)
    ensures (Discriminate(ranked) == Some(Tie) <==> TopShared(ranked)) <==> !LoneZeroOnTop(ranked)
  {
    var top := ranked[0];
    assert top in ranked;
    CountTwo(ranked, 0, ScoredLike(top.score));
    forall j | 0 < j < |ranked| ensures ranked[j].score.value <= top.score.value { }
    if LoneZeroOnTop(ranked) {
      assert ranked[1] in ranked;
      assert TopShared(ranked);
    } else if j :| 0 < j < |ranked| && ranked[j].score.value == top.score.value {
      assert ranked[j] in ranked;
      if top.score.value == 0.0 {
        var k :| 0 < k < |ranked| && ranked[k].score.negativeZero == top.score.negativeZero;
        assert ranked[k] in ranked;
        assert ranked[k].score == top.score;
      } else {
        assert ranked[j].score == top.score;
      }
    }
  }

  /** Both zeros occur at the top and one of them only once: then, and only then, list order matters. */
  predicate OrderSensitive(ranked: seq<Outcome>)
  {
    var plus, minus := Count(ranked, ScoredLike(Score(0.0, false))), Count(ranked, ScoredLike(Score(0.0, true)));
    plus > 0 && minus > 0 && (plus == 1 || minus == 1) && forall o :: o in ranked ==> o.score.value == 0.0
  }

  /**
   The metric depends only on the multiset of outcomes: any two descending orderings agree,
   unless the list is order-sensitive in its zeros.
   */
  lemma DiscriminateIgnoresOrder(a: seq<Outcome>, b: seq<Outcome>)
    requires multiset(a) == multiset(b) && Descending(a) && Descending(b) && ValidScores(a)
    requires !OrderSensitive(a)
    ensures Discriminate(a) == Discriminate(b)
  {
    SameElements(a, b);
    if Discriminate(a).Some? {
      BaselineIgnoresOrder(a, b);
      SameTopCount(a, b);
    }
  }

  /** Both orderings show a tie, or the same outcome leads both. */
  lemma SameTopCount(a: seq<Outcome>, b: seq<Outcome>)
    requires multiset(a) == multiset(b) && a != [] && Descending(a) && Descending(b) && ValidScores(a)
    requires !OrderSensitive(a)
    ensures b != []
    ensures Count(a, ScoredLike(a[0].score)) > 1 <==> Count(b, ScoredLike(b[0].score)) > 1
    ensures Count(a, ScoredLike(a[0].score)) > 1 || a[0] == b[0]
  {
    SameElements(a, b);
    if a[0].score != b[0].score {
      ZerosCount(a, b);
    } else {
      CountPermutation(a, b, ScoredLike(a[0].score));
      if Count(a, ScoredLike(a[0].score)) <= 1 { LoneTop(a, b); }
    }
  }

  /** The first entries of two descending orderings have the same score value. */
  lemma TopsMatch(a: seq<Outcome>, b: seq<Outcome>)
    requires multiset(a) == multiset(b) && a != [] && Descending(a) && Descending(b)
    ensures a[0].score.value == b[0].score.value
    ensures a[0] in b && b[0] in a
  {
    SameElements(a, b);
    assert a[0] in a && b[0] in b;
    var i :| 0 <= i < |b| && b[i] == a[0];
    var j :| 0 <= j < |a| && a[j] == b[0];
  }

  /** Tops that differ are zeros of opposite sign, both of them repeated when order does not matter. */
  lemma ZerosCount(a: seq<Outcome>, b: seq<Outcome>)
    requires multiset(a) == multiset(b) && a != [] && Descending(a) && Descending(b) && ValidScores(a)
    requires !OrderSensitive(a) && a[0].score != b[0].score
    ensures Count(a, ScoredLike(a[0].score)) > 1 && Count(b, ScoredLike(b[0].score)) > 1
  {
    TopsMatch(a, b);
    assert a[0] in a;
    CountPermutation(a, b, ScoredLike(b[0].score));
    CountPositive(a, ScoredLike(a[0].score));
    CountPositive(a, ScoredLike(b[0].score));
    forall o | o in a ensures o.score.value == 0.0 {
      var j :| 0 <= j < |a| && a[j] == o;
    }
  }

  /** A top score held by one outcome only is held by the same outcome in every ordering. */
  lemma LoneTop(a: seq<Outcome>, b: seq<Outcome>)
    requires a != [] && multiset(a) == multiset(b)
    requires b[0].score == a[0].score && Count(a, ScoredLike(a[0].score)) <= 1
    ensures a[0] == b[0]
  {
    SameElements(a, b);
    assert b[0] in a;
    var j :| 0 <= j < |a| && a[j] == b[0];
    CountTwo(a, 0, ScoredLike(a[0].score));
  }

  /** Moving the k-th outcome to the front. */
  function ToFront(a: seq<Outcome>, k: nat): (b: seq<Outcome>)
    requires k < |a|
    ensures multiset(a) == multiset(b) && |b| == |a| && b[0] == a[k]
  {
    var b := [a[k]] + Drop(a, k);
    assert multiset(b) == multiset{a[k]} + multiset(Drop(a, k));
    b
  }

  lemma AllZeroDescends(a: seq<Outcome>)
    requires forall o :: o in a ==> o.score.value == 0.0
    ensures Descending(a)
  {
    assert forall i :: 0 <= i < |a| ==> a[i] in a;
  }

  /** With exactly one zero of each sign, the two orderings put different proposals first. */
  lemma TwoZerosDisagree(a: seq<Outcome>, b: seq<Outcome>, k: nat)
    requires |a| == 2 && 0 < k < |a| && multiset(a) == multiset(b) && |b| == 2 && b[0] == a[k]
    requires a[0].id != a[1].id && Discriminate(a).Some? && Discriminate(b).Some?
    requires Count(a, ScoredLike(a[0].score)) == 1 && Count(b, ScoredLike(b[0].score)) == 1
    ensures Discriminate(a) != Discriminate(b)
  {
    BaselineIgnoresOrder(a, b);
    BaselineIsListed(a);
  }

  /** The excluded lists really are order-sensitive: another descending ordering gives another answer. */
  lemma OrderSensitiveMatters(a: seq<Outcome>) returns (b: seq<Outcome>)
    requires Discriminate(a).Some? && ValidScores(a) && OrderSensitive(a)
    requires forall i, j :: 0 <= i < j < |a| ==> a[i].id != a[j].id
    ensures multiset(a) == multiset(b) && Descending(a) && Descending(b)
    ensures Discriminate(a) != Discriminate(b)
  {
    var k := OtherZero(a);
    b := ToFront(a, k);
    SameElements(a, b);
    AllZeroDescends(a);
    AllZeroDescends(b);
    DiscriminatesIffJudged(a);
    DiscriminatesIffJudged(b);
    CountPermutation(a, b, ScoredLike(b[0].score));
    FrontsDisagree(a, b, k);
  }

  /** Another score-descending order of the same outcomes, with another answer. */
  ghost predicate Disagrees(a: seq<Outcome>, b: seq<Outcome>)
  {
    multiset(a) == multiset(b) && Descending(b) && Discriminate(b) != Discriminate(a)
  }

  /** Exactly when the metric depends on the order in which equal scores are listed. */
  lemma OrderMattersIff(a: seq<Outcome>)
    requires Discriminate(a).Some? && Descending(a) && ValidScores(a)
    requires forall i, j :: 0 <= i < j < |a| ==> a[i].id != a[j].id
    ensures (exists b :: Disagrees(a, b)) <==> OrderSensitive(a)
  {
    if OrderSensitive(a) {
      var b := OrderSensitiveMatters(a);
      assert Disagrees(a, b);
    } else {
      forall b | multiset(a) == multiset(b) && Descending(b) ensures Discriminate(b) == Discriminate(a) {
        DiscriminateIgnoresOrder(a, b);
      }
    }
  }

  lemma OtherZero(a: seq<Outcome>) returns (k: nat)
    requires a != [] && ValidScores(a) && OrderSensitive(a)
    ensures 0 < k < |a| && a[k].score == Score(0.0, !a[0].score.negativeZero)
    ensures a[0].score == Score(0.0, a[0].score.negativeZero)
    ensures Count(a, ScoredLike(a[0].score)) == 1 || Count(a, ScoredLike(a[k].score)) == 1
  {
    assert a[0] in a;
    var other := Score(0.0, !a[0].score.negativeZero);
    CountPositive(a, ScoredLike(other));
    var o :| o in a && ScoredLike(other)(o);
    k :| 0 <= k < |a| && a[k] == o;
  }

  lemma FrontsDisagree(a: seq<Outcome>, b: seq<Outcome>, k: nat)
    requires 0 < k < |a| && multiset(a) == multiset(b) && |b| == |a| && b[0] == a[k]
    requires a[0].score.value == a[k].score.value == 0.0 && a[0].score.negativeZero != a[k].score.negativeZero
    requires forall o :: o in a ==> o.score.value == 0.0
    requires forall i, j :: 0 <= i < j < |a| ==> a[i].id != a[j].id
    requires Discriminate(a).Some? && Discriminate(b).Some?
    requires Count(a, ScoredLike(b[0].score)) == Count(b, ScoredLike(b[0].score))
    requires Count(a, ScoredLike(a[0].score)) == 1 || Count(a, ScoredLike(a[k].score)) == 1
    ensures Discriminate(a) != Discriminate(b)
  {
    TwoZeros(a, a[0].score, a[k].score);
    if Count(a, ScoredLike(a[0].score)) == 1 && Count(a, ScoredLike(a[k].score)) == 1 {
      TwoZerosDisagree(a, b, k);
    } else {
      CountPositive(a, ScoredLike(a[0].score));
      CountPositive(a, ScoredLike(a[k].score));
      assert a[0] in a && a[k] in a;
    }
  }

  lemma {:induction false} TwoZeros(a: seq<Outcome>, s: Score, t: Score)
    requires s.value == t.value == 0.0 && s.negativeZero != t.negativeZero
    requires forall o :: o in a ==> o.score.value == 0.0
    ensures |a| == Count(a, ScoredLike(s)) + Count(a, ScoredLike(t))
  {
    if a != [] {
      assert a[0] in a;
      TwoZeros(a[1..], s, t);
    }
  }

  lemma BaselineIsListed(a: seq<Outcome>)
    requires a != []
    ensures exists i :: 0 <= i < |a| && Some(a[i].id) == StructuralBaselineWinner(a)
  {
    BaselineExists(a);
    var id := StructuralBaselineWinner(a).value;
    var o :| o in a && o.id == id;
    var i :| 0 <= i < |a| && a[i] == o;
  }

  /** Two judged outcomes with different scores: the verdict is no tie, and it follows whoever is listed first. */
  lemma UnlikePairIsNoTie(a: Outcome, b: Outcome)
    requires a.score != b.score && a.id != b.id && HasJudgeVerdict(a)
    ensures Discriminate([a, b]) != Some(Tie) && Discriminate([a, b]) != Discriminate([b, a])
  {
    var l, m := [a, b], [b, a];
    assert a in l && a in m;
    CountTwo(l, 0, ScoredLike(a.score));
    CountTwo(m, 0, ScoredLike(b.score));
    BaselineIsListed(l);
    assert multiset(l) == multiset(m);
    BaselineIgnoresOrder(l, m);
    DiscriminatesIffJudged(l);
    DiscriminatesIffJudged(m);
  }

  lemma {:induction false} DetailIsFirst(before: seq<Report>, r: Report, after: seq<Report>)
    requires IsJudgeReport(r) && forall b :: b in before ==> !IsJudgeReport(b)
    ensures FirstJudgeDetail(before + [r] + after) == Some(r.detail.score)
  {
    var all := before + [r] + after;
    if before == [] {
      assert all[0] == r;
    } else {
      assert before[0] in before && all[0] == before[0] && all[1..] == before[1..] + [r] + after;
      assert forall b :: b in before[1..] ==> b in before;
      DetailIsFirst(before[1..], r, after);
    }
  }

  /** `y` is `x` cut off at 0 and 1. */
  predicate CutsOff(x: real, y: Score)
  {
    if x < 0.0 then y == Score(0.0, false) else if x > 1.0 then y == Score(1.0, false) else y.value == x
  }

  /** The first judge detail decides when it is a number, cut off at 0 and 1; otherwise the pass fraction does. */
  lemma PolicyMeaning(before: seq<Report>, r: Report, after: seq<Report>, round: int -> real)
    requires IsJudgeReport(r) && forall b :: b in before ==> !IsJudgeReport(b)
    requires FiniteNumbers(r.detail.score)
    ensures var score := JudgeAwareScore(before + [r] + after, round);
            && (!r.detail.score.Num? ==> score == Some(UniformScore(before + [r] + after)))
            && (r.detail.score.Num? ==>
                  score.Some? && exists x :: Denotes(r.detail.score.n, x, round) && CutsOff(x, score.value))
  {
    DetailIsFirst(before, r, after);
    if r.detail.score.Num? {
      var f := AsF64(r.detail.score.n, round);
      assert f.Finite? && Denotes(r.detail.score.n, f.value, round);
    }
  }
}
