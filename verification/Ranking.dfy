/** The final ranking of a deliberation, and the ranking a judge-free deliberation would have had. */
module Ranking {
  import opened Prelude
  import opened Json
  import opened Reports
  import opened Counting
  import opened Scoring
  import JudgeReply
  import Text

  /** Ranking order: higher score first, ties by smaller id. */
  predicate Before(a: Outcome, b: Outcome)
  {
    a.score.value > b.score.value || (a.score.value == b.score.value && !Text.Less(b.id, a.id))
  }

  lemma BeforeTotal(a: Outcome, b: Outcome)
    ensures Before(a, b) || Before(b, a)
  {
    Text.LessTrichotomy(a.id, b.id);
  }

  lemma BeforeTransitive(a: Outcome, b: Outcome, c: Outcome)
    requires Before(a, b) && Before(b, c)
    ensures Before(a, c)
  {
    if a.score.value == b.score.value == c.score.value && Text.Less(c.id, a.id) {
      Text.LessTrichotomy(a.id, b.id);
      Text.LessTrichotomy(b.id, c.id);
      if a.id != b.id { Text.LessTransitive(c.id, a.id, b.id); }
    }
  }

  predicate Sorted(os: seq<Outcome>) { forall i, j :: 0 <= i < j < |os| ==> Before(os[i], os[j]) }

  function Insert(o: Outcome, os: seq<Outcome>): seq<Outcome>
  {
    if os == [] || Before(o, os[0]) then [o] + os else [os[0]] + Insert(o, os[1..])
  }

  /** The stable sort of the completed deliberation. */
  function Rank(os: seq<Outcome>): seq<Outcome>
  {
    if os == [] then [] else Insert(os[0], Rank(os[1..]))
  }

  lemma {:induction false} InsertKeeps(o: Outcome, os: seq<Outcome>)
    ensures multiset(Insert(o, os)) == multiset(os) + multiset{o}
  {
    if os != [] {
      assert os == [os[0]] + os[1..];
      InsertKeeps(o, os[1..]);
    }
  }

  lemma SortedCons(o: Outcome, os: seq<Outcome>)
    requires Sorted(os) && forall x :: x in os ==> Before(o, x)
    ensures Sorted([o] + os)
  {
    var r := [o] + os;
    assert forall j :: 0 < j < |r| ==> r[j] == os[j - 1] && os[j - 1] in os;
  }

  lemma {:induction false} InsertSorts(o: Outcome, os: seq<Outcome>)
    requires Sorted(os)
    ensures Sorted(Insert(o, os))
  {
    if os == [] {
    } else if Before(o, os[0]) {
      forall x | x in os ensures Before(o, x) {
        var j :| 0 <= j < |os| && os[j] == x;
        if j > 0 { BeforeTransitive(o, os[0], x); }
      }
      SortedCons(o, os);
    } else {
      InsertSorts(o, os[1..]);
      InsertKeeps(o, os[1..]);
      BeforeTotal(o, os[0]);
      var tail := Insert(o, os[1..]);
      forall x | x in tail ensures Before(os[0], x) {
        assert x in multiset(tail);
        if x != o {
          assert x in os[1..];
          var k :| 0 <= k < |os[1..]| && os[1..][k] == x;
          assert os[k + 1] == x;
        }
      }
      SortedCons(os[0], tail);
    }
  }

  /** The ranking lists every outcome once, in ranking order. */
  lemma {:induction false} RankSorts(os: seq<Outcome>)
    ensures Sorted(Rank(os)) && multiset(Rank(os)) == multiset(os)
  {
    if os != [] {
      RankSorts(os[1..]);
      InsertSorts(os[0], Rank(os[1..]));
      InsertKeeps(os[0], Rank(os[1..]));
      TailElements(os);
    }
  }

  lemma RankDescends(os: seq<Outcome>)
    ensures Descending(Rank(os))
  {
    RankSorts(os);
  }

  predicate DistinctIds(os: seq<Outcome>) { forall i, j :: 0 <= i < j < |os| ==> os[i].id != os[j].id }

  lemma SameIdSameOutcome(os: seq<Outcome>, a: Outcome, b: Outcome)
    requires DistinctIds(os) && a in os && b in os && a.id == b.id
    ensures a == b
  {
    var i :| 0 <= i < |os| && os[i] == a;
    var j :| 0 <= j < |os| && os[j] == b;
  }

  // ---------- The metric at its call site ----------

  /** Both rank first, so they are the same proposal. */
  lemma LeadersAgree(a: seq<Outcome>, b: seq<Outcome>)
    requires Sorted(a) && Sorted(b) && multiset(a) == multiset(b) && DistinctIds(a) && a != []
    ensures b != [] && a[0] == b[0]
  {
    SameElements(a, b);
    assert a[0] in a && b[0] in b;
    var i :| 0 <= i < |b| && b[i] == a[0];
    var j :| 0 <= j < |a| && a[j] == b[0];
    BeforeTotal(a[0], a[0]);
    BeforeTotal(b[0], b[0]);
    assert Before(a[0], b[0]) && Before(b[0], a[0]);
    Text.LessTrichotomy(a[0].id, b[0].id);
    SameIdSameOutcome(a, a[0], b[0]);
  }

  /** With distinct ids there is only one ranking of the same outcomes. */
  lemma {:induction false} RankingIsUnique(a: seq<Outcome>, b: seq<Outcome>)
    requires Sorted(a) && Sorted(b) && multiset(a) == multiset(b) && DistinctIds(a)
    ensures a == b
    decreases |a|
  {
    SameElements(a, b);
    if a != [] {
      LeadersAgree(a, b);
      TailElements(a);
      TailElements(b);
      RankingIsUnique(a[1..], b[1..]);
    }
  }

  lemma TailElements(a: seq<Outcome>)
    requires a != []
    ensures a == [a[0]] + a[1..] && multiset(a[1..]) == multiset(a) - multiset{a[0]}
  {
    assert a == [a[0]] + a[1..];
  }

  /**
   The metric is only ever read off a completed ranking, and there the order in which proposals came
   in does not matter, zeros of either sign included.
   */
  lemma MetricIgnoresArrivalOrder(a: seq<Outcome>, b: seq<Outcome>)
    requires multiset(a) == multiset(b) && DistinctIds(a)
    ensures Rank(a) == Rank(b) && Discriminate(Rank(a)) == Discriminate(Rank(b))
  {
    RankSorts(a);
    RankSorts(b);
    RankKeepsIds(a);
    RankingIsUnique(Rank(a), Rank(b));
  }

  lemma {:induction false} RankKeepsIds(os: seq<Outcome>)
    requires DistinctIds(os)
    ensures DistinctIds(Rank(os))
  {
    if os != [] {
      var tail := os[1..];
      assert forall i :: 0 <= i < |tail| ==> tail[i] == os[i + 1];
      RankKeepsIds(tail);
      RankSorts(tail);
      SameElements(Rank(tail), tail);
      forall x | x in Rank(tail) ensures x.id != os[0].id {
        var j :| 0 <= j < |tail| && tail[j] == x;
        assert os[j + 1] == x;
      }
      InsertKeepsIds(os[0], Rank(tail));
    }
  }

  lemma {:induction false} InsertKeepsIds(o: Outcome, os: seq<Outcome>)
    requires DistinctIds(os) && forall x :: x in os ==> x.id != o.id
    ensures DistinctIds(Insert(o, os))
  {
    if os != [] && !Before(o, os[0]) {
      var tail := os[1..];
      assert forall i :: 0 <= i < |tail| ==> tail[i] == os[i + 1];
      InsertKeepsIds(o, tail);
      InsertKeeps(o, tail);
      var rest := Insert(o, tail);
      forall i | 0 <= i < |rest| ensures rest[i].id != os[0].id {
        assert rest[i] in multiset(rest);
        assert os[0] in os;
      }
    }
  }

  /** What does remain of the signed zeros there: the tie is missed exactly when a lone zero leads the ranking. */
  lemma TieIsMissedIff(os: seq<Outcome>, round: int -> real)
    requires Discriminate(Rank(os)).Some? && forall o :: o in os ==> Scored(o, round)
    ensures (Discriminate(Rank(os)) == Some(Tie) <==> TopShared(Rank(os))) <==> !LoneZeroOnTop(Rank(os))
  {
    RankDescends(os);
    RankSorts(os);
    SameElements(Rank(os), os);
    ScoredOutcomesAreValid(os, round);
    TieIffTopShared(Rank(os));
  }

  // ---------- The judge-free ranking ----------

  function NonJudge(reports: seq<Report>): seq<Report>
  {
    if reports == [] then []
    else (if IsJudgeReport(reports[0]) then [] else [reports[0]]) + NonJudge(reports[1..])
  }

  lemma {:induction false} NonJudgeMeaning(reports: seq<Report>, r: Report)
    ensures r in NonJudge(reports) <==> r in reports && !IsJudgeReport(r)
  {
    if reports != [] {
      NonJudgeMeaning(reports[1..], r);
      assert reports == [reports[0]] + reports[1..];
    }
  }

  /** The outcome as it would have been scored without a judge. */
  function WithoutJudge(o: Outcome): Outcome { o.(score := UniformScore(NonJudge(o.reports))) }

  function AllWithoutJudge(os: seq<Outcome>): (r: seq<Outcome>)
    ensures |r| == |os| && forall i :: 0 <= i < |r| ==> r[i] == WithoutJudge(os[i])
  {
    seq(|os|, i requires 0 <= i < |os| => WithoutJudge(os[i]))
  }

  /** Scored 1 without the judge: structurally valid on at least one structural report. */
  lemma FullWithoutJudge(o: Outcome)
    ensures WithoutJudge(o).score.value <= 1.0
    ensures WithoutJudge(o).score.value == 1.0 <==> NonJudge(o.reports) != [] && StructurallyValid(o)
  {
    FullScore(NonJudge(o.reports));
    forall r ensures r in NonJudge(o.reports) <==> r in o.reports && !IsJudgeReport(r) {
      NonJudgeMeaning(o.reports, r);
    }
  }

  /** `t` leads the judge-free ranking. */
  lemma TopOfRanking(os: seq<Outcome>) returns (t: Outcome)
    requires os != []
    ensures t in os && Rank(AllWithoutJudge(os)) != [] && WithoutJudge(t) == Rank(AllWithoutJudge(os))[0]
    ensures forall o :: o in os ==> Before(WithoutJudge(t), WithoutJudge(o))
  {
    var plain := AllWithoutJudge(os);
    var ranked := Rank(plain);
    RankSorts(plain);
    SameElements(plain, ranked);
    assert ranked[0] in plain;
    var i :| 0 <= i < |plain| && plain[i] == ranked[0];
    t := os[i];
    forall o | o in os ensures Before(WithoutJudge(t), WithoutJudge(o)) {
      var j :| 0 <= j < |os| && os[j] == o;
      assert plain[j] in ranked;
      var k :| 0 <= k < |ranked| && ranked[k] == plain[j];
      BeforeTotal(ranked[0], ranked[0]);
    }
  }

  /** The proposal the baseline names. */
  ghost predicate Names(os: seq<Outcome>, o: Outcome) { o in os && StructuralBaselineWinner(os) == Some(o.id) }

  /** Nobody ranks ahead of `w` once the judge is left out. */
  predicate Unbeaten(os: seq<Outcome>, w: Outcome)
  {
    forall o :: o in os ==> Before(WithoutJudge(w), WithoutJudge(o))
  }

  /** The id leading the judge-free ranking. */
  function JudgeFreeWinner(os: seq<Outcome>): Option<string>
  {
    var ranked := Rank(AllWithoutJudge(os));
    if ranked == [] then None else Some(ranked[0].id)
  }

  /** A proposal leads the judge-free ranking exactly when none beats it on pass fraction, then on id. */
  lemma WinnerIffUnbeaten(os: seq<Outcome>, w: Outcome)
    requires DistinctIds(os) && w in os
    ensures JudgeFreeWinner(os) == Some(w.id) <==> Unbeaten(os, w)
  {
    var t := TopOfRanking(os);
    Text.LessTrichotomy(t.id, w.id);
    if t.id == w.id { SameIdSameOutcome(os, t, w); }
    assert Before(WithoutJudge(t), WithoutJudge(w));
  }

  /** A valid proposal with a structural report exists: then exactly when the one named has a structural report too. */
  lemma BaselineIsTopIff(os: seq<Outcome>, w: Outcome)
    requires DistinctIds(os) && Names(os, w)
    requires exists o :: o in os && StructurallyValid(o) && NonJudge(o.reports) != []
    ensures JudgeFreeWinner(os) == Some(w.id) <==> NonJudge(w.reports) != []
  {
    WinnerIffUnbeaten(os, w);
    NamedIsLeastValid(os, w);
    var full :| full in os && StructurallyValid(full) && NonJudge(full.reports) != [];
    FullWithoutJudge(full);
    FullWithoutJudge(w);
    if NonJudge(w.reports) == [] {
      assert !Before(WithoutJudge(w), WithoutJudge(full));
    } else {
      forall o | o in os ensures Before(WithoutJudge(w), WithoutJudge(o)) {
        FullWithoutJudge(o);
        Text.LessTrichotomy(w.id, o.id);
      }
    }
  }

  /** When a valid proposal exists the one named is valid, with the least id among the valid. */
  lemma NamedIsLeastValid(os: seq<Outcome>, w: Outcome)
    requires DistinctIds(os) && Names(os, w) && exists o :: o in os && StructurallyValid(o)
    ensures StructurallyValid(w)
    ensures forall o :: o in os && StructurallyValid(o) ==> o.id == w.id || Text.Less(w.id, o.id)
  {
    BaselineExists(os);
    var v :| v in os && StructurallyValid(v) && v.id == w.id;
    SameIdSameOutcome(os, v, w);
  }

  /**
   The valid proposals all lack structural reports: then exactly when nobody passes any structural
   report and the one named has the least id of all.
   */
  lemma EmptyBaselineIsTopIff(os: seq<Outcome>, w: Outcome)
    requires DistinctIds(os) && Names(os, w) && StructurallyValid(w)
    requires forall o :: o in os && StructurallyValid(o) ==> NonJudge(o.reports) == []
    ensures JudgeFreeWinner(os) == Some(w.id) <==>
            forall o :: o in os ==> WithoutJudge(o).score.value == 0.0 && (o.id == w.id || Text.Less(w.id, o.id))
  {
    WinnerIffUnbeaten(os, w);
    forall o | o in os
      ensures Before(WithoutJudge(w), WithoutJudge(o)) <==>
              WithoutJudge(o).score.value == 0.0 && (o.id == w.id || Text.Less(w.id, o.id))
    {
      FullScore(NonJudge(o.reports));
      Text.LessTrichotomy(w.id, o.id);
    }
  }

  /** No proposal is valid: then exactly when the one named, the smallest id, attains the best pass fraction. */
  lemma FallbackIsTopIff(os: seq<Outcome>, w: Outcome)
    requires DistinctIds(os) && Names(os, w) && forall o :: o in os ==> !StructurallyValid(o)
    ensures JudgeFreeWinner(os) == Some(w.id) <==>
            forall o :: o in os ==> WithoutJudge(o).score.value <= WithoutJudge(w).score.value
  {
    WinnerIffUnbeaten(os, w);
    BaselineExists(os);
    forall o | o in os
      ensures Before(WithoutJudge(w), WithoutJudge(o)) <==> WithoutJudge(o).score.value <= WithoutJudge(w).score.value
    {
      Text.LessTrichotomy(w.id, o.id);
    }
  }

  /** The documented case: every proposal has a structural report and some proposal passes all of its own. */
  lemma BaselineIsJudgeFreeWinner(os: seq<Outcome>)
    requires DistinctIds(os)
    requires forall o :: o in os ==> NonJudge(o.reports) != []
    requires exists o :: o in os && StructurallyValid(o)
    ensures JudgeFreeWinner(os).Some? && StructuralBaselineWinner(os) == JudgeFreeWinner(os)
  {
    BaselineExists(os);
    var w :| w in os && StructurallyValid(w) && w.id == StructuralBaselineWinner(os).value;
    BaselineIsTopIff(os, w);
  }

  /** What the metric means to say: whether the leader is also the winner of the ranking without the judge. */
  function Intended(os: seq<Outcome>): Discrimination
    requires os != []
  {
    if JudgeFreeWinner(os) == Some(os[0].id) then Agreed else Reranked
  }

  /**
   In every case without a tie the metric says what it means to say exactly when the proposal the
   baseline names is the judge-free winner, or the leader is neither of the two.
   */
  lemma MetricIsRightIff(os: seq<Outcome>, w: Outcome)
    requires DistinctIds(os) && Discriminate(os).Some? && Discriminate(os) != Some(Tie) && Names(os, w)
    ensures Discriminate(os) == Some(Intended(os)) <==>
            Unbeaten(os, w) || (os[0].id != w.id && JudgeFreeWinner(os) != Some(os[0].id))
  {
    WinnerIffUnbeaten(os, w);
  }

  /** In the documented case it always does. */
  lemma AgreedIffJudgeFreeWinner(os: seq<Outcome>)
    requires DistinctIds(os) && Discriminate(os).Some? && Discriminate(os) != Some(Tie)
    requires forall o :: o in os ==> NonJudge(o.reports) != []
    requires exists o :: o in os && StructurallyValid(o)
    ensures Discriminate(os) == Some(Intended(os))
  {
    BaselineIsJudgeFreeWinner(os);
  }

  // ---------- Inputs on which the code misses what it promises ----------

  /** The reports of a judged proposal: what the gates found, and the judge's score. */
  function JudgedReports(structural: seq<Report>, score: F64): seq<Report>
  {
    structural + [JudgeReply.JudgeReport(score, 0.5)]
  }

  lemma JudgedReportsScore(structural: seq<Report>, score: F64, round: int -> real)
    requires forall r :: r in structural ==> !IsJudgeReport(r)
    requires score.Finite? && ValidF64(score) && 0.0 <= score.value <= 1.0
    ensures Scored(Outcome("", Score(score.value, score.negativeZero), JudgedReports(structural, score)), round)
    ensures exists r :: r in JudgedReports(structural, score) && IsJudgeReport(r)
    ensures NonJudge(JudgedReports(structural, score)) == structural
  {
    var report := JudgeReply.JudgeReport(score, 0.5);
    JudgeReply.DetailSkips(structural, [report]);
    assert report in JudgedReports(structural, score);
    NonJudgeOfJudged(structural, report);
  }

  lemma {:induction false} NonJudgeOfJudged(structural: seq<Report>, report: Report)
    requires IsJudgeReport(report) && forall r :: r in structural ==> !IsJudgeReport(r)
    ensures NonJudge(structural + [report]) == structural
  {
    if structural == [] {
      assert structural + [report] == [report];
      assert NonJudge([report]) == [] + NonJudge([]);
    } else {
      assert structural[0] in structural && forall r :: r in structural[1..] ==> r in structural;
      assert (structural + [report])[1..] == structural[1..] + [report];
      NonJudgeOfJudged(structural[1..], report);
    }
  }

  lemma RankOfTwo(a: Outcome, b: Outcome)
    requires Before(a, b)
    ensures Rank([a, b]) == [a, b]
  {
    assert [a, b][1..] == [b] && [b][1..] == [];
    assert Rank([b]) == Insert(b, Rank([])) == [b];
    assert Rank([a, b]) == Insert(a, [b]);
  }

  /**
   Whatever the gates found: a judge that answers 0 for one proposal and -0 for the other shares the
   top score between them, and the completed ranking is not reported as a tie.
   */
  lemma SignedZeroExample(structural: seq<Report>, round: int -> real)
    requires forall r :: r in structural ==> !IsJudgeReport(r)
    ensures var zero := Outcome("a", Score(0.0, false), JudgedReports(structural, Finite(0.0, false)));
            var minus := Outcome("b", Score(0.0, true), JudgedReports(structural, Finite(0.0, true)));
            && Scored(zero, round) && Scored(minus, round)
            && TopShared(Rank([zero, minus])) && Discriminate(Rank([zero, minus])).Some?
            && Discriminate(Rank([zero, minus])) != Some(Tie)
  {
    JudgedReportsScore(structural, Finite(0.0, false), round);
    JudgedReportsScore(structural, Finite(0.0, true), round);
    var zero := Outcome("a", Score(0.0, false), JudgedReports(structural, Finite(0.0, false)));
    var minus := Outcome("b", Score(0.0, true), JudgedReports(structural, Finite(0.0, true)));
    assert "b"[0] == 'b' && "a"[0] == 'a';
    assert Before(zero, minus);
    RankOfTwo(zero, minus);
    assert [zero, minus][1].score.value == [zero, minus][0].score.value;
    UnlikePairIsNoTie(zero, minus);
    assert zero in [zero, minus];
    DiscriminatesIffJudged([zero, minus]);
  }

  /** When neither of two proposals is valid the fallback names the smaller id, the ranking the better fraction. */
  lemma FallbackPair(a: Outcome, b: Outcome)
    requires !StructurallyValid(a) && !StructurallyValid(b) && Text.Less(a.id, b.id)
    requires WithoutJudge(a).score.value < WithoutJudge(b).score.value
    ensures StructuralBaselineWinner([a, b]) == Some(a.id) && JudgeFreeWinner([a, b]) == Some(b.id)
  {
    var os := [a, b];
    assert a in os && b in os;
    BaselineExists(os);
    Text.LessTrichotomy(a.id, b.id);
    assert Names(os, a);
    var t := TopOfRanking(os);
  }

  /** Neither of two proposals is valid, the judge prefers the smaller id, the gates the other one. */
  lemma FallbackMisleads(a: Outcome, b: Outcome)
    requires !StructurallyValid(a) && !StructurallyValid(b) && Text.Less(a.id, b.id) && HasJudgeVerdict(a)
    requires WithoutJudge(a).score.value < WithoutJudge(b).score.value && a.score.value > b.score.value
    ensures Rank([a, b]) == [a, b] && Discriminate([a, b]) == Some(Agreed)
    ensures JudgeFreeWinner([a, b]) == Some(b.id) && Intended([a, b]) == Reranked
  {
    RankOfTwo(a, b);
    FallbackPair(a, b);
    Text.LessTrichotomy(a.id, b.id);
    UnlikePairIsNoTie(a, b);
    assert a in [a, b];
    DiscriminatesIffJudged([a, b]);
  }
}
