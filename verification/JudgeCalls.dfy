/** Metrics of the two judges' calls: no guard, so what is recorded depends on the call returning at all. */
module JudgeCalls {
  import opened Prelude
  import opened Counting
  import opened P = ProviderCalls
  import opened Json
  import JudgeReply
  import Support

  /** Reading a verdict out of the completed text. */
  type Reader<V> = string -> Result<V, JudgeReply.ReplyError>

  /** The proposal judge reads a score, the support judge a verdict. */
  function ScoreReader(parse: string -> Option<Value>, round: int -> real): Reader<F64>
  {
    (text: string) => JudgeReply.ParseScore(text, parse, round)
  }

  function VerdictReader(parse: string -> Option<Value>, round: int -> real): Reader<Support.Verdict>
  {
    (text: string) => JudgeReply.ParseVerdict(text, parse, round)
  }

  /** Whether a text can be read: all that a judge's records depend on. */
  type Readable = string -> bool

  function CanRead<V>(read: Reader<V>): Readable { (text: string) => read(text).Ok? }

  /** A judge call before it is timed: a completion whose text must also be readable. */
  function Inner<V>(reply: Reply, read: Reader<V>): Result<V, ErrorKind>
  {
    var answer := Guarded(reply).0;
    if answer.Err? then Err(answer.error)
    else if read(answer.value).Err? then Err(MalformedBody)
    else Ok(read(answer.value).value)
  }

  /** The call comes back with an error. */
  predicate Fails(reply: Reply, readable: Readable)
  {
    Guarded(reply).0.Err? || !readable(Guarded(reply).0.value)
  }

  /** Everything recorded: the latency last, once the inner call has returned, whatever it returned. */
  function Rating(reply: Reply, readable: Readable): seq<Record>
  {
    var (answer, made) := Guarded(reply);
    made + (if answer.Ok? && !readable(answer.value) then [Error(MalformedBody)] else []) + [Observe]
  }

  /** The call both judges make. */
  method Consult<V>(recorder: Recorder, reply: Reply, read: Reader<V>) returns (r: Result<V, ErrorKind>)
    modifies recorder
    ensures r == Inner(reply, read) && (r.Err? <==> Fails(reply, CanRead(read)))
    ensures recorder.records == old(recorder.records) + Rating(reply, CanRead(read))
  {
    var text := recorder.CompleteGuarded(reply);
    if text.Err? {
      r := Err(text.error);
    } else {
      var value := read(text.value);
      if value.Err? {
        recorder.Record(Error(MalformedBody));
        r := Err(MalformedBody);
      } else {
        r := Ok(value.value);
      }
    }
    recorder.Record(Observe);
  }

  /** Rating a proposal: a score comes back exactly when the provider answered with a text that parses to one. */
  method Rate(recorder: Recorder, reply: Reply, parse: string -> Option<Value>, round: int -> real)
    returns (r: Result<F64, ErrorKind>)
    modifies recorder
    ensures r.Ok? <==> Guarded(reply).0.Ok? && JudgeReply.ParseScore(Guarded(reply).0.value, parse, round).Ok?
    ensures r.Ok? ==> JudgeReply.ParseScore(Guarded(reply).0.value, parse, round) == Ok(r.value)
    ensures recorder.records == old(recorder.records) + Rating(reply, CanRead(ScoreReader(parse, round)))
  {
    r := Consult(recorder, reply, ScoreReader(parse, round));
  }

  /** Assessing a claim: likewise with a verdict. */
  method Assess(recorder: Recorder, reply: Reply, parse: string -> Option<Value>, round: int -> real)
    returns (r: Result<Support.Verdict, ErrorKind>)
    modifies recorder
    ensures r.Ok? <==> Guarded(reply).0.Ok? && JudgeReply.ParseVerdict(Guarded(reply).0.value, parse, round).Ok?
    ensures r.Ok? ==> JudgeReply.ParseVerdict(Guarded(reply).0.value, parse, round) == Ok(r.value)
    ensures recorder.records == old(recorder.records) + Rating(reply, CanRead(VerdictReader(parse, round)))
  {
    r := Consult(recorder, reply, VerdictReader(parse, round));
  }

  /** The provider reported what the text cost, whether or not the text turns out readable. */
  predicate Paid(reply: Reply)
  {
    && reply.Status? && IsSuccess(reply.code) && reply.body.Some?
    && reply.body.value.text.Some? && reply.body.value.usage.Some?
  }

  /** A call that returns is timed once, pays one error exactly when it fails, and reports tokens when billed. */
  lemma RatingAccounts(reply: Reply, readable: Readable, m: Meter)
    ensures Total(m, Rating(reply, readable)) ==
            match m
            case InFlight => 0
            case Observations => 1
            case Errors => if Fails(reply, readable) then 1 else 0
            case TokenReports => if Paid(reply) then 1 else 0
  {
    var all := Rating(reply, readable);
    if |all| == 1 {
      assert all == [Observe];
      TotalOfTwo(Observe, Observe);
    } else if |all| == 2 {
      assert all == [all[0], Observe];
      TotalOfTwo(all[0], Observe);
    } else {
      assert all == [all[0], all[1], Observe];
      TotalOfThree(all[0], all[1], Observe);
    }
  }

  /** Unlike for the agents, tokens and an error can both be charged to one failed call. */
  lemma PaidFailureExample(text: string, usage: Usage, readable: Readable)
    requires !readable(text)
    ensures var reply := Status(200, Some(Completion(Some(text), Some(usage))));
            Fails(reply, readable) && Total(TokenReports, Rating(reply, readable)) == 1
  {
    RatingAccounts(Status(200, Some(Completion(Some(text), Some(usage)))), readable, TokenReports);
  }

  // ---------- Many calls at once ----------

  datatype Stage = Asked | Reading(code: nat) | Returned(reply: Reply) | Cancelled

  /** A call of either judge: both record under the model they use, each reads in its own way. */
  datatype Rated = Rated(model: string, readable: Readable, stage: Stage)

  datatype Judges = Judges(calls: seq<Rated>, log: seq<Entry>)

  datatype Move =
    | Ask(model: string, readable: Readable)
    | Answer(call: nat, timedOut: Option<bool>, code: nat)
    | Body(call: nat, body: Option<Completion>)
    | Drop(call: nat)

  /** The records a call makes on its way to its next suspension point; dropping its future records nothing. */
  function Proceed(call: Rated, a: Move): (Stage, seq<Record>)
    requires !a.Ask?
  {
    match (a, call.stage)
    case (Answer(_, timedOut, code), Asked) =>
      if timedOut.Some? then Return(NoAnswer(timedOut.value), call.readable)
      else if IsSuccess(code) then (Reading(code), [])
      else Return(Status(code, None), call.readable)
    case (Body(_, body), Reading(code)) => Return(Status(code, body), call.readable)
    case (Drop(_), Asked) => (Cancelled, [])
    case (Drop(_), Reading(_)) => (Cancelled, [])
    case (_, _) => (call.stage, [])
  }

  function Return(reply: Reply, readable: Readable): (Stage, seq<Record>) { (Returned(reply), Rating(reply, readable)) }

  function Next(w: Judges, a: Move): Judges
  {
    match a
    case Ask(model, readable) => Judges(w.calls + [Rated(model, readable, Asked)], w.log)
    case _ =>
      if a.call >= |w.calls| then w
      else
        var call := w.calls[a.call];
        var (stage, made) := Proceed(call, a);
        Judges(w.calls[a.call := call.(stage := stage)], w.log + Tagged(a.call, call.model, made))
  }

  /** Any interleaving at all, of either judge's calls, from nothing. */
  function After(moves: seq<Move>): Judges
  {
    if moves == [] then Judges([], []) else Next(After(moves[..|moves| - 1]), moves[|moves| - 1])
  }

  /** A judge call that is told so, in any world, returns with just that reply and records what the reply demands. */
  lemma CallsReturnWithTheirReply(w: Judges, c: nat, timedOut: Option<bool>, code: nat, body: Option<Completion>)
    requires c < |w.calls| && w.calls[c].stage.Asked?
    ensures var call, reply := w.calls[c], Told(timedOut, code, body);
            var end := Next(Next(w, Answer(c, timedOut, code)), Body(c, body));
            && end.calls == w.calls[c := Rated(call.model, call.readable, Returned(reply))]
            && end.log == w.log + Tagged(c, call.model, Rating(reply, call.readable))
  {
  }

  /** Until its body was read a call answered with a success has neither returned nor recorded anything. */
  lemma SuccessWaitsForItsBody(w: Judges, c: nat, code: nat)
    requires c < |w.calls| && w.calls[c].stage.Asked? && 200 <= code <= 299
    ensures var next := Next(w, Answer(c, None, code));
            next.calls[c].stage == Reading(code) && next.log == w.log
  {
  }

  /** The calls a meter counts: only those that returned. */
  predicate Charged(m: Meter, call: Rated)
  {
    call.stage.Returned? &&
    match m
    case InFlight => false
    case Observations => true
    case Errors => Fails(call.stage.reply, call.readable)
    case TokenReports => Paid(call.stage.reply)
  }

  function ChargedOn(m: Meter, model: string): Rated -> bool { (c: Rated) => c.model == model && Charged(m, c) }

  lemma ProceedBalances(call: Rated, a: Move, m: Meter)
    requires !a.Ask?
    ensures var (next, made) := Proceed(call, a);
            Total(m, made) ==
            (if Charged(m, call.(stage := next)) then 1 else 0) - if Charged(m, call) then 1 else 0
  {
    var next := Proceed(call, a).0;
    if next != call.stage && next.Returned? { RatingAccounts(next.reply, call.readable, m); }
  }

  /**
   In every interleaving and for every model: latency observations are the calls that returned,
   errors those that returned an error, token reports those that were billed.
   */
  lemma {:induction false} JudgeMetersAreExact(moves: seq<Move>, m: Meter, model: string)
    ensures P.Reading(m, After(moves).log, model) == Count(After(moves).calls, ChargedOn(m, model))
  {
    if moves != [] {
      var before, a := moves[..|moves| - 1], moves[|moves| - 1];
      JudgeMetersAreExact(before, m, model);
      NextBalances(After(before), a, m, model);
    }
  }

  lemma NextBalances(w: Judges, a: Move, m: Meter, model: string)
    requires P.Reading(m, w.log, model) == Count(w.calls, ChargedOn(m, model))
    ensures P.Reading(m, Next(w, a).log, model) == Count(Next(w, a).calls, ChargedOn(m, model))
  {
    if a.Ask? {
      CountPush(w.calls, Rated(a.model, a.readable, Asked), ChargedOn(m, model));
    } else if a.call < |w.calls| {
      var call := w.calls[a.call];
      var (stage, made) := Proceed(call, a);
      ProceedBalances(call, a, m);
      ReadingTagged(m, w.log, a.call, call.model, made, model);
      CountUpdate(w.calls, a.call, call.(stage := stage), ChargedOn(m, model));
    }
  }

  function AskedOf(model: string): Rated -> bool { (c: Rated) => c.model == model }

  /**
   The latency is not recorded on every path: for a model, the observations match the calls made of it
   exactly when none of them is unanswered or was cancelled.
   */
  lemma TimedIffAllReturned(moves: seq<Move>, model: string)
    ensures var w := After(moves);
            P.Reading(Observations, w.log, model) == Count(w.calls, AskedOf(model)) <==>
            forall c :: c in w.calls && c.model == model ==> c.stage.Returned?
  {
    var w := After(moves);
    JudgeMetersAreExact(moves, Observations, model);
    CountNarrower(w.calls, ChargedOn(Observations, model), AskedOf(model));
  }

  /** A rating that is cancelled has ended and is not timed. */
  lemma CancelledRatingExample(model: string, readable: Readable)
    ensures var w := After([Ask(model, readable), Drop(0)]);
            && w.calls == [Rated(model, readable, Cancelled)] && Count(w.calls, AskedOf(model)) == 1
            && P.Reading(Observations, w.log, model) == 0
  {
    var moves := [Ask(model, readable), Drop(0)];
    assert moves[..1] == [Ask(model, readable)] && moves[..1][..0] == [];
    assert After(moves[..1]) == Judges([Rated(model, readable, Asked)], []);
    var w := After(moves);
    assert w.calls == [Rated(model, readable, Cancelled)] && w.log == [];
    CountPush([], w.calls[0], AskedOf(model));
    assert [] + [w.calls[0]] == w.calls;
  }
}
