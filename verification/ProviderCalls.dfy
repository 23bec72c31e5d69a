/** Metrics of provider calls: an in-flight gauge kept by a guard, and exactly-once error accounting. */
module ProviderCalls {
  import opened Prelude
  import opened Counting

  datatype ErrorKind =
    | Unauthorized | RateLimited | BadRequest | UpstreamError | MalformedBody | EmptyContent | Timeout | Transport

  datatype Usage = Usage(prompt: nat, completion: nat)

  /** A parsed completion: the text extracted from it, if any, and its token usage. */
  datatype Completion = Completion(text: Option<string>, usage: Option<Usage>)

  /** What the provider answers: nothing, an error status, or a success status with a body that may not parse. */
  datatype Reply = NoAnswer(timedOut: bool) | Status(code: nat, body: Option<Completion>)

  predicate IsSuccess(code: nat) { 200 <= code < 300 }

  function KindOfStatus(code: nat): ErrorKind
  {
    if code == 401 || code == 403 then Unauthorized
    else if code == 429 then RateLimited
    else if 400 <= code <= 499 then BadRequest
    else UpstreamError
  }

  /** One call on the metrics recorder. */
  datatype Record = Inc | Error(kind: ErrorKind) | Tokens(usage: Usage) | Observe | Dec

  type Answer = Result<string, ErrorKind>

  /** What follows a parsed body: the text, and tokens if the provider reported them. */
  function OfCompletion(c: Completion): (Answer, seq<Record>)
  {
    if c.text.None? then (Err(EmptyContent), [Error(EmptyContent)])
    else (Ok(c.text.value), if c.usage.Some? then [Tokens(c.usage.value)] else [])
  }

  /** The body of the call, between the guard's creation and its drop. */
  function Guarded(reply: Reply): (Answer, seq<Record>)
  {
    match reply
    case NoAnswer(timedOut) => var kind := if timedOut then Timeout else Transport; (Err(kind), [Error(kind)])
    case Status(code, body) =>
      if !IsSuccess(code) then (Err(KindOfStatus(code)), [Error(KindOfStatus(code))])
      else if body.None? then (Err(MalformedBody), [Error(MalformedBody)])
      else OfCompletion(body.value)
  }

  /** Which kind of error a status is counted as. */
  lemma StatusKinds(code: nat)
    ensures KindOfStatus(code) == Unauthorized <==> code == 401 || code == 403
    ensures KindOfStatus(code) == RateLimited <==> code == 429
    ensures KindOfStatus(code) == BadRequest <==> 400 <= code <= 499 && code != 401 && code != 403 && code != 429
    ensures KindOfStatus(code) == UpstreamError <==> code < 400 || code > 499
  {
  }

  /** A call succeeds exactly with the text of a 2xx body that has one, and reports exactly that body's usage. */
  lemma AnswerMeaning(reply: Reply)
    ensures var (answer, made) := Guarded(reply);
            && (answer.Ok? <==>
                reply.Status? && 200 <= reply.code <= 299 && reply.body.Some? && reply.body.value.text.Some?)
            && (answer.Ok? ==> Some(answer.value) == reply.body.value.text)
            && (forall u :: Tokens(u) in made <==> answer.Ok? && reply.body.value.usage == Some(u))
    ensures reply.NoAnswer? ==> Guarded(reply).0 == Err(if reply.timedOut then Timeout else Transport)
    ensures reply.Status? && !(200 <= reply.code <= 299) ==> Guarded(reply).0 == Err(KindOfStatus(reply.code))
    ensures reply.Status? && 200 <= reply.code <= 299 && Guarded(reply).0.Err? ==>
              Guarded(reply).0 == Err(if reply.body.None? then MalformedBody else EmptyContent)
  {
  }

  /** The recorder a provider agent reports to. */
  class Recorder {
    var records: seq<Record>

    constructor ()
      ensures records == []
    {
      records := [];
    }

    method Record(r: Record)
      modifies this
      ensures records == old(records) + [r]
    {
      records := records + [r];
    }

    /** The guard's drop: latency first, then the gauge. */
    method DropGuard()
      modifies this
      ensures records == old(records) + [Observe, Dec]
    {
      Record(Observe);
      Record(Dec);
      assert old(records) + [Observe] + [Dec] == old(records) + [Observe, Dec];
    }

    /** The guarded part of a completion, with its four error sites. */
    method CompleteGuarded(reply: Reply) returns (r: Answer)
      modifies this
      ensures r == Guarded(reply).0 && records == old(records) + Guarded(reply).1
    {
      match reply {
        case NoAnswer(timedOut) =>
          var kind := if timedOut then Timeout else Transport;
          Record(Error(kind));
          return Err(kind);
        case Status(code, body) =>
          if !IsSuccess(code) {
            Record(Error(KindOfStatus(code)));
            return Err(KindOfStatus(code));
          }
          if body.None? {
            Record(Error(MalformedBody));
            return Err(MalformedBody);
          }
          if body.value.text.None? {
            Record(Error(EmptyContent));
            return Err(EmptyContent);
          }
          if body.value.usage.Some? {
            Record(Tokens(body.value.usage.value));
          }
          r := Ok(body.value.text.value);
      }
    }

    /** A completion call: the guard is entered first and dropped on every return path. */
    method Complete(reply: Reply) returns (r: Answer)
      modifies this
      ensures r == Guarded(reply).0
      ensures records == old(records) + Whole(reply)
    {
      Record(Inc);
      r := CompleteGuarded(reply);
      DropGuard();
    }
  }

  function Whole(reply: Reply): seq<Record> { [Inc] + Guarded(reply).1 + [Observe, Dec] }

  // ---------- Meters ----------

  datatype Meter = InFlight | Observations | Errors | TokenReports

  function Weight(m: Meter, r: Record): int
  {
    match (m, r)
    case (InFlight, Inc) => 1
    case (InFlight, Dec) => -1
    case (Observations, Observe) => 1
    case (Errors, Error(_)) => 1
    case (TokenReports, Tokens(_)) => 1
    case (_, _) => 0
  }

  function Total(m: Meter, records: seq<Record>): int
  {
    if records == [] then 0 else Weight(m, records[0]) + Total(m, records[1..])
  }

  /** A call that runs to its end leaves the gauge where it was, is timed once, and pays one error iff it fails. */
  lemma CompletedCallAccounts(reply: Reply)
    ensures Total(InFlight, Whole(reply)) == 0
    ensures Total(Observations, Whole(reply)) == 1
    ensures Total(Errors, Whole(reply)) == if Guarded(reply).0.Err? then 1 else 0
    ensures Total(TokenReports, Whole(reply)) > 0 ==> Guarded(reply).0.Ok?
    ensures Guarded(reply).0.Err? ==> Guarded(reply).1 == [Error(Guarded(reply).0.error)]
  {
    var inner := Guarded(reply).1;
    assert inner == [] || inner == [inner[0]];
    if inner == [] {
      assert Whole(reply) == [Inc, Observe, Dec];
      TotalOfThree(Inc, Observe, Dec);
    } else {
      assert Whole(reply) == [Inc] + [inner[0], Observe, Dec];
      assert Whole(reply)[1..] == [inner[0], Observe, Dec];
      TotalOfThree(inner[0], Observe, Dec);
      assert forall m :: Total(m, Whole(reply)) == Weight(m, Inc) + Total(m, Whole(reply)[1..]);
    }
  }

  lemma TotalOfThree(a: Record, b: Record, c: Record)
    ensures forall m :: Total(m, [a, b, c]) == Weight(m, a) + Weight(m, b) + Weight(m, c)
  {
    TotalOfTwo(b, c);
    forall m ensures Total(m, [a, b, c]) == Weight(m, a) + Weight(m, b) + Weight(m, c) {
      assert [a, b, c][1..] == [b, c];
    }
  }

  // ---------- Many calls at once ----------

  /** Where a call is suspended; the future of a suspended call may be dropped. */
  datatype Phase =
    | Sending
    | ReadingError(code: nat)
    | ReadingBody(code: nat)
    | Done(reply: Reply)
    | Dropped(was: Phase)

  datatype Call = Call(provider: string, phase: Phase)

  datatype Entry = Entry(call: nat, provider: string, record: Record)

  datatype World = World(calls: seq<Call>, log: seq<Entry>)

  datatype Action =
    | Enter(provider: string)
    | Answered(call: nat, timedOut: Option<bool>, code: nat)
    | ErrorBodyRead(call: nat)
    | BodyRead(call: nat, body: Option<Completion>)
    | Cancel(call: nat)

  /** The records a call makes on its way to its next suspension point; ending drops the guard. */
  function Advance(phase: Phase, a: Action): (Phase, seq<Record>)
    requires !a.Enter?
  {
    match (a, phase)
    case (Answered(_, timedOut, code), Sending) =>
      if timedOut.Some? then End(NoAnswer(timedOut.value), Guarded(NoAnswer(timedOut.value)).1)
      else if IsSuccess(code) then (ReadingBody(code), [])
      else (ReadingError(code), [Error(KindOfStatus(code))])
    case (ErrorBodyRead(_), ReadingError(code)) => End(Status(code, None), [])
    case (BodyRead(_, body), ReadingBody(code)) => End(Status(code, body), Guarded(Status(code, body)).1)
    case (Cancel(_), Sending) => (Dropped(phase), [Observe, Dec])
    case (Cancel(_), ReadingError(_)) => (Dropped(phase), [Observe, Dec])
    case (Cancel(_), ReadingBody(_)) => (Dropped(phase), [Observe, Dec])
    case (_, _) => (phase, [])
  }

  function End(reply: Reply, last: seq<Record>): (Phase, seq<Record>) { (Done(reply), last + [Observe, Dec]) }

  function Tagged(c: nat, provider: string, records: seq<Record>): (r: seq<Entry>)
    ensures |r| == |records| && forall i :: 0 <= i < |r| ==> r[i] == Entry(c, provider, records[i])
  {
    seq(|records|, i requires 0 <= i < |records| => Entry(c, provider, records[i]))
  }

  function Step(w: World, a: Action): World
  {
    match a
    case Enter(provider) => World(w.calls + [Call(provider, Sending)], w.log + Tagged(|w.calls|, provider, [Inc]))
    case _ =>
      if a.call >= |w.calls| then w
      else
        var call := w.calls[a.call];
        var (phase, made) := Advance(call.phase, a);
        World(w.calls[a.call := call.(phase := phase)], w.log + Tagged(a.call, call.provider, made))
  }

  /** Any interleaving at all, from nothing. */
  function Run(actions: seq<Action>): World
  {
    if actions == [] then World([], []) else Step(Run(actions[..|actions| - 1]), actions[|actions| - 1])
  }

  /** A meter's reading for one provider, from everything recorded so far. */
  function Reading(m: Meter, log: seq<Entry>, provider: string): int
  {
    if log == [] then 0
    else
      var last := log[|log| - 1];
      Reading(m, log[..|log| - 1], provider) + if last.provider == provider then Weight(m, last.record) else 0
  }

  /** A live guard: entered and neither returned nor dropped. */
  predicate Live(phase: Phase) { phase.Sending? || phase.ReadingError? || phase.ReadingBody? }

  /** The call failed as far as the provider is concerned: it returned an error, or its error status was seen. */
  predicate Failed(phase: Phase)
  {
    phase.ReadingError? || (phase.Dropped? && phase.was.ReadingError?) ||
    (phase.Done? && Guarded(phase.reply).0.Err?)
  }

  predicate ReportedTokens(phase: Phase)
  {
    phase.Done? && phase.reply.Status? && IsSuccess(phase.reply.code) && phase.reply.body.Some? &&
    phase.reply.body.value.text.Some? && phase.reply.body.value.usage.Some?
  }

  /** The calls a meter counts. */
  predicate Counts(m: Meter, phase: Phase)
  {
    match m
    case InFlight => Live(phase)
    case Observations => !Live(phase)
    case Errors => Failed(phase)
    case TokenReports => ReportedTokens(phase)
  }

  function CountedOn(m: Meter, provider: string): Call -> bool
  {
    (c: Call) => c.provider == provider && Counts(m, c.phase)
  }

  /** Error bodies are read after error statuses only, success bodies after success; only suspended calls drop. */
  predicate Reachable(phase: Phase)
  {
    match phase
    case ReadingError(code) => !IsSuccess(code)
    case ReadingBody(code) => IsSuccess(code)
    case Dropped(was) => Live(was) && Reachable(was)
    case _ => true
  }

  function Charge(m: Meter, phase: Phase): int { if Counts(m, phase) then 1 else 0 }

  lemma TotalOfTwo(a: Record, b: Record)
    ensures forall m :: Total(m, [a, b]) == Weight(m, a) + Weight(m, b)
    ensures forall m :: Total(m, [a]) == Weight(m, a)
  {
    forall m ensures Total(m, [a, b]) == Weight(m, a) + Weight(m, b) && Total(m, [a]) == Weight(m, a) {
      assert [a, b][1..] == [b] && [b][1..] == [] && [a][1..] == [];
      assert Total(m, [b]) == Weight(m, b) + Total(m, [b][1..]);
    }
  }

  /** Every step moves a meter by exactly the change in what the call contributes. */
  lemma AdvanceBalances(phase: Phase, a: Action, m: Meter)
    requires !a.Enter? && Reachable(phase)
    ensures var (next, made) := Advance(phase, a);
            Reachable(next) && Total(m, made) == Charge(m, next) - Charge(m, phase)
  {
    var (next, made) := Advance(phase, a);
    TotalOfTwo(Observe, Dec);
    if |made| == 1 { assert made == [made[0]]; TotalOfTwo(made[0], Dec); }
    if |made| == 2 { assert made == [Observe, Dec]; }
    if |made| == 3 { assert made == [made[0], Observe, Dec]; TotalOfThree(made[0], Observe, Dec); }
  }

  lemma {:induction false} ReadingTagged(
    m: Meter, log: seq<Entry>, who: nat, on: string, records: seq<Record>, provider: string)
    ensures Reading(m, log + Tagged(who, on, records), provider) ==
            Reading(m, log, provider) + if on == provider then Total(m, records) else 0
    decreases |records|
  {
    if records == [] {
      assert log + Tagged(who, on, records) == log;
    } else {
      var first, rest := records[0], records[1..];
      var next := log + [Entry(who, on, first)];
      assert log + Tagged(who, on, records) == next + Tagged(who, on, rest);
      ReadingTagged(m, next, who, on, rest, provider);
      assert next[..|next| - 1] == log;
    }
  }

  ghost predicate Inv(w: World)
  {
    && (forall c :: 0 <= c < |w.calls| ==> Reachable(w.calls[c].phase))
    && (forall m: Meter, provider: string :: Reading(m, w.log, provider) == Count(w.calls, CountedOn(m, provider)))
  }

  lemma StepBalances(w: World, a: Action, m: Meter, provider: string)
    requires forall c :: 0 <= c < |w.calls| ==> Reachable(w.calls[c].phase)
    requires Reading(m, w.log, provider) == Count(w.calls, CountedOn(m, provider))
    ensures Reading(m, Step(w, a).log, provider) == Count(Step(w, a).calls, CountedOn(m, provider))
  {
    if a.Enter? {
      ReadingTagged(m, w.log, |w.calls|, a.provider, [Inc], provider);
      TotalOfTwo(Inc, Inc);
      CountPush(w.calls, Call(a.provider, Sending), CountedOn(m, provider));
    } else if a.call < |w.calls| {
      var (phase, made) := Advance(w.calls[a.call].phase, a);
      AdvanceBalances(w.calls[a.call].phase, a, m);
      MoveBalances(w, a.call, phase, made, m, provider);
    }
  }

  lemma MoveBalances(w: World, i: nat, phase: Phase, made: seq<Record>, m: Meter, provider: string)
    requires i < |w.calls| && Reading(m, w.log, provider) == Count(w.calls, CountedOn(m, provider))
    requires Total(m, made) == Charge(m, phase) - Charge(m, w.calls[i].phase)
    ensures Reading(m, w.log + Tagged(i, w.calls[i].provider, made), provider) ==
            Count(w.calls[i := w.calls[i].(phase := phase)], CountedOn(m, provider))
  {
    ReadingTagged(m, w.log, i, w.calls[i].provider, made, provider);
    CountUpdate(w.calls, i, w.calls[i].(phase := phase), CountedOn(m, provider));
  }

  lemma StepKeepsInv(w: World, a: Action)
    requires Inv(w)
    ensures Inv(Step(w, a))
  {
    forall m: Meter, provider: string
      ensures Reading(m, Step(w, a).log, provider) == Count(Step(w, a).calls, CountedOn(m, provider))
    {
      StepBalances(w, a, m, provider);
    }
    if !a.Enter? && a.call < |w.calls| { AdvanceBalances(w.calls[a.call].phase, a, InFlight); }
  }

  lemma {:induction false} EveryRunKeepsInv(actions: seq<Action>)
    ensures Inv(Run(actions))
  {
    if actions != [] {
      EveryRunKeepsInv(actions[..|actions| - 1]);
      StepKeepsInv(Run(actions[..|actions| - 1]), actions[|actions| - 1]);
    }
  }

  /**
   In every interleaving, cancellations included, and for every provider: the gauge is the number of
   live guards, latency observations are the ended calls, errors are the calls that failed, and token
   reports the successful calls that carried usage.
   */
  lemma MetersAreExact(actions: seq<Action>, m: Meter, provider: string)
    ensures Reading(m, Run(actions).log, provider) == Count(Run(actions).calls, CountedOn(m, provider))
  {
    EveryRunKeepsInv(actions);
  }

  /** When no call is live the gauge is back at zero. */
  lemma GaugeDrains(actions: seq<Action>, provider: string)
    requires forall c :: c in Run(actions).calls ==> !Live(c.phase)
    ensures Reading(InFlight, Run(actions).log, provider) == 0
  {
    MetersAreExact(actions, InFlight, provider);
    CountPositive(Run(actions).calls, CountedOn(InFlight, provider));
  }

  // ---------- Per call ----------

  function DoneBy(log: seq<Entry>, c: nat): seq<Record>
  {
    if log == [] then []
    else
      var init, last := DoneBy(log[..|log| - 1], c), log[|log| - 1];
      if last.call == c then init + [last.record] else init
  }

  function Expected(phase: Phase): seq<Record>
  {
    match phase
    case Sending => [Inc]
    case ReadingError(code) => [Inc, Error(KindOfStatus(code))]
    case ReadingBody(_) => [Inc]
    case Done(reply) => Whole(reply)
    case Dropped(was) => Expected(was) + [Observe, Dec]
  }

  lemma {:induction false} DoneByTagged(log: seq<Entry>, c: nat, who: nat, on: string, records: seq<Record>)
    ensures DoneBy(log + Tagged(who, on, records), c) == DoneBy(log, c) + if who == c then records else []
    decreases |records|
  {
    var n := |records|;
    if n == 0 {
      assert log + Tagged(who, on, records) == log;
    } else {
      var init, last := records[..n - 1], records[n - 1];
      DoneByTagged(log, c, who, on, init);
      DoneBySnoc(log + Tagged(who, on, init), Entry(who, on, last), c);
      TaggedSnoc(log, who, on, records);
      Snoc(DoneBy(log, c), records);
    }
  }

  lemma TaggedSnoc(log: seq<Entry>, who: nat, on: string, records: seq<Record>)
    requires records != []
    ensures log + Tagged(who, on, records) ==
            log + Tagged(who, on, records[..|records| - 1]) + [Entry(who, on, records[|records| - 1])]
  {
  }

  lemma Snoc(before: seq<Record>, records: seq<Record>)
    requires records != []
    ensures before + records[..|records| - 1] + [records[|records| - 1]] == before + records
  {
  }

  lemma DoneBySnoc(log: seq<Entry>, e: Entry, c: nat)
    ensures DoneBy(log + [e], c) == DoneBy(log, c) + if e.call == c then [e.record] else []
  {
    assert (log + [e])[..|log|] == log;
  }

  lemma AdvanceKeepsExpectation(phase: Phase, a: Action)
    requires !a.Enter? && Reachable(phase)
    ensures var (next, made) := Advance(phase, a); Reachable(next) && Expected(next) == Expected(phase) + made
  {
    match (a, phase) {
      case (ErrorBodyRead(_), ReadingError(code)) =>
        assert Whole(Status(code, None)) == [Inc] + [Error(KindOfStatus(code))] + [Observe, Dec];
        assert [] + [Observe, Dec] == [Observe, Dec];
        assert [Inc] + [Error(KindOfStatus(code))] == [Inc, Error(KindOfStatus(code))];
      case (BodyRead(_, body), ReadingBody(code)) =>
        var last := Guarded(Status(code, body)).1;
        assert [Inc] + last + [Observe, Dec] == [Inc] + (last + [Observe, Dec]);
      case (Answered(_, timedOut, code), Sending) =>
        if timedOut.Some? {
          var last := Guarded(NoAnswer(timedOut.value)).1;
          assert [Inc] + last + [Observe, Dec] == [Inc] + (last + [Observe, Dec]);
        } else if !IsSuccess(code) {
          assert [Inc] + [Error(KindOfStatus(code))] == [Inc, Error(KindOfStatus(code))];
        }
      case (_, _) =>
    }
  }

  lemma {:induction false} EveryCallIsAccounted(actions: seq<Action>)
    ensures forall c :: 0 <= c < |Run(actions).calls| ==>
              Reachable(Run(actions).calls[c].phase) &&
              DoneBy(Run(actions).log, c) == Expected(Run(actions).calls[c].phase)
    ensures forall c: nat :: c >= |Run(actions).calls| ==> DoneBy(Run(actions).log, c) == []
  {
    if actions != [] {
      var before, a := actions[..|actions| - 1], actions[|actions| - 1];
      EveryCallIsAccounted(before);
      var w, next := Run(before), Run(actions);
      if a.Enter? {
        forall c: nat ensures DoneBy(next.log, c) == DoneBy(w.log, c) + if |w.calls| == c then [Inc] else [] {
          DoneByTagged(w.log, c, |w.calls|, a.provider, [Inc]);
        }
      } else if a.call < |w.calls| {
        var call := w.calls[a.call];
        var (phase, made) := Advance(call.phase, a);
        AdvanceKeepsExpectation(call.phase, a);
        forall c: nat ensures DoneBy(next.log, c) == DoneBy(w.log, c) + if a.call == c then made else [] {
          DoneByTagged(w.log, c, a.call, call.provider, made);
        }
      }
    }
  }

  /** What a call is told: how the request fared, and the body when the status is a success. */
  function Told(timedOut: Option<bool>, code: nat, body: Option<Completion>): Reply
  {
    if timedOut.Some? then NoAnswer(timedOut.value) else Status(code, if 200 <= code <= 299 then body else None)
  }

  /** A call that is told so, in any world, ends with just that reply; a live one can be dropped where it is. */
  lemma CallsEndWithTheirReply(w: World, c: nat, timedOut: Option<bool>, code: nat, body: Option<Completion>)
    requires c < |w.calls|
    ensures var end := Step(Step(Step(w, Answered(c, timedOut, code)), ErrorBodyRead(c)), BodyRead(c, body));
            w.calls[c].phase.Sending? ==>
              end.calls == w.calls[c := Call(w.calls[c].provider, Done(Told(timedOut, code, body)))]
    ensures Live(w.calls[c].phase) ==> Step(w, Cancel(c)).calls[c].phase == Dropped(w.calls[c].phase)
  {
  }

  /**
   A call that returned has, in the midst of all others, recorded exactly what it records alone:
   one error if it returned an error, none if it succeeded, tokens only on success.
   */
  lemma ReturnedCallsAreExact(actions: seq<Action>, c: nat)
    requires c < |Run(actions).calls| && Run(actions).calls[c].phase.Done?
    ensures var reply, made := Run(actions).calls[c].phase.reply, DoneBy(Run(actions).log, c);
            && made == Whole(reply)
            && Total(Errors, made) == (if Guarded(reply).0.Err? then 1 else 0)
            && (Total(TokenReports, made) > 0 ==> Guarded(reply).0.Ok?)
            && Total(InFlight, made) == 0 && Total(Observations, made) == 1
  {
    EveryCallIsAccounted(actions);
    CompletedCallAccounts(Run(actions).calls[c].phase.reply);
  }
}
