/** The executor's create / invoke / close session protocol, alone and under interleaving. */
module RuntimeSession {
  import opened Prelude
  import opened RuntimeRequest
  import opened RuntimeOutcome
  import opened Counting

  /** The gRPC status codes the executor tells apart. */
  datatype Code = NotFoundCode | InvalidArgument | FailedPrecondition | OtherCode

  datatype CreateReply = CreateFailed(code: Code) | NoSession | Session(id: string)

  datatype InvokeReply = InvokeFailed(code: Code) | NoInvocation | Answered(invocation: Invocation)

  datatype ExecError =
    | Malformed(request: RequestError) | NotFound | RejectedRequest | TransportError
    | NoSessionReturned | NoInvocationReturned | BadInvocation(outcome: OutcomeError)

  type Outcome = Result<Execution, ExecError>

  function StatusError(code: Code): ExecError
  {
    match code
    case NotFoundCode => NotFound
    case InvalidArgument => RejectedRequest
    case FailedPrecondition => RejectedRequest
    case OtherCode => TransportError
  }

  /** Which refusals of the runtime are told apart. */
  lemma StatusErrors(code: Code)
    ensures StatusError(code) == NotFound <==> code == NotFoundCode
    ensures StatusError(code) == RejectedRequest <==> code == InvalidArgument || code == FailedPrecondition
    ensures StatusError(code) == TransportError <==> code == OtherCode
  {
  }

  function InvokeOutcome(reply: InvokeReply): Outcome
  {
    match reply
    case InvokeFailed(code) => Err(StatusError(code))
    case NoInvocation => Err(NoInvocationReturned)
    case Answered(inv) =>
      var e := OutcomeOf(inv);
      if e.Ok? then Ok(e.value) else Err(BadInvocation(e.error))
  }

  /** What the executor does to the remote runtime, and the session it is told about. */
  datatype Event =
    | CreateSent | SessionCreated(session: string) | InvokeSent(session: string) | CloseSent(session: string)

  type Input = Result<Request, RequestError>

  /** One call running alone: its result and everything it did, as a function of the answers it gets. */
  function Solo(input: Input, create: CreateReply, invoke: InvokeReply): (Outcome, seq<Event>)
  {
    if input.Err? then (Err(Malformed(input.error)), [])
    else if input.value.sessionId.Some? then (InvokeOutcome(invoke), [InvokeSent(input.value.sessionId.value)])
    else match create
      case CreateFailed(code) => (Err(StatusError(code)), [CreateSent])
      case NoSession => (Err(NoSessionReturned), [CreateSent])
      case Session(s) => (InvokeOutcome(invoke), Owned(s))
  }

  /** The life of a session the executor created. */
  function Owned(s: string): seq<Event> { [CreateSent, SessionCreated(s), InvokeSent(s), CloseSent(s)] }

  /** The channel to the runtime, with a record of the requests sent over it. */
  class RuntimeChannel {
    var log: seq<Event>

    constructor ()
      ensures log == []
    {
      log := [];
    }

    method CreateSession(reply: CreateReply) returns (r: Result<string, ExecError>)
      modifies this
      ensures log == old(log) + [CreateSent] + if reply.Session? then [SessionCreated(reply.id)] else []
      ensures r == match reply
                   case CreateFailed(code) => Err(StatusError(code))
                   case NoSession => Err(NoSessionReturned)
                   case Session(s) => Ok(s)
    {
      log := log + [CreateSent];
      match reply {
        case CreateFailed(code) => r := Err(StatusError(code));
        case NoSession => r := Err(NoSessionReturned);
        case Session(s) =>
          log := log + [SessionCreated(s)];
          r := Ok(s);
      }
    }

    method InvokeTool(session: string)
      modifies this
      ensures log == old(log) + [InvokeSent(session)]
    {
      log := log + [InvokeSent(session)];
    }

    /** Best effort: whatever the runtime answers, the executor goes on. */
    method CloseSession(session: string, accepted: bool)
      modifies this
      ensures log == old(log) + [CloseSent(session)]
    {
      log := log + [CloseSent(session)];
    }

    /** One execution, against any answers of the runtime. */
    method Execute(input: Input, create: CreateReply, invoke: InvokeReply, closeAccepted: bool) returns (r: Outcome)
      modifies this
      ensures r == Solo(input, create, invoke).0
      ensures log == old(log) + Solo(input, create, invoke).1
    {
      if input.Err? {
        return Err(Malformed(input.error));
      }
      var session, createdHere := "", false;
      if input.value.sessionId.Some? {
        session := input.value.sessionId.value;
      } else {
        var made := CreateSession(create);
        if made.Err? {
          return Err(made.error);
        }
        session, createdHere := made.value, true;
      }
      InvokeTool(session);
      if createdHere {
        CloseSession(session, closeAccepted);
      }
      match invoke {
        case InvokeFailed(code) => r := Err(StatusError(code));
        case NoInvocation => r := Err(NoInvocationReturned);
        case Answered(inv) =>
          var e := OutcomeOf(inv);
          r := if e.Ok? then Ok(e.value) else Err(BadInvocation(e.error));
      }
    }
  }

  // ---------- Many calls at once ----------

  /** Where a call is suspended. Awaiting phases may be cancelled: the call's future is dropped there. */
  datatype Phase =
    | Fresh
    | Creating
    | Invoking(session: string, owned: bool)
    | Closing(session: string, invoked: InvokeReply)
    | Returned(create: CreateReply, invoke: InvokeReply, result: Outcome)
    | Cancelled(was: Phase)

  datatype Call = Call(input: Input, phase: Phase)

  datatype Entry = Entry(call: nat, event: Event)

  datatype World = World(calls: seq<Call>, log: seq<Entry>)

  datatype Action =
    | Spawn(input: Input)
    | Start(call: nat)
    | CreateAnswer(call: nat, create: CreateReply)
    | InvokeAnswer(call: nat, invoke: InvokeReply)
    | CloseAnswer(call: nat, accepted: bool)
    | Cancel(call: nat)

  /** A call moves to its next suspension point, sending what it sends on the way there. */
  function Advance(call: Call, a: Action): (Phase, seq<Event>)
    requires !a.Spawn?
  {
    match (a, call.phase)
    case (Start(_), Fresh) =>
      if call.input.Err? then (Returned(NoSession, NoInvocation, Err(Malformed(call.input.error))), [])
      else if call.input.value.sessionId.Some? then
        var s := call.input.value.sessionId.value;
        (Invoking(s, false), [InvokeSent(s)])
      else (Creating, [CreateSent])
    case (CreateAnswer(_, reply), Creating) =>
      (match reply
       case CreateFailed(code) => (Returned(reply, NoInvocation, Err(StatusError(code))), [])
       case NoSession => (Returned(reply, NoInvocation, Err(NoSessionReturned)), [])
       case Session(s) => (Invoking(s, true), [SessionCreated(s), InvokeSent(s)]))
    case (InvokeAnswer(_, reply), Invoking(s, owned)) =>
      if owned then (Closing(s, reply), [CloseSent(s)]) else (Returned(NoSession, reply, InvokeOutcome(reply)), [])
    case (CloseAnswer(_, _), Closing(s, reply)) => (Returned(Session(s), reply, InvokeOutcome(reply)), [])
    case (Cancel(_), Creating) => (Cancelled(call.phase), [])
    case (Cancel(_), Invoking(_, _)) => (Cancelled(call.phase), [])
    case (Cancel(_), Closing(_, _)) => (Cancelled(call.phase), [])
    case (_, _) => (call.phase, [])
  }

  function Tagged(c: nat, events: seq<Event>): (r: seq<Entry>)
    ensures |r| == |events| && forall i :: 0 <= i < |r| ==> r[i] == Entry(c, events[i])
  {
    seq(|events|, i requires 0 <= i < |events| => Entry(c, events[i]))
  }

  /** One step of the world; an action that does not apply changes nothing. */
  function Step(w: World, a: Action): World
  {
    match a
    case Spawn(input) => w.(calls := w.calls + [Call(input, Fresh)])
    case _ =>
      if a.call >= |w.calls| then w
      else
        var (phase, sent) := Advance(w.calls[a.call], a);
        World(w.calls[a.call := w.calls[a.call].(phase := phase)], w.log + Tagged(a.call, sent))
  }

  /** Any interleaving at all, from nothing. */
  function Run(actions: seq<Action>): World
  {
    if actions == [] then World([], []) else Step(Run(actions[..|actions| - 1]), actions[|actions| - 1])
  }

  /** What one call has done so far. */
  function DoneBy(log: seq<Entry>, c: nat): seq<Event>
  {
    if log == [] then []
    else
      var init, last := DoneBy(log[..|log| - 1], c), log[|log| - 1];
      if last.call == c then init + [last.event] else init
  }

  /** What a call must have done, given where it is. */
  function Expected(input: Input, phase: Phase): seq<Event>
  {
    match phase
    case Fresh => []
    case Creating => [CreateSent]
    case Invoking(s, owned) => if owned then Owned(s)[..3] else [InvokeSent(s)]
    case Closing(s, _) => Owned(s)
    case Returned(create, invoke, _) => Solo(input, create, invoke).1
    case Cancelled(was) => Expected(input, was)
  }

  /** Phases agree with the input that led there, and results with the answers received. */
  predicate Consistent(input: Input, phase: Phase)
  {
    match phase
    case Fresh => true
    case Creating => input.Ok? && input.value.sessionId.None?
    case Invoking(s, owned) => input.Ok? && input.value.sessionId == if owned then None else Some(s)
    case Closing(_, _) => input.Ok? && input.value.sessionId.None?
    case Returned(create, invoke, result) => result == Solo(input, create, invoke).0
    case Cancelled(was) => (was.Creating? || was.Invoking? || was.Closing?) && Consistent(input, was)
  }

  lemma AdvanceKeepsExpectation(call: Call, a: Action)
    requires !a.Spawn? && Consistent(call.input, call.phase)
    ensures var (phase, sent) := Advance(call, a);
            && Consistent(call.input, phase)
            && Expected(call.input, phase) == Expected(call.input, call.phase) + sent
  {
    var (phase, sent) := Advance(call, a);
    match (a, call.phase) {
      case (InvokeAnswer(_, _), Invoking(s, owned)) =>
        if owned { assert Owned(s) == Owned(s)[..3] + [CloseSent(s)]; }
      case (CreateAnswer(_, reply), Creating) =>
        if reply.Session? {
          assert Owned(reply.id)[..3] == [CreateSent] + [SessionCreated(reply.id), InvokeSent(reply.id)];
        }
      case (_, _) =>
    }
  }

  lemma {:induction false} DoneByTagged(log: seq<Entry>, c: nat, who: nat, events: seq<Event>)
    ensures DoneBy(log + Tagged(who, events), c) == DoneBy(log, c) + if who == c then events else []
    decreases |events|
  {
    var n := |events|;
    if n == 0 {
      assert log + Tagged(who, events) == log;
    } else {
      var init, last := events[..n - 1], events[n - 1];
      DoneByTagged(log, c, who, init);
      DoneBySnoc(log + Tagged(who, init), Entry(who, last), c);
      TaggedSnoc(log, who, events);
      Snoc(DoneBy(log, c), events);
    }
  }

  lemma TaggedSnoc(log: seq<Entry>, who: nat, events: seq<Event>)
    requires events != []
    ensures log + Tagged(who, events) ==
            log + Tagged(who, events[..|events| - 1]) + [Entry(who, events[|events| - 1])]
  {
  }

  lemma Snoc(before: seq<Event>, events: seq<Event>)
    requires events != []
    ensures before + events[..|events| - 1] + [events[|events| - 1]] == before + events
  {
  }

  lemma DoneBySnoc(log: seq<Entry>, e: Entry, c: nat)
    ensures DoneBy(log + [e], c) == DoneBy(log, c) + if e.call == c then [e.event] else []
  {
    assert (log + [e])[..|log|] == log;
  }

  ghost predicate Inv(w: World)
  {
    && (forall c :: 0 <= c < |w.calls| ==>
          Consistent(w.calls[c].input, w.calls[c].phase) &&
          DoneBy(w.log, c) == Expected(w.calls[c].input, w.calls[c].phase))
    && (forall c: nat :: c >= |w.calls| ==> DoneBy(w.log, c) == [])
  }

  lemma StepKeepsInv(w: World, a: Action)
    requires Inv(w)
    ensures Inv(Step(w, a))
  {
    if !a.Spawn? && a.call < |w.calls| {
      var (phase, sent) := Advance(w.calls[a.call], a);
      AdvanceKeepsExpectation(w.calls[a.call], a);
      forall c: nat ensures DoneBy(Step(w, a).log, c) == DoneBy(w.log, c) + if a.call == c then sent else [] {
        DoneByTagged(w.log, c, a.call, sent);
      }
    }
  }

  lemma {:induction false} EveryRunKeepsInv(actions: seq<Action>)
    ensures Inv(Run(actions))
  {
    if actions != [] {
      EveryRunKeepsInv(actions[..|actions| - 1]);
      StepKeepsInv(Run(actions[..|actions| - 1]), actions[|actions| - 1]);
    }
  }

  // ---------- What every interleaving guarantees ----------

  /** A call that returned did, in the midst of all others, exactly what it would have done alone. */
  lemma ReturnedCallsRanAlone(actions: seq<Action>, c: nat)
    requires c < |Run(actions).calls| && Run(actions).calls[c].phase.Returned?
    ensures var call := Run(actions).calls[c];
            Solo(call.input, call.phase.create, call.phase.invoke) == (call.phase.result, DoneBy(Run(actions).log, c))
  {
    EveryRunKeepsInv(actions);
  }

  /** The actions of a run that reached call `c`. */
  function Own(actions: seq<Action>, c: nat): (own: seq<Action>)
    ensures forall a :: a in own ==> !a.Spawn?
  {
    if actions == [] then []
    else
      var init, a := actions[..|actions| - 1], actions[|actions| - 1];
      if !a.Spawn? && a.call == c < |Run(init).calls| then Own(init, c) + [a] else Own(init, c)
  }

  /** Where an action takes a call. */
  function Fed(input: Input, phase: Phase, a: Action): Phase
    requires !a.Spawn?
  {
    Advance(Call(input, phase), a).0
  }

  /** Where the actions that reached a call take it, with no other call about. */
  function Lone(input: Input, own: seq<Action>): Phase
    requires forall a :: a in own ==> !a.Spawn?
  {
    if own == [] then Fresh
    else Fed(input, Lone(input, own[..|own| - 1]), own[|own| - 1])
  }

  lemma {:induction false} OwnActionsDecide(actions: seq<Action>, c: nat)
    ensures if c >= |Run(actions).calls| then Own(actions, c) == []
            else Run(actions).calls[c].phase == Lone(Run(actions).calls[c].input, Own(actions, c))
  {
    if actions != [] {
      var init, a := actions[..|actions| - 1], actions[|actions| - 1];
      OwnActionsDecide(init, c);
      if !a.Spawn? && a.call == c < |Run(init).calls| { LoneMore(Run(init).calls[c].input, Own(init, c), a); }
    }
  }

  lemma LoneMore(input: Input, own: seq<Action>, a: Action)
    requires !a.Spawn? && forall b :: b in own ==> !b.Spawn?
    ensures Lone(input, own + [a]) == Fed(input, Lone(input, own), a)
  {
    assert (own + [a])[..|own|] == own;
  }

  /** The answers a call is given, whatever the close answers. */
  function Given(c: nat, create: CreateReply, invoke: InvokeReply, closed: bool): seq<Action>
  {
    [] + [Start(c)] + [CreateAnswer(c, create)] + [InvokeAnswer(c, invoke)] + [CloseAnswer(c, closed)]
  }

  lemma FedCompletes(input: Input, c: nat, create: CreateReply, invoke: InvokeReply, closed: bool)
    ensures var created := Fed(input, Fed(input, Fresh, Start(c)), CreateAnswer(c, create));
            var end := Fed(input, Fed(input, created, InvokeAnswer(c, invoke)), CloseAnswer(c, closed));
            end.Returned? && Solo(input, end.create, end.invoke) == Solo(input, create, invoke)
  {
  }

  lemma LoneIsFed(input: Input, c: nat, create: CreateReply, invoke: InvokeReply, closed: bool)
    ensures var created := Fed(input, Fed(input, Fresh, Start(c)), CreateAnswer(c, create));
            Lone(input, Given(c, create, invoke, closed)) ==
            Fed(input, Fed(input, created, InvokeAnswer(c, invoke)), CloseAnswer(c, closed))
  {
    LoneMore(input, [], Start(c));
    LoneMore(input, [] + [Start(c)], CreateAnswer(c, create));
    LoneMore(input, [] + [Start(c)] + [CreateAnswer(c, create)], InvokeAnswer(c, invoke));
    LoneMore(input, [] + [Start(c)] + [CreateAnswer(c, create)] + [InvokeAnswer(c, invoke)], CloseAnswer(c, closed));
  }

  /** In every interleaving, a call given these answers returns with what they make of it alone. */
  lemma AnsweredCallsComplete(
    actions: seq<Action>, c: nat, create: CreateReply, invoke: InvokeReply, closed: bool)
    requires c < |Run(actions).calls| && Own(actions, c) == Given(c, create, invoke, closed)
    ensures var call := Run(actions).calls[c];
            && call.phase.Returned?
            && (call.phase.result, DoneBy(Run(actions).log, c)) == Solo(call.input, create, invoke)
  {
    OwnActionsDecide(actions, c);
    var input := Run(actions).calls[c].input;
    LoneIsFed(input, c, create, invoke, closed);
    FedCompletes(input, c, create, invoke, closed);
    ReturnedCallsRanAlone(actions, c);
  }

  predicate Suspended(phase: Phase) { phase.Creating? || phase.Invoking? || phase.Closing? }

  /** A suspended call can be dropped at any time, and doing so sends nothing. */
  lemma SuspendedCallsCanBeDropped(actions: seq<Action>, c: nat)
    requires c < |Run(actions).calls| && Suspended(Run(actions).calls[c].phase)
    ensures var w, next := Run(actions), Run(actions + [Cancel(c)]);
            && next.calls == w.calls[c := Call(w.calls[c].input, Cancelled(w.calls[c].phase))]
            && next.log == w.log
  {
    RunMore(actions, Cancel(c));
  }

  /** Nothing that happens later touches a call that returned or was dropped, or makes it send anything. */
  lemma {:induction false} FinishedCallsStay(actions: seq<Action>, more: seq<Action>, c: nat)
    requires c < |Run(actions).calls|
    requires Run(actions).calls[c].phase.Returned? || Run(actions).calls[c].phase.Cancelled?
    ensures c < |Run(actions + more).calls| && Run(actions + more).calls[c] == Run(actions).calls[c]
    ensures DoneBy(Run(actions + more).log, c) == DoneBy(Run(actions).log, c)
  {
    if more == [] {
      assert actions + more == actions;
    } else {
      var init, a := more[..|more| - 1], more[|more| - 1];
      FinishedCallsStay(actions, init, c);
      assert actions + more == actions + init + [a];
      RunMore(actions + init, a);
      FinishedCallStays(Run(actions + init), a, c);
    }
  }

  lemma FinishedCallStays(w: World, a: Action, c: nat)
    requires c < |w.calls| && (w.calls[c].phase.Returned? || w.calls[c].phase.Cancelled?)
    ensures c < |Step(w, a).calls| && Step(w, a).calls[c] == w.calls[c] && DoneBy(Step(w, a).log, c) == DoneBy(w.log, c)
  {
    if !a.Spawn? && a.call < |w.calls| { DoneByTagged(w.log, c, a.call, Advance(w.calls[a.call], a).1); }
  }

  predicate Opened(done: seq<Event>) { exists e :: e in done && e.SessionCreated? }

  predicate CloseAttempted(done: seq<Event>) { exists e :: e in done && e.CloseSent? }

  /** Between having created its session and attempting to close it. */
  predicate Holding(phase: Phase) { phase.Invoking? && phase.owned }

  lemma OpenMeansHolding(input: Input, phase: Phase)
    requires Consistent(input, phase)
    ensures Opened(Expected(input, phase)) && !CloseAttempted(Expected(input, phase)) <==>
            Holding(phase) || (phase.Cancelled? && Holding(phase.was))
  {
    match phase {
      case Invoking(s, owned) =>
        if owned { assert Owned(s)[..3][1] == SessionCreated(s); }
      case Closing(s, _) => assert Owned(s)[3] == CloseSent(s);
      case Returned(create, invoke, _) =>
        if create.Session? { assert Owned(create.id)[3] == CloseSent(create.id); }
      case Cancelled(was) => OpenMeansHolding(input, was);
      case _ =>
    }
  }

  /**
   Call by call: the session a call was told it created has no close attempt by that call exactly
   while the call is between create and close, live or cancelled there.
   */
  lemma OpenSessionsAreHeld(actions: seq<Action>, c: nat)
    requires c < |Run(actions).calls|
    ensures var w := Run(actions);
            Opened(DoneBy(w.log, c)) && !CloseAttempted(DoneBy(w.log, c)) <==>
            Holding(w.calls[c].phase) || (w.calls[c].phase.Cancelled? && Holding(w.calls[c].phase.was))
  {
    EveryRunKeepsInv(actions);
    OpenMeansHolding(Run(actions).calls[c].input, Run(actions).calls[c].phase);
  }

  /** A returned call leaves no session open, whatever the invocation or the close answered. */
  lemma ReturnedCallsCloseTheirSession(actions: seq<Action>, c: nat)
    requires c < |Run(actions).calls| && Run(actions).calls[c].phase.Returned?
    ensures var done := DoneBy(Run(actions).log, c);
            Opened(done) ==> exists s :: done == Owned(s)
  {
    EveryRunKeepsInv(actions);
    var call := Run(actions).calls[c];
    SoloClosesItsSession(call.input, call.phase.create, call.phase.invoke);
  }

  lemma SoloClosesItsSession(input: Input, create: CreateReply, invoke: InvokeReply)
    ensures Opened(Solo(input, create, invoke).1) ==>
              create.Session? && Solo(input, create, invoke).1 == Owned(create.id)
  {
  }

  lemma ExpectedDiscipline(input: Input, phase: Phase)
    requires Consistent(input, phase)
    ensures input.Err? ==> Expected(input, phase) == []
    ensures input.Ok? && input.value.sessionId.Some? ==>
              Expected(input, phase) <= [InvokeSent(input.value.sessionId.value)]
    ensures input.Ok? && input.value.sessionId.None? ==> exists s :: Expected(input, phase) <= Owned(s)
  {
    match phase {
      case Cancelled(was) => ExpectedDiscipline(input, was);
      case Invoking(s, owned) => if owned { assert Owned(s)[..3] <= Owned(s); }
      case Closing(s, _) => assert Owned(s) <= Owned(s);
      case Returned(create, _, _) =>
        if create.Session? { assert Owned(create.id) <= Owned(create.id); } else { assert [CreateSent] <= Owned(""); }
      case _ => assert [CreateSent] <= Owned("") && [] <= Owned("");
    }
  }

  /**
   What every call does by its own hand: with a malformed request nothing, with a supplied session one
   invoke, and otherwise create, one invoke and one close, in that order.
   */
  lemma CallDiscipline(actions: seq<Action>, c: nat)
    requires c < |Run(actions).calls|
    ensures var input, done := Run(actions).calls[c].input, DoneBy(Run(actions).log, c);
            && (input.Err? ==> done == [])
            && (input.Ok? && input.value.sessionId.Some? ==> done <= [InvokeSent(input.value.sessionId.value)])
            && (input.Ok? && input.value.sessionId.None? ==> exists s :: done <= Owned(s))
  {
    EveryRunKeepsInv(actions);
    ExpectedDiscipline(Run(actions).calls[c].input, Run(actions).calls[c].phase);
  }

  // ---------- Sessions by id, over everybody's log ----------

  function Logged(e: Event): Entry -> bool { (x: Entry) => x.event == e }

  function IsEvent(e: Event): Event -> bool { (x: Event) => x == e }

  /** The call has caused this event. */
  function Did(e: Event): Call -> bool { (c: Call) => e in Expected(c.input, c.phase) }

  lemma {:induction false} CountTagged(log: seq<Entry>, who: nat, events: seq<Event>, e: Event)
    ensures Count(log + Tagged(who, events), Logged(e)) == Count(log, Logged(e)) + Count(events, IsEvent(e))
    decreases |events|
  {
    if events == [] {
      assert log + Tagged(who, events) == log;
    } else {
      var next := log + [Entry(who, events[0])];
      assert log + Tagged(who, events) == next + Tagged(who, events[1..]);
      CountTagged(next, who, events[1..], e);
      CountPush(log, Entry(who, events[0]), Logged(e));
    }
  }

  predicate Distinct(events: seq<Event>) { forall i, j :: 0 <= i < j < |events| ==> events[i] != events[j] }

  /** No call causes the same event twice. */
  lemma ExpectedOnce(input: Input, phase: Phase)
    ensures Distinct(Expected(input, phase))
  {
    if phase.Cancelled? { ExpectedOnce(input, phase.was); }
  }

  lemma {:induction false} CountOnce(events: seq<Event>, e: Event)
    requires Distinct(events)
    ensures Count(events, IsEvent(e)) == if e in events then 1 else 0
  {
    if events != [] {
      CountOnce(events[1..], e);
      assert events == [events[0]] + events[1..];
      assert forall j :: 0 <= j < |events[1..]| ==> events[1..][j] == events[j + 1] != events[0];
    }
  }

  lemma AdvanceCounts(call: Call, a: Action, e: Event)
    requires !a.Spawn? && Consistent(call.input, call.phase)
    ensures var (phase, sent) := Advance(call, a);
            Count(sent, IsEvent(e)) ==
            (if e in Expected(call.input, phase) then 1 else 0) - if e in Expected(call.input, call.phase) then 1 else 0
  {
    var (phase, sent) := Advance(call, a);
    AdvanceKeepsExpectation(call, a);
    ExpectedOnce(call.input, call.phase);
    ExpectedOnce(call.input, phase);
    CountOnce(Expected(call.input, call.phase), e);
    CountOnce(Expected(call.input, phase), e);
    CountConcat(Expected(call.input, call.phase), sent, IsEvent(e));
  }

  lemma MoveCounts(w: World, i: nat, phase: Phase, sent: seq<Event>, e: Event)
    requires i < |w.calls| && Count(w.log, Logged(e)) == Count(w.calls, Did(e))
    requires Count(sent, IsEvent(e)) ==
             (if e in Expected(w.calls[i].input, phase) then 1 else 0)
             - if e in Expected(w.calls[i].input, w.calls[i].phase) then 1 else 0
    ensures Count(w.log + Tagged(i, sent), Logged(e)) == Count(w.calls[i := w.calls[i].(phase := phase)], Did(e))
  {
    CountTagged(w.log, i, sent, e);
    CountUpdate(w.calls, i, w.calls[i].(phase := phase), Did(e));
  }

  /**
   The census: in every interleaving the log holds any event, about any session, exactly as often as
   there are calls that caused it.
   */
  lemma {:induction false} EventCensus(actions: seq<Action>, e: Event)
    ensures Count(Run(actions).log, Logged(e)) == Count(Run(actions).calls, Did(e))
  {
    if actions != [] {
      var before, a := actions[..|actions| - 1], actions[|actions| - 1];
      EventCensus(before, e);
      EveryRunKeepsInv(before);
      var w := Run(before);
      if a.Spawn? {
        CountPush(w.calls, Call(a.input, Fresh), Did(e));
      } else if a.call < |w.calls| {
        var (phase, sent) := Advance(w.calls[a.call], a);
        AdvanceCounts(w.calls[a.call], a, e);
        MoveCounts(w, a.call, phase, sent, e);
      }
    }
  }

  /** The session a call has created and not yet tried to close. */
  function Held(phase: Phase): Option<string>
  {
    match phase
    case Invoking(s, owned) => if owned then Some(s) else None
    case Cancelled(was) => Held(was)
    case _ => None
  }

  function Holds(s: string): Call -> bool { (c: Call) => Held(c.phase) == Some(s) }

  lemma CreatedIsClosedOrHeld(input: Input, phase: Phase, s: string)
    requires Consistent(input, phase)
    ensures SessionCreated(s) in Expected(input, phase) <==>
            CloseSent(s) in Expected(input, phase) || Held(phase) == Some(s)
    ensures !(CloseSent(s) in Expected(input, phase) && Held(phase) == Some(s))
  {
    match phase {
      case Cancelled(was) => CreatedIsClosedOrHeld(input, was, s);
      case Invoking(t, owned) => if owned { assert Owned(t)[..3][1] == SessionCreated(t); }
      case Closing(t, _) => assert Owned(t)[1] == SessionCreated(t) && Owned(t)[3] == CloseSent(t);
      case Returned(create, _, _) =>
        if create.Session? {
          assert Owned(create.id)[1] == SessionCreated(create.id) && Owned(create.id)[3] == CloseSent(create.id);
        }
      case _ =>
    }
  }

  /**
   Conservation, session by session and over all calls at once: as many creations of `s` as close
   attempts on `s` and calls, live or cancelled, that still hold it.
   */
  lemma SessionsAreConserved(actions: seq<Action>, s: string)
    ensures var w := Run(actions);
            Count(w.log, Logged(SessionCreated(s))) == Count(w.log, Logged(CloseSent(s))) + Count(w.calls, Holds(s))
  {
    var w := Run(actions);
    EveryRunKeepsInv(actions);
    EventCensus(actions, SessionCreated(s));
    EventCensus(actions, CloseSent(s));
    forall c | c in w.calls
      ensures Did(SessionCreated(s))(c) <==> Did(CloseSent(s))(c) || Holds(s)(c)
      ensures !(Did(CloseSent(s))(c) && Holds(s)(c))
    {
      CreatedIsClosedOrHeld(c.input, c.phase, s);
    }
    CountSplit(w.calls, Did(SessionCreated(s)), Did(CloseSent(s)), Holds(s));
  }

  predicate InLog(log: seq<Entry>, e: Event) { exists x :: x in log && x.event == e }

  /** So a session is left unclosed exactly as long as every call that was handed it still holds it. */
  lemma UnclosedIffAllHeld(actions: seq<Action>, s: string)
    ensures var w := Run(actions);
            !InLog(w.log, CloseSent(s)) <==> Count(w.calls, Holds(s)) == Count(w.log, Logged(SessionCreated(s)))
  {
    SessionsAreConserved(actions, s);
    CountPositive(Run(actions).log, Logged(CloseSent(s)));
    InLogMeans(Run(actions).log, CloseSent(s));
  }

  lemma InLogMeans(log: seq<Entry>, e: Event)
    ensures InLog(log, e) <==> exists x :: x in log && Logged(e)(x)
  {
    if x :| x in log && x.event == e { assert Logged(e)(x); }
    if x :| x in log && Logged(e)(x) { assert x.event == e; }
  }

  /** Some call was given `s` by its caller. */
  predicate Supplied(w: World, s: string)
  {
    exists c :: c in w.calls && c.input.Ok? && c.input.value.sessionId == Some(s)
  }

  /** Nothing closes a session that no create was answered with, whoever else uses it. */
  lemma OnlyCreatedSessionsAreClosed(actions: seq<Action>, s: string)
    requires InLog(Run(actions).log, CloseSent(s))
    ensures InLog(Run(actions).log, SessionCreated(s))
  {
    SessionsAreConserved(actions, s);
    var log := Run(actions).log;
    InLogMeans(log, CloseSent(s));
    InLogMeans(log, SessionCreated(s));
    CountPositive(log, Logged(CloseSent(s)));
    CountPositive(log, Logged(SessionCreated(s)));
  }

  /** No create was answered with an id some caller supplied. */
  predicate IdsApart(w: World) { forall x :: x in w.log && x.event.SessionCreated? ==> !Supplied(w, x.event.session) }

  /** No supplied session was closed. */
  predicate SuppliedUntouched(w: World)
  {
    forall x :: x in w.log && x.event.CloseSent? ==> !Supplied(w, x.event.session)
  }

  /** As long as the runtime never hands out an id that a caller supplies, no supplied session is ever closed. */
  lemma ApartIdsProtectSupplied(actions: seq<Action>)
    requires IdsApart(Run(actions))
    ensures SuppliedUntouched(Run(actions))
  {
    var w := Run(actions);
    forall x | x in w.log && x.event.CloseSent? ensures !Supplied(w, x.event.session) {
      OnlyCreatedSessionsAreClosed(actions, x.event.session);
    }
  }

  /** And exactly then, once every call has returned. */
  lemma SuppliedUntouchedIffIdsApart(actions: seq<Action>)
    requires forall c :: c in Run(actions).calls ==> c.phase.Returned?
    ensures SuppliedUntouched(Run(actions)) <==> IdsApart(Run(actions))
  {
    var w := Run(actions);
    if IdsApart(w) {
      ApartIdsProtectSupplied(actions);
    } else {
      var x :| x in w.log && x.event.SessionCreated? && Supplied(w, x.event.session);
      var s := x.event.session;
      CountPositive(w.calls, Holds(s));
      CountPositive(w.log, Logged(SessionCreated(s)));
      assert Logged(SessionCreated(s))(x);
      UnclosedIffAllHeld(actions, s);
      assert InLog(w.log, CloseSent(s));
    }
  }

  lemma RunMore(actions: seq<Action>, a: Action)
    ensures Run(actions + [a]) == Step(Run(actions), a)
  {
    assert (actions + [a])[..|actions|] == actions;
  }

  /**
   The condition is needed: a call whose create is answered with a session another call was given
   closes it while that other call's invocation is still running.
   */
  lemma SuppliedSessionClosedByAnother(mine: Request, other: Request, s: string, reply: InvokeReply)
    requires mine.sessionId == Some(s) && other.sessionId.None?
    ensures var w := Run([Spawn(Ok(mine)), Spawn(Ok(other)), Start(0), Start(1), CreateAnswer(1, Session(s)),
                          InvokeAnswer(1, reply)]);
            && w.calls == [Call(Ok(mine), Invoking(s, false)), Call(Ok(other), Closing(s, reply))]
            && InLog(w.log, CloseSent(s)) && !SuppliedUntouched(w)
  {
    var a2 := [Spawn(Ok(mine)), Spawn(Ok(other))];
    var a4 := a2 + [Start(0)] + [Start(1)];
    var a6 := a4 + [CreateAnswer(1, Session(s))] + [InvokeAnswer(1, reply)];
    assert a2 == [] + [Spawn(Ok(mine))] + [Spawn(Ok(other))];
    RunMore([], Spawn(Ok(mine)));
    RunMore([] + [Spawn(Ok(mine))], Spawn(Ok(other)));
    assert Run(a2) == World([Call(Ok(mine), Fresh), Call(Ok(other), Fresh)], []);
    RunMore(a2, Start(0));
    RunMore(a2 + [Start(0)], Start(1));
    assert Run(a4).calls == [Call(Ok(mine), Invoking(s, false)), Call(Ok(other), Creating)];
    RunMore(a4, CreateAnswer(1, Session(s)));
    RunMore(a4 + [CreateAnswer(1, Session(s))], InvokeAnswer(1, reply));
    var w := Run(a6);
    assert w.calls == [Call(Ok(mine), Invoking(s, false)), Call(Ok(other), Closing(s, reply))];
    assert w.log[|w.log| - 1] == Entry(1, CloseSent(s)) && w.log[|w.log| - 1] in w.log;
    assert w.calls[0] in w.calls;
    assert a6 == [Spawn(Ok(mine)), Spawn(Ok(other)), Start(0), Start(1), CreateAnswer(1, Session(s)),
                  InvokeAnswer(1, reply)];
  }

  /** Cancellation can leak: dropping a call while its own session's invocation runs leaves that session open. */
  lemma CancelledCallLeaks(r: Request, s: string)
    requires r.sessionId.None?
    ensures var w := Run([Spawn(Ok(r)), Start(0), CreateAnswer(0, Session(s)), Cancel(0)]);
            && |w.calls| == 1 && w.calls[0].phase == Cancelled(Invoking(s, true))
            && Opened(DoneBy(w.log, 0)) && !CloseAttempted(DoneBy(w.log, 0))
  {
    var a := [Spawn(Ok(r)), Start(0), CreateAnswer(0, Session(s)), Cancel(0)];
    assert a[..3][..2] == [Spawn(Ok(r)), Start(0)] && a[..3] == [Spawn(Ok(r)), Start(0), CreateAnswer(0, Session(s))];
    assert [Spawn(Ok(r)), Start(0)][..1] == [Spawn(Ok(r))] && [Spawn(Ok(r))][..0] == [];
    assert Run([Spawn(Ok(r))]) == World([Call(Ok(r), Fresh)], []);
    assert Run([Spawn(Ok(r)), Start(0)]).calls == [Call(Ok(r), Creating)];
    assert Run(a[..3]).calls == [Call(Ok(r), Invoking(s, true))];
    assert Run(a).calls == [Call(Ok(r), Cancelled(Invoking(s, true)))];
    OpenSessionsAreHeld(a, 0);
  }
}
