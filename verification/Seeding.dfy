/** Start-up seeding of agents, councils and output contracts into registries that never overwrite. */
module Seeding {
  import opened Prelude
  import opened Text
  import Utf8
  import Participants

  datatype DomainError = EmptyField | FieldTooLong | InvalidCharacters | AlreadyExists | StorageFailed

  const MAX_SPECIALTY_LEN: nat := 128
  const MAX_ID_LEN: nat := 256

  /** Specialties and identifiers alike: trimmed, non-empty, bounded in bytes, free of control characters. */
  function Validate(raw: string, maxBytes: nat): Result<string, DomainError>
  {
    Inspect(Trim(raw), maxBytes)
  }

  function Inspect(t: string, maxBytes: nat): Result<string, DomainError>
  {
    if t == [] then Err(EmptyField)
    else if |Utf8.Encode(t)| > maxBytes then Err(FieldTooLong)
    else if exists c :: c in t && Participants.IsControl(c) then Err(InvalidCharacters)
    else Ok(t)
  }

  /** A text is accepted as it stands exactly when it needs no trimming, fits and has no control character. */
  lemma AcceptedAsItStands(s: string, maxBytes: nat)
    ensures Validate(s, maxBytes) == Ok(s) <==> Participants.Accepted(s, maxBytes)
  {
    if Tight(s) {
      assert "" + s + "" == s;
      TrimIs("", s, "");
    }
  }

  datatype Agent = Agent(id: string, specialty: string)

  datatype Council = Council(id: string, specialty: string, agents: set<string>, createdAt: int)

  /** The agent registry, keyed by id. */
  class AgentRegistry {
    var agents: map<string, Agent>

    constructor ()
      ensures agents == map[]
    {
      agents := map[];
    }

    method Register(agent: Agent) returns (r: Result<(), DomainError>)
      modifies this
      ensures r == if agent.id in old(agents) then Err(AlreadyExists) else Ok(())
      ensures agents == Keep(old(agents), agent.id, agent)
    {
      if agent.id in agents {
        return Err(AlreadyExists);
      }
      agents := agents[agent.id := agent];
      r := Ok(());
    }
  }

  /** The council registry, keyed by specialty. */
  class CouncilRegistry {
    var councils: map<string, Council>

    constructor ()
      ensures councils == map[]
    {
      councils := map[];
    }

    method Register(council: Council) returns (r: Result<(), DomainError>)
      modifies this
      ensures r == if council.specialty in old(councils) then Err(AlreadyExists) else Ok(())
      ensures councils == Keep(old(councils), council.specialty, council)
    {
      if council.specialty in councils {
        return Err(AlreadyExists);
      }
      councils := councils[council.specialty := council];
      r := Ok(());
    }
  }

  /** A registration that loses against what is there already. */
  function Keep<K, V>(m: map<K, V>, k: K, v: V): map<K, V> { if k in m then m else m[k := v] }

  /** What a registry's store does to one label: it may fail on either registration, which then changes nothing. */
  datatype Fault = NoFault | AgentStore | CouncilStore

  /** One turn of the loop: the time it sees and the fault it meets. */
  datatype Turn = Turn(now: int, fault: Fault)

  ghost predicate Calm(turns: nat -> Turn) { forall n: nat :: turns(n).fault.NoFault? }

  datatype Registries = Registries(agents: map<string, Agent>, councils: map<string, Council>)

  function AgentLabel(lbl: string): string { "seed-" + lbl + "-0" }

  function CouncilLabel(lbl: string): string { "seed-" + lbl }

  /** The first two checks of a label, made before anything is registered. */
  function SeedAgent(lbl: string): Result<Agent, DomainError>
  {
    var specialty :- Validate(lbl, MAX_SPECIALTY_LEN);
    var id :- Validate(AgentLabel(lbl), MAX_ID_LEN);
    Ok(Agent(id, specialty))
  }

  function CouncilId(lbl: string): Result<string, DomainError> { Validate(CouncilLabel(lbl), MAX_ID_LEN) }

  /** A label with the verdicts on what is derived from it. */
  datatype Checked = Checked(agent: Result<Agent, DomainError>, councilId: Result<string, DomainError>)

  function Check(lbl: string): Checked { Checked(SeedAgent(lbl), CouncilId(lbl)) }

  function CheckAll(labels: seq<string>, check: string -> Checked): (c: seq<Checked>)
    ensures |c| == |labels|
  {
    seq(|labels|, i requires 0 <= i < |labels| => check(labels[i]))
  }

  /** The two registrations of a label: the agent goes in before the verdict on the council id is looked at. */
  function Place(c: Checked, t: Turn, r: Registries): (Result<(), DomainError>, Registries)
  {
    if c.agent.Err? then (Err(c.agent.error), r)
    else if t.fault.AgentStore? then (Err(StorageFailed), r)
    else
      var agents := Keep(r.agents, c.agent.value.id, c.agent.value);
      if c.councilId.Err? then (Err(c.councilId.error), Registries(agents, r.councils))
      else if t.fault.CouncilStore? then (Err(StorageFailed), Registries(agents, r.councils))
      else
        var council := Council(c.councilId.value, c.agent.value.specialty, {c.agent.value.id}, t.now);
        (Ok(()), Registries(agents, Keep(r.councils, council.specialty, council)))
  }

  /** Placing labels in order, one a turn, stopping at the first refusal or fault. */
  function PlaceAll(cs: seq<Checked>, turns: nat -> Turn, r: Registries): (Result<(), DomainError>, Registries)
  {
    if cs == [] then (Ok(()), r)
    else
      var n := |cs| - 1;
      var (before, mid) := PlaceAll(cs[..n], turns, r);
      if before.Err? then (before, mid) else Place(cs[n], turns(n), mid)
  }

  function SeedAll(labels: seq<string>, turns: nat -> Turn, r: Registries): (Result<(), DomainError>, Registries)
  {
    PlaceAll(CheckAll(labels, Check), turns, r)
  }

  /** One turn of the loop over the labels. */
  method SeedLabel(lbl: string, t: Turn, agents: AgentRegistry, councils: CouncilRegistry)
    returns (r: Result<(), DomainError>)
    modifies agents, councils
    ensures (r, Registries(agents.agents, councils.councils)) ==
            Place(Check(lbl), t, old(Registries(agents.agents, councils.councils)))
  {
    var agent :- SeedAgent(lbl);
    if t.fault.AgentStore? {
      return Err(StorageFailed);
    }
    var _ := agents.Register(agent);
    var councilId :- CouncilId(lbl);
    var council := Council(councilId, agent.specialty, {agent.id}, t.now);
    if t.fault.CouncilStore? {
      return Err(StorageFailed);
    }
    var _ := councils.Register(council);
    r := Ok(());
  }

  lemma PlaceOneMore(cs: seq<Checked>, i: nat, turns: nat -> Turn, r: Registries)
    requires i < |cs| && PlaceAll(cs[..i], turns, r).0.Ok?
    ensures PlaceAll(cs[..i + 1], turns, r) == Place(cs[i], turns(i), PlaceAll(cs[..i], turns, r).1)
  {
    assert cs[..i + 1][..i] == cs[..i];
  }

  /** The same turn, after the turns before it. */
  method SeedNext(labels: seq<string>, i: nat, turns: nat -> Turn, agents: AgentRegistry, councils: CouncilRegistry,
                  ghost start: Registries, ghost cs: seq<Checked>)
    returns (r: Result<(), DomainError>)
    requires i < |labels| && cs == CheckAll(labels, Check)
    requires PlaceAll(cs[..i], turns, start) == (Ok(()), Registries(agents.agents, councils.councils))
    modifies agents, councils
    ensures PlaceAll(cs[..i + 1], turns, start) == (r, Registries(agents.agents, councils.councils))
  {
    PlaceOneMore(cs, i, turns, start);
    assert cs[i] == Check(labels[i]);
    r := SeedLabel(labels[i], turns(i), agents, councils);
  }

  /** The loop over the labels. */
  method ApplySeeding(turns: nat -> Turn, agents: AgentRegistry, councils: CouncilRegistry, labels: seq<string>)
    returns (r: Result<(), DomainError>)
    modifies agents, councils
    ensures (r, Registries(agents.agents, councils.councils)) ==
            SeedAll(labels, turns, old(Registries(agents.agents, councils.councils)))
  {
    ghost var start, cs := Registries(agents.agents, councils.councils), CheckAll(labels, Check);
    for i := 0 to |labels|
      invariant PlaceAll(cs[..i], turns, start) == (Ok(()), Registries(agents.agents, councils.councils))
    {
      var seeded := SeedNext(labels, i, turns, agents, councils, start, cs);
      if seeded.Err? {
        PlaceStops(cs, i + 1, turns, start);
        return seeded;
      }
    }
    assert cs[..|labels|] == cs;
    r := Ok(());
  }

  lemma {:induction false} PlaceStops(cs: seq<Checked>, n: nat, turns: nat -> Turn, r: Registries)
    requires n <= |cs| && PlaceAll(cs[..n], turns, r).0.Err?
    ensures PlaceAll(cs, turns, r) == PlaceAll(cs[..n], turns, r)
    decreases |cs| - n
  {
    if n == |cs| {
      assert cs[..n] == cs;
    } else {
      assert cs[..n + 1][..n] == cs[..n];
      PlaceStops(cs, n + 1, turns, r);
    }
  }

  // ---------- Nothing is overwritten, nothing is orphaned ----------

  predicate Extends(r: Registries, s: Registries)
  {
    && (forall k :: k in r.agents ==> k in s.agents && s.agents[k] == r.agents[k])
    && (forall k :: k in r.councils ==> k in s.councils && s.councils[k] == r.councils[k])
  }

  /** Every council that is new in `s` has exactly one agent, and that agent is registered in `s`. */
  predicate NewCouncilsAreStaffed(r: Registries, s: Registries)
  {
    forall k :: k in s.councils && k !in r.councils ==>
      exists a :: a in s.agents && s.councils[k].agents == {a} && s.councils[k].specialty == k
  }

  lemma PlaceExtends(c: Checked, t: Turn, r: Registries)
    ensures Extends(r, Place(c, t, r).1)
  {
  }

  lemma PlaceStaffs(c: Checked, t: Turn, r: Registries, mid: Registries)
    requires NewCouncilsAreStaffed(r, mid)
    ensures NewCouncilsAreStaffed(r, Place(c, t, mid).1)
  {
    var next := Place(c, t, mid).1;
    forall k | k in next.councils && k !in r.councils
      ensures exists a :: a in next.agents && next.councils[k].agents == {a} && next.councils[k].specialty == k
    {
      if k in mid.councils {
        var a :| a in mid.agents && mid.councils[k].agents == {a} && mid.councils[k].specialty == k;
        assert a in next.agents;
      } else {
        assert c.agent.value.id in next.agents;
      }
    }
  }

  lemma {:induction false} PlacingIsSafe(cs: seq<Checked>, turns: nat -> Turn, r: Registries)
    ensures Extends(r, PlaceAll(cs, turns, r).1)
    ensures NewCouncilsAreStaffed(r, PlaceAll(cs, turns, r).1)
  {
    if cs != [] {
      var n := |cs| - 1;
      PlacingIsSafe(cs[..n], turns, r);
      var mid := PlaceAll(cs[..n], turns, r).1;
      PlaceExtends(cs[n], turns(n), mid);
      PlaceStaffs(cs[n], turns(n), r, mid);
    }
  }

  /** Seeding never overwrites, and every council it adds has its agent registered, also when it stops half way. */
  lemma SeedingIsSafe(labels: seq<string>, turns: nat -> Turn, r: Registries)
    ensures Extends(r, SeedAll(labels, turns, r).1)
    ensures NewCouncilsAreStaffed(r, SeedAll(labels, turns, r).1)
  {
    PlacingIsSafe(CheckAll(labels, Check), turns, r);
  }

  predicate Accepted(c: Checked) { c.agent.Ok? && c.councilId.Ok? }

  /** The council label `n` makes, `n` being the first accepted label of its specialty. */
  predicate MadeBy(cs: seq<Checked>, n: nat, turns: nat -> Turn, council: Council)
  {
    && n < |cs| && Accepted(cs[n])
    && council == Council(cs[n].councilId.value, cs[n].agent.value.specialty, {cs[n].agent.value.id}, turns(n).now)
    && forall j :: 0 <= j < n && Accepted(cs[j]) ==> cs[j].agent.value.specialty != council.specialty
  }

  lemma {:induction false} PlacedLabelsAreThere(cs: seq<Checked>, turns: nat -> Turn, r: Registries)
    requires PlaceAll(cs, turns, r).0.Ok?
    ensures forall c :: c in cs ==> Accepted(c) && Settled(c, PlaceAll(cs, turns, r).1)
  {
    if cs != [] {
      var n := |cs| - 1;
      assert cs == cs[..n] + [cs[n]];
      PlacedLabelsAreThere(cs[..n], turns, r);
      PlaceExtends(cs[n], turns(n), PlaceAll(cs[..n], turns, r).1);
    }
  }

  lemma {:induction false} NewCouncilsAreMade(cs: seq<Checked>, turns: nat -> Turn, r: Registries, k: string)
    requires k in PlaceAll(cs, turns, r).1.councils && k !in r.councils
    ensures exists n: nat :: MadeBy(cs, n, turns, PlaceAll(cs, turns, r).1.councils[k])
    ensures PlaceAll(cs, turns, r).1.councils[k].specialty == k
  {
    if cs != [] {
      var n := |cs| - 1;
      var init := cs[..n];
      var (before, mid) := PlaceAll(init, turns, r);
      var council := PlaceAll(cs, turns, r).1.councils[k];
      if k in mid.councils {
        NewCouncilsAreMade(init, turns, r, k);
        var m: nat :| MadeBy(init, m, turns, mid.councils[k]);
        assert MadeBy(cs, m, turns, council);
      } else {
        PlacedLabelsAreThere(init, turns, r);
        forall j | 0 <= j < n ensures cs[j].agent.Ok? ==> cs[j].agent.value.specialty != k { assert init[j] in init; }
        assert MadeBy(cs, n, turns, council);
      }
    }
  }

  /** First label wins: each council a run adds is the one its specialty's first label asks for, at that time. */
  lemma FirstLabelWins(labels: seq<string>, turns: nat -> Turn, r: Registries, k: string)
    requires k in SeedAll(labels, turns, r).1.councils && k !in r.councils
    ensures exists n: nat :: MadeBy(CheckAll(labels, Check), n, turns, SeedAll(labels, turns, r).1.councils[k])
  {
    NewCouncilsAreMade(CheckAll(labels, Check), turns, r, k);
  }

  /** A successful run leaves every label's agent and council registered. */
  lemma EveryLabelIsSeeded(labels: seq<string>, turns: nat -> Turn, r: Registries, i: nat)
    requires SeedAll(labels, turns, r).0.Ok? && i < |labels|
    ensures var c, s := CheckAll(labels, Check)[i], SeedAll(labels, turns, r).1;
            Accepted(c) && c.agent.value.id in s.agents && c.agent.value.specialty in s.councils
  {
    PlacedLabelsAreThere(CheckAll(labels, Check), turns, r);
    assert CheckAll(labels, Check)[i] in CheckAll(labels, Check);
  }

  // ---------- A refused label leaves no trace ----------

  /** Cutting the ends off an accepted identifier leaves an accepted one unless nothing is left. */
  lemma PartIsAccepted(left: string, t: string, right: string, maxBytes: nat)
    requires Inspect(left + t + right, maxBytes).Ok? && t != []
    ensures Inspect(t, maxBytes).Ok?
  {
    Utf8.EncodeConcat(left + t, right);
    Utf8.EncodeConcat(left, t);
    forall c | c in t ensures !Participants.IsControl(c) {
      assert c in left + t + right;
    }
  }

  lemma TightIsItsOwnTrim(s: string)
    requires Tight(s)
    ensures Trim(s) == s
  {
    assert [] + s + [] == s;
    TrimIs([], s, []);
  }

  /** The trimmed `a` is a stretch of `a + b`. */
  lemma TrimmedPrefix(a: string, b: string) returns (left: string, right: string)
    ensures left + Trim(a) + right == a + b
  {
    var l, r := TrimSplits(a);
    left, right := l, r + b;
  }

  /** The same through trimming: `b` cut off a text with visible ends. */
  lemma PrefixIsAccepted(a: string, b: string, maxBytes: nat)
    requires Tight(a + b) && Validate(a + b, maxBytes).Ok? && Trim(a) != []
    ensures Validate(a, maxBytes).Ok?
  {
    TightIsItsOwnTrim(a + b);
    var left, right := TrimmedPrefix(a, b);
    PartIsAccepted(left, Trim(a), right, maxBytes);
  }

  const AGENT_TAIL := "-0"

  /** Once the agent id has been accepted the council id cannot be refused. */
  lemma CouncilIdIsAccepted(lbl: string)
    requires SeedAgent(lbl).Ok?
    ensures CouncilId(lbl).Ok?
  {
    var a, b := CouncilLabel(lbl), AGENT_TAIL;
    assert a + b == AgentLabel(lbl);
    assert a[0] == 's' && (a + b)[0] == 's' && (a + b)[|a + b| - 1] == '0';
    TrimEmptyIffBlank(a);
    assert a[0] in a;
    PrefixIsAccepted(a, b, MAX_ID_LEN);
  }

  predicate CouncilFollows(c: Checked) { c.agent.Ok? ==> c.councilId.Ok? }

  lemma CheckedCouncilFollows(lbl: string)
    ensures CouncilFollows(Check(lbl))
  {
    if SeedAgent(lbl).Ok? { CouncilIdIsAccepted(lbl); }
  }

  /** The run stopped at label `n`: all before it is seeded, nothing after it, and of itself only what is said. */
  predicate StoppedAt(cs: seq<Checked>, n: nat, turns: nat -> Turn, r: Registries)
  {
    && n < |cs| && PlaceAll(cs[..n], turns, r).0.Ok?
    && var before := PlaceAll(cs[..n], turns, r).1;
    if cs[n].agent.Err? then PlaceAll(cs, turns, r) == (Err(cs[n].agent.error), before)
    else if turns(n).fault.AgentStore? then PlaceAll(cs, turns, r) == (Err(StorageFailed), before)
    else
      && turns(n).fault.CouncilStore?
      && PlaceAll(cs, turns, r) ==
         (Err(StorageFailed), Registries(Keep(before.agents, cs[n].agent.value.id, cs[n].agent.value), before.councils))
  }

  lemma StoppedEarlier(cs: seq<Checked>, n: nat, turns: nat -> Turn, r: Registries)
    requires cs != [] && StoppedAt(cs[..|cs| - 1], n, turns, r)
    ensures StoppedAt(cs, n, turns, r)
  {
    assert cs[..|cs| - 1][..n] == cs[..n];
  }

  lemma {:induction false} PlacingIsAllOrNothing(cs: seq<Checked>, turns: nat -> Turn, r: Registries)
    requires forall i :: 0 <= i < |cs| ==> CouncilFollows(cs[i])
    ensures PlaceAll(cs, turns, r).0.Ok? <==>
            forall i :: 0 <= i < |cs| ==> cs[i].agent.Ok? && turns(i).fault.NoFault?
    ensures PlaceAll(cs, turns, r).0.Err? ==> exists n: nat :: StoppedAt(cs, n, turns, r)
  {
    if cs != [] {
      var n := |cs| - 1;
      var init := cs[..n];
      assert forall i :: 0 <= i < n ==> init[i] == cs[i];
      PlacingIsAllOrNothing(init, turns, r);
      if PlaceAll(init, turns, r).0.Err? {
        var k: nat :| StoppedAt(init, k, turns, r);
        StoppedEarlier(cs, k, turns, r);
      } else if cs[n].agent.Err? || !turns(n).fault.NoFault? {
        assert StoppedAt(cs, n, turns, r);
      }
    }
  }

  /**
   Each label is all or nothing as far as its own checks go, although the agent is registered before
   the council id is checked: a run succeeds exactly when every label is accepted and no store fails,
   and otherwise has seeded exactly the labels before the one it stopped at, plus that one's agent
   when it was the council store that failed.
   */
  lemma RefusalLeavesNoTrace(labels: seq<string>, turns: nat -> Turn, r: Registries)
    ensures SeedAll(labels, turns, r).0.Ok? <==>
            forall i :: 0 <= i < |labels| ==> CheckAll(labels, Check)[i].agent.Ok? && turns(i).fault.NoFault?
    ensures SeedAll(labels, turns, r).0.Err? ==> exists n: nat :: StoppedAt(CheckAll(labels, Check), n, turns, r)
  {
    forall i | 0 <= i < |labels| ensures CouncilFollows(CheckAll(labels, Check)[i]) {
      CheckedCouncilFollows(labels[i]);
    }
    PlacingIsAllOrNothing(CheckAll(labels, Check), turns, r);
  }

  // ---------- A second run changes nothing ----------

  /** Whatever a checked label would register is there already. */
  predicate Settled(c: Checked, r: Registries)
  {
    c.agent.Ok? ==> c.agent.value.id in r.agents && (c.councilId.Ok? ==> c.agent.value.specialty in r.councils)
  }

  /** A placement that no store failed is not redone on any state that extends its outcome. */
  lemma PlacedStaysPlaced(c: Checked, t: Turn, again: Turn, r: Registries, s: Registries)
    requires Extends(Place(c, t, r).1, s) && Place(c, t, r).0 != Err(StorageFailed) && again.fault.NoFault?
    ensures Place(c, again, s) == (Place(c, t, r).0, s)
  {
    assert Settled(c, Place(c, t, r).1);
    assert Settled(c, s);
  }

  lemma {:induction false} PlacingAgainIsNoOp(
    cs: seq<Checked>, turns: nat -> Turn, later: nat -> Turn, r: Registries, s: Registries)
    requires Extends(PlaceAll(cs, turns, r).1, s) && PlaceAll(cs, turns, r).0 != Err(StorageFailed) && Calm(later)
    ensures PlaceAll(cs, later, s) == (PlaceAll(cs, turns, r).0, s)
  {
    if cs != [] {
      var n := |cs| - 1;
      var (before, mid) := PlaceAll(cs[..n], turns, r);
      if before.Ok? { PlaceExtends(cs[n], turns(n), mid); }
      assert Extends(mid, s);
      PlacingAgainIsNoOp(cs[..n], turns, later, r, s);
      if before.Ok? { PlacedStaysPlaced(cs[n], turns(n), later(n), mid, s); }
    }
  }

  /** Running the same labels on any later state finds everything the first run reached already there. */
  lemma RerunIsNoOp(labels: seq<string>, turns: nat -> Turn, later: nat -> Turn, r: Registries, s: Registries)
    requires Extends(SeedAll(labels, turns, r).1, s) && SeedAll(labels, turns, r).0 != Err(StorageFailed) && Calm(later)
    ensures SeedAll(labels, later, s) == (SeedAll(labels, turns, r).0, s)
  {
    PlacingAgainIsNoOp(CheckAll(labels, Check), turns, later, r, s);
  }

  predicate NoStorageError(c: Checked) { c.agent != Err(StorageFailed) && c.councilId != Err(StorageFailed) }

  lemma {:induction false} CalmRunsDoNotFail(cs: seq<Checked>, turns: nat -> Turn, r: Registries)
    requires Calm(turns) && forall i :: 0 <= i < |cs| ==> NoStorageError(cs[i])
    ensures PlaceAll(cs, turns, r).0 != Err(StorageFailed)
  {
    if cs != [] {
      var n := |cs| - 1;
      assert forall i :: 0 <= i < n ==> cs[..n][i] == cs[i];
      CalmRunsDoNotFail(cs[..n], turns, r);
      assert NoStorageError(cs[n]);
    }
  }

  lemma ChecksDoNotTouchStorage(lbl: string)
    ensures NoStorageError(Check(lbl))
  {
  }

  /** Label `n` is accepted and its store fails, after labels that are all accepted without a failure. */
  predicate FaultMet(cs: seq<Checked>, turns: nat -> Turn, n: nat)
  {
    && n < |cs| && cs[n].agent.Ok? && !turns(n).fault.NoFault?
    && forall j :: 0 <= j < n ==> cs[j].agent.Ok? && turns(j).fault.NoFault?
  }

  /** A run stops at the first label that is refused or met by a fault. */
  lemma StopIsFirst(cs: seq<Checked>, n: nat, turns: nat -> Turn, r: Registries)
    requires forall i :: 0 <= i < |cs| ==> CouncilFollows(cs[i])
    requires StoppedAt(cs, n, turns, r)
    ensures forall j :: 0 <= j < n ==> cs[j].agent.Ok? && turns(j).fault.NoFault?
  {
    assert forall i :: 0 <= i < n ==> cs[..n][i] == cs[i];
    PlacingIsAllOrNothing(cs[..n], turns, r);
  }

  lemma PlacingFailsIff(cs: seq<Checked>, turns: nat -> Turn, r: Registries)
    requires forall i :: 0 <= i < |cs| ==> CouncilFollows(cs[i]) && NoStorageError(cs[i])
    ensures PlaceAll(cs, turns, r).0 == Err(StorageFailed) <==> exists n: nat :: FaultMet(cs, turns, n)
  {
    PlacingIsAllOrNothing(cs, turns, r);
    if PlaceAll(cs, turns, r).0.Err? {
      var m: nat :| StoppedAt(cs, m, turns, r);
      StopIsFirst(cs, m, turns, r);
      assert NoStorageError(cs[m]);
      if cs[m].agent.Ok? { assert FaultMet(cs, turns, m); }
    }
  }

  /** A run fails on its storage exactly when an accepted label is met by a fault before any label is refused. */
  lemma StorageFailsIff(labels: seq<string>, turns: nat -> Turn, r: Registries)
    ensures SeedAll(labels, turns, r).0 == Err(StorageFailed) <==>
            exists n: nat :: FaultMet(CheckAll(labels, Check), turns, n)
  {
    forall i | 0 <= i < |labels|
      ensures CouncilFollows(CheckAll(labels, Check)[i]) && NoStorageError(CheckAll(labels, Check)[i])
    {
      CheckedCouncilFollows(labels[i]);
      ChecksDoNotTouchStorage(labels[i]);
    }
    PlacingFailsIff(CheckAll(labels, Check), turns, r);
  }

  /**
   Idempotence: an undisturbed second run changes nothing and answers the same exactly when the first
   met no fault at an accepted label before any label was refused.
   */
  lemma SeedingIsIdempotent(labels: seq<string>, turns: nat -> Turn, later: nat -> Turn, r: Registries)
    requires Calm(later)
    ensures var (result, once) := SeedAll(labels, turns, r);
            SeedAll(labels, later, once) == (result, once) <==>
            !exists n: nat :: FaultMet(CheckAll(labels, Check), turns, n)
  {
    StorageFailsIff(labels, turns, r);
    if SeedAll(labels, turns, r).0 != Err(StorageFailed) {
      RerunIsNoOp(labels, turns, later, r, SeedAll(labels, turns, r).1);
    } else {
      forall i | 0 <= i < |labels| ensures NoStorageError(CheckAll(labels, Check)[i]) {
        ChecksDoNotTouchStorage(labels[i]);
      }
      CalmRunsDoNotFail(CheckAll(labels, Check), later, SeedAll(labels, turns, r).1);
    }
  }

  /** In particular over stores that never fail, such as the in-memory registries. */
  lemma CalmSeedingIsIdempotent(labels: seq<string>, turns: nat -> Turn, later: nat -> Turn, r: Registries)
    requires Calm(turns) && Calm(later)
    ensures var (result, once) := SeedAll(labels, turns, r); SeedAll(labels, later, once) == (result, once)
  {
    SeedingIsIdempotent(labels, turns, later, r);
  }

  /** Visible ASCII within the limit is accepted as it stands. */
  lemma PlainIsAccepted(s: string, maxBytes: nat)
    requires Participants.Plain(s) && s != [] && |s| <= maxBytes
    ensures Validate(s, maxBytes) == Ok(s)
  {
    assert s[0] in s && s[|s| - 1] in s;
    TightIsItsOwnTrim(s);
    Participants.AsciiLength(s);
  }

  const EXAMPLE := "ops"

  lemma ExampleIsAccepted()
    ensures SeedAgent(EXAMPLE) == Ok(Agent(AgentLabel(EXAMPLE), EXAMPLE))
  {
    PlainIsAccepted(EXAMPLE, MAX_SPECIALTY_LEN);
    PlainIsAccepted(AgentLabel(EXAMPLE), MAX_ID_LEN);
  }

  /** One label whose council store fails: the first run leaves an agent without a council, the second adds it. */
  lemma InterruptedRunExample(turns: nat -> Turn, later: nat -> Turn)
    requires turns(0).fault.CouncilStore? && Calm(later)
    ensures var (result, once) := SeedAll([EXAMPLE], turns, Registries(map[], map[]));
            var (again, twice) := SeedAll([EXAMPLE], later, once);
            && result == Err(StorageFailed) && AgentLabel(EXAMPLE) in once.agents && once.councils == map[]
            && again == Ok(()) && EXAMPLE in twice.councils
  {
    var c := ExampleChecked();
    InterruptedPlacement(c, turns, later);
  }

  lemma ExampleChecked() returns (c: Checked)
    ensures CheckAll([EXAMPLE], Check) == [c] && Accepted(c)
    ensures c.agent.value == Agent(AgentLabel(EXAMPLE), EXAMPLE)
  {
    ExampleIsAccepted();
    CouncilIdIsAccepted(EXAMPLE);
    c := Check(EXAMPLE);
  }

  /** Any accepted label will do. */
  lemma InterruptedPlacement(c: Checked, turns: nat -> Turn, later: nat -> Turn)
    requires Accepted(c) && turns(0).fault.CouncilStore? && Calm(later)
    ensures var (result, once) := PlaceAll([c], turns, Registries(map[], map[]));
            var (again, twice) := PlaceAll([c], later, once);
            && result == Err(StorageFailed) && c.agent.value.id in once.agents && once.councils == map[]
            && again == Ok(()) && c.agent.value.specialty in twice.councils
  {
    PlaceSingle(c, turns, Registries(map[], map[]));
    PlaceSingle(c, later, Place(c, turns(0), Registries(map[], map[])).1);
  }

  lemma PlaceSingle(c: Checked, turns: nat -> Turn, r: Registries)
    ensures PlaceAll([c], turns, r) == Place(c, turns(0), r)
  {
    assert [c][..0] == [];
  }

  // ---------- A restart repairs an interrupted run ----------

  /** Same answer, same agents, same council specialties; only creation times may differ. */
  predicate Agree(a: (Result<(), DomainError>, Registries), b: (Result<(), DomainError>, Registries))
  {
    a.0 == b.0 && a.1.agents == b.1.agents && a.1.councils.Keys == b.1.councils.Keys
  }

  lemma PlaceAgrees(c: Checked, t: Turn, u: Turn, r: Registries, s: Registries)
    requires t.fault.NoFault? && u.fault.NoFault? && r.agents == s.agents && r.councils.Keys == s.councils.Keys
    ensures Agree(Place(c, t, r), Place(c, u, s))
  {
  }

  /** A run that got through agrees with any undisturbed run. */
  lemma {:induction false} SuccessfulRunsAgree(cs: seq<Checked>, turns: nat -> Turn, calm: nat -> Turn, r: Registries)
    requires PlaceAll(cs, turns, r).0.Ok? && Calm(calm)
    ensures Agree(PlaceAll(cs, turns, r), PlaceAll(cs, calm, r))
  {
    if cs != [] {
      var n := |cs| - 1;
      SuccessfulRunsAgree(cs[..n], turns, calm, r);
      PlaceAgrees(cs[n], turns(n), calm(n), PlaceAll(cs[..n], turns, r).1, PlaceAll(cs[..n], calm, r).1);
    }
  }

  /** Placing a label again, undisturbed, on what a disturbed attempt left behind. */
  lemma PlaceRepairs(c: Checked, t: Turn, later: Turn, calm: Turn, mid: Registries, g: Registries)
    requires later.fault.NoFault? && calm.fault.NoFault?
    requires mid.agents == g.agents && mid.councils.Keys == g.councils.Keys
    ensures Agree(Place(c, later, Place(c, t, mid).1), Place(c, calm, g))
  {
  }

  lemma {:induction false} RestartRepairs(
    cs: seq<Checked>, turns: nat -> Turn, later: nat -> Turn, calm: nat -> Turn, r: Registries)
    requires Calm(later) && Calm(calm)
    ensures Agree(PlaceAll(cs, later, PlaceAll(cs, turns, r).1), PlaceAll(cs, calm, r))
  {
    if cs != [] {
      var n := |cs| - 1;
      var init := cs[..n];
      var (before, mid) := PlaceAll(init, turns, r);
      var s := PlaceAll(cs, turns, r).1;
      if before.Ok? {
        PlaceExtends(cs[n], turns(n), mid);
        PlacingAgainIsNoOp(init, turns, later, r, s);
        SuccessfulRunsAgree(init, turns, calm, r);
        PlaceRepairs(cs[n], turns(n), later(n), calm(n), mid, PlaceAll(init, calm, r).1);
      } else {
        RestartRepairs(init, turns, later, calm, r);
        PlaceAgrees(cs[n], later(n), calm(n), PlaceAll(init, later, s).1, PlaceAll(init, calm, r).1);
      }
    }
  }

  /**
   Restarts recover: whatever store failed in the middle of a run, an undisturbed second run answers
   what an undisturbed first run would have answered and leaves the same agents and councils, and it
   overwrites nothing the interrupted run did.
   */
  lemma RestartRecovers(
    labels: seq<string>, turns: nat -> Turn, later: nat -> Turn, calm: nat -> Turn, r: Registries)
    requires Calm(later) && Calm(calm)
    ensures Agree(SeedAll(labels, later, SeedAll(labels, turns, r).1), SeedAll(labels, calm, r))
    ensures Extends(SeedAll(labels, turns, r).1, SeedAll(labels, later, SeedAll(labels, turns, r).1).1)
  {
    RestartRepairs(CheckAll(labels, Check), turns, later, calm, r);
    PlacingIsSafe(CheckAll(labels, Check), later, SeedAll(labels, turns, r).1);
  }

  // ---------- Contracts ----------

  datatype Contract = Contract(id: string, body: string)

  /** A directory entry; the contract is absent when the file cannot be read or parsed. */
  datatype DirEntry = DirEntry(name: string, isFile: bool, contract: Option<Contract>)

  const JSON_SUFFIX := ".json"

  /** A regular file whose extension is `json`; a bare `.json` has no extension. */
  predicate IsContractFile(e: DirEntry) { e.isFile && |e.name| > |JSON_SUFFIX| && EndsWith(e.name, JSON_SUFFIX) }

  function ContractFiles(entries: seq<DirEntry>): seq<DirEntry>
  {
    if entries == [] then []
    else (if IsContractFile(entries[0]) then [entries[0]] else []) + ContractFiles(entries[1..])
  }

  function Insert(e: DirEntry, es: seq<DirEntry>): seq<DirEntry>
  {
    if es == [] || !Less(es[0].name, e.name) then [e] + es else [es[0]] + Insert(e, es[1..])
  }

  /** The path list, sorted. */
  function SortByName(es: seq<DirEntry>): seq<DirEntry> { if es == [] then [] else Insert(es[0], SortByName(es[1..])) }

  type Contracts = map<string, Contract>

  function RegisterAll(files: seq<DirEntry>, r: Contracts): Contracts
  {
    if files == [] then r
    else
      var mid, last := RegisterAll(files[..|files| - 1], r), files[|files| - 1];
      if last.contract.None? then mid else Keep(mid, last.contract.value.id, last.contract.value)
  }

  function SeedContracts(entries: seq<DirEntry>, r: Contracts): Contracts
  {
    RegisterAll(SortByName(ContractFiles(entries)), r)
  }

  class ContractRegistry {
    var contracts: Contracts

    constructor ()
      ensures contracts == map[]
    {
      contracts := map[];
    }

    method Register(contract: Contract) returns (r: Result<(), DomainError>)
      modifies this
      ensures r == if contract.id in old(contracts) then Err(AlreadyExists) else Ok(())
      ensures contracts == Keep(old(contracts), contract.id, contract)
    {
      if contract.id in contracts {
        return Err(AlreadyExists);
      }
      contracts := contracts[contract.id := contract];
      r := Ok(());
    }
  }

  /** What the directory turns out to be; entries that cannot be listed are not among its entries. */
  datatype Directory = Missing | Unreadable | Listed(entries: seq<DirEntry>)

  datatype SeedingError = ContractIo

  /** A missing directory seeds nothing, an unreadable one is an error, and neither touches the registry. */
  method ApplyContractSeeding(registry: ContractRegistry, dir: Directory) returns (r: Result<(), SeedingError>)
    modifies registry
    ensures r == if dir.Unreadable? then Err(ContractIo) else Ok(())
    ensures registry.contracts ==
            if dir.Listed? then SeedContracts(dir.entries, old(registry.contracts)) else old(registry.contracts)
  {
    match dir {
      case Missing => r := Ok(());
      case Unreadable => r := Err(ContractIo);
      case Listed(entries) =>
        SeedListed(registry, entries);
        r := Ok(());
    }
  }

  /** The loop: unreadable, unparsable and already registered contracts are skipped. */
  method SeedListed(registry: ContractRegistry, entries: seq<DirEntry>)
    modifies registry
    ensures registry.contracts == SeedContracts(entries, old(registry.contracts))
  {
    var files := SortByName(ContractFiles(entries));
    for i := 0 to |files|
      invariant registry.contracts == RegisterAll(files[..i], old(registry.contracts))
    {
      assert files[..i + 1][..i] == files[..i];
      if files[i].contract.None? { continue; }
      var _ := registry.Register(files[i].contract.value);
    }
    assert files[..|files|] == files;
  }

  predicate DistinctNames(es: seq<DirEntry>) { forall i, j :: 0 <= i < j < |es| ==> es[i].name != es[j].name }

  predicate StrictlySorted(es: seq<DirEntry>) { forall i, j :: 0 <= i < j < |es| ==> Less(es[i].name, es[j].name) }

  lemma {:induction false} ContractFilesMeaning(es: seq<DirEntry>, x: DirEntry)
    ensures x in ContractFiles(es) <==> x in es && IsContractFile(x)
  {
    if es != [] {
      ContractFilesMeaning(es[1..], x);
      assert es == [es[0]] + es[1..];
    }
  }

  lemma {:induction false} InsertElements(e: DirEntry, es: seq<DirEntry>, x: DirEntry)
    ensures x in Insert(e, es) <==> x == e || x in es
  {
    if es != [] {
      InsertElements(e, es[1..], x);
      assert es == [es[0]] + es[1..];
    }
  }

  lemma StrictCons(e: DirEntry, es: seq<DirEntry>)
    requires StrictlySorted(es) && forall x :: x in es ==> Less(e.name, x.name)
    ensures StrictlySorted([e] + es)
  {
    var r := [e] + es;
    assert forall j :: 0 < j < |r| ==> r[j] == es[j - 1] && es[j - 1] in es;
  }

  lemma {:induction false} InsertSorts(e: DirEntry, es: seq<DirEntry>)
    requires StrictlySorted(es) && forall x :: x in es ==> x.name != e.name
    ensures StrictlySorted(Insert(e, es))
  {
    if es == [] {
    } else if !Less(es[0].name, e.name) {
      assert es[0] in es;
      LessTrichotomy(es[0].name, e.name);
      forall x | x in es ensures Less(e.name, x.name) {
        var j :| 0 <= j < |es| && es[j] == x;
        if j > 0 { LessTransitive(e.name, es[0].name, x.name); }
      }
      StrictCons(e, es);
    } else {
      var tail := es[1..];
      assert forall x :: x in tail ==> x in es;
      InsertSorts(e, tail);
      forall x | x in Insert(e, tail) ensures Less(es[0].name, x.name) {
        InsertElements(e, tail, x);
        if x != e {
          var j :| 0 <= j < |tail| && tail[j] == x;
          assert es[j + 1] == x;
        }
      }
      StrictCons(es[0], Insert(e, tail));
    }
  }

  lemma {:induction false} SortSorts(es: seq<DirEntry>)
    requires DistinctNames(es)
    ensures StrictlySorted(SortByName(es))
    ensures forall x :: x in SortByName(es) <==> x in es
  {
    if es != [] {
      var tail := es[1..];
      assert forall i :: 0 <= i < |tail| ==> tail[i] == es[i + 1];
      SortSorts(tail);
      forall x | x in SortByName(tail) ensures x.name != es[0].name {
        var j :| 0 <= j < |tail| && tail[j] == x;
        assert es[j + 1] == x;
      }
      InsertSorts(es[0], SortByName(tail));
      forall x ensures x in SortByName(es) <==> x in es {
        InsertElements(es[0], SortByName(tail), x);
        assert es == [es[0]] + tail;
      }
    }
  }

  /** A strictly sorted list is determined by its elements. */
  lemma {:induction false} SortedIsUnique(a: seq<DirEntry>, b: seq<DirEntry>)
    requires StrictlySorted(a) && StrictlySorted(b) && forall x :: x in a <==> x in b
    ensures a == b
  {
    HeadIsIn(a);
    HeadIsIn(b);
    if a != [] {
      HeadsAgree(a, b);
      var s, t := a[1..], b[1..];
      forall x ensures x in s <==> x in t {
        TailElements(a, x);
        TailElements(b, x);
      }
      SortedIsUnique(s, t);
      assert a == [a[0]] + s && b == [b[0]] + t;
    }
  }

  lemma HeadIsIn(a: seq<DirEntry>)
    ensures a != [] ==> a[0] in a
  {
  }

  lemma HeadsAgree(a: seq<DirEntry>, b: seq<DirEntry>)
    requires StrictlySorted(a) && StrictlySorted(b) && a != [] && b != [] && a[0] in b && b[0] in a
    ensures a[0] == b[0]
  {
    var i :| 0 <= i < |b| && b[i] == a[0];
    var j :| 0 <= j < |a| && a[j] == b[0];
    LessTrichotomy(a[0].name, b[0].name);
  }

  lemma TailElements(a: seq<DirEntry>, x: DirEntry)
    requires StrictlySorted(a) && a != []
    ensures x in a[1..] <==> x in a && x != a[0]
  {
    LessTrichotomy(a[0].name, a[0].name);
    if x in a[1..] {
      var j :| 0 <= j < |a[1..]| && a[1..][j] == x;
      assert a[j + 1] == x;
    }
    if x in a && x != a[0] {
      var j :| 0 <= j < |a| && a[j] == x;
      assert a[1..][j - 1] == x;
    }
  }

  lemma {:induction false} FilterKeepsDistinct(es: seq<DirEntry>)
    requires DistinctNames(es)
    ensures DistinctNames(ContractFiles(es))
  {
    if es != [] {
      var tail := es[1..];
      assert forall i :: 0 <= i < |tail| ==> tail[i] == es[i + 1];
      FilterKeepsDistinct(tail);
      var rest := ContractFiles(tail);
      forall x | x in rest ensures x.name != es[0].name {
        ContractFilesMeaning(tail, x);
        var j :| 0 <= j < |tail| && tail[j] == x;
        assert es[j + 1] == x;
      }
      assert forall j :: 0 <= j < |rest| ==> rest[j] in rest;
    }
  }

  /** Seeding gives the same registry for every order in which the directory is listed. */
  lemma ListingOrderIsIrrelevant(a: seq<DirEntry>, b: seq<DirEntry>, r: Contracts)
    requires DistinctNames(a) && DistinctNames(b) && forall x :: x in a <==> x in b
    ensures SeedContracts(a, r) == SeedContracts(b, r)
  {
    FilterKeepsDistinct(a);
    FilterKeepsDistinct(b);
    SortSorts(ContractFiles(a));
    SortSorts(ContractFiles(b));
    forall x ensures x in SortByName(ContractFiles(a)) <==> x in SortByName(ContractFiles(b)) {
      ContractFilesMeaning(a, x);
      ContractFilesMeaning(b, x);
    }
    SortedIsUnique(SortByName(ContractFiles(a)), SortByName(ContractFiles(b)));
  }

  /** First file wins, and never over what is registered: the full meaning of the loop. */
  lemma {:induction false} RegisterAllMeaning(files: seq<DirEntry>, r: Contracts, id: string)
    ensures id in r ==> id in RegisterAll(files, r) && RegisterAll(files, r)[id] == r[id]
    ensures id in RegisterAll(files, r) && id !in r ==>
              exists k :: 0 <= k < |files| && files[k].contract == Some(RegisterAll(files, r)[id]) &&
                          RegisterAll(files, r)[id].id == id &&
                          forall j :: 0 <= j < k && files[j].contract.Some? ==> files[j].contract.value.id != id
    ensures forall k :: 0 <= k < |files| && files[k].contract.Some? && files[k].contract.value.id == id ==>
              id in RegisterAll(files, r)
  {
    if files != [] {
      var init := files[..|files| - 1];
      RegisterAllMeaning(init, r, id);
      assert forall k :: 0 <= k < |init| ==> init[k] == files[k];
      var mid, last := RegisterAll(init, r), files[|files| - 1];
      if id in RegisterAll(files, r) && id !in r {
        if id in mid {
          var k :| 0 <= k < |init| && init[k].contract == Some(mid[id]) && mid[id].id == id &&
                   forall j :: 0 <= j < k && init[j].contract.Some? ==> init[j].contract.value.id != id;
          assert files[k].contract == Some(RegisterAll(files, r)[id]);
        } else {
          assert files[|files| - 1].contract == Some(RegisterAll(files, r)[id]);
        }
      }
    }
  }

  /** A second contract seeding of the same directory, in any listing order, changes nothing. */
  lemma ContractSeedingIsIdempotent(a: seq<DirEntry>, b: seq<DirEntry>, r: Contracts)
    requires DistinctNames(a) && DistinctNames(b) && forall x :: x in a <==> x in b
    ensures SeedContracts(b, SeedContracts(a, r)) == SeedContracts(a, r)
  {
    ListingOrderIsIrrelevant(a, b, SeedContracts(a, r));
    var files := SortByName(ContractFiles(a));
    forall k | 0 <= k < |files| && files[k].contract.Some? ensures files[k].contract.value.id in RegisterAll(files, r) {
      RegisterAllMeaning(files, r, files[k].contract.value.id);
    }
    RegisteredIsNoOp(files, RegisterAll(files, r));
  }

  lemma {:induction false} RegisteredIsNoOp(files: seq<DirEntry>, r: Contracts)
    requires forall k :: 0 <= k < |files| && files[k].contract.Some? ==> files[k].contract.value.id in r
    ensures RegisterAll(files, r) == r
  {
    if files != [] {
      var init := files[..|files| - 1];
      assert forall k :: 0 <= k < |init| ==> init[k] == files[k];
      RegisteredIsNoOp(init, r);
    }
  }

  // ---------- What is registered, in so many words ----------

  lemma AgentLabelIsTight(lbl: string)
    ensures Trim(AgentLabel(lbl)) == "seed-" + lbl + "-0"
  {
    var id := AgentLabel(lbl);
    assert id[0] == 's' && id[|id| - 1] == '0';
    TightIsItsOwnTrim(id);
  }

  /** The identifiers derived from an accepted label. */
  lemma SeedIdentifiers(lbl: string)
    requires SeedAgent(lbl).Ok?
    ensures SeedAgent(lbl).value == Agent("seed-" + lbl + "-0", Trim(lbl))
    ensures CouncilId(lbl) == Ok(Trim("seed-" + lbl))
  {
    AgentLabelIsTight(lbl);
    CouncilIdIsAccepted(lbl);
  }

  predicate FreeOfControls(s: string) { forall c :: c in s ==> ' ' <= c <= '~' || c > '\U{9F}' }

  /** A label is accepted exactly when it is not blank, short enough, and free of control characters. */
  lemma LabelIsAcceptedIff(lbl: string)
    ensures SeedAgent(lbl).Ok? <==>
            && !Blank(lbl) && FreeOfControls(lbl)
            && |Utf8.Encode(Trim(lbl))| <= 128 && |Utf8.Encode("seed-" + lbl + "-0")| <= 256
  {
    AgentLabelIsTight(lbl);
    TrimEmptyIffBlank(lbl);
    LabelControls(lbl);
  }

  /** Why a label is refused, the specialty being checked before the agent's identifier. */
  lemma LabelRefusals(lbl: string)
    requires SeedAgent(lbl).Err?
    ensures SeedAgent(lbl).error ==
            if Blank(lbl) then EmptyField
            else if |Utf8.Encode(Trim(lbl))| > 128 then FieldTooLong
            else if !FreeOfControls(Trim(lbl)) then InvalidCharacters
            else if |Utf8.Encode("seed-" + lbl + "-0")| > 256 then FieldTooLong
            else InvalidCharacters
  {
    AgentLabelIsTight(lbl);
    TrimEmptyIffBlank(lbl);
  }

  lemma LabelControls(lbl: string)
    ensures FreeOfControls(AgentLabel(lbl)) <==> FreeOfControls(lbl)
    ensures FreeOfControls(lbl) ==> FreeOfControls(Trim(lbl))
  {
    assert forall c :: c in lbl ==> c in AgentLabel(lbl);
    assert forall c :: c in AgentLabel(lbl) ==> c in "seed-" || c in lbl || c in "-0";
    var l, r := TrimSplits(lbl);
    assert forall c :: c in Trim(lbl) ==> c in l + Trim(lbl) + r;
  }

  /** A regular file whose name is something followed by `.json`, holding a contract with this id. */
  ghost predicate Offers(e: DirEntry, id: string)
  {
    && e.isFile && (exists stem :: stem != [] && e.name == stem + ".json")
    && e.contract.Some? && e.contract.value.id == id
  }

  lemma OffersIff(e: DirEntry, id: string)
    ensures Offers(e, id) <==> IsContractFile(e) && e.contract.Some? && e.contract.value.id == id
  {
    var n := |e.name| - 5;
    if IsContractFile(e) { assert e.name == e.name[..n] + ".json"; }
    if stem :| stem != [] && e.name == stem + ".json" { assert e.name[|e.name| - 5..] == ".json"; }
  }

  /** Of all files offering the id, `e` has the least name. */
  ghost predicate FirstToOffer(e: DirEntry, entries: seq<DirEntry>, id: string)
  {
    && e in entries && Offers(e, id)
    && forall f :: f in entries && Offers(f, id) ==> f.name == e.name || Less(e.name, f.name)
  }

  lemma SortedFiles(entries: seq<DirEntry>, e: DirEntry)
    requires DistinctNames(entries)
    ensures StrictlySorted(SortByName(ContractFiles(entries)))
    ensures e in SortByName(ContractFiles(entries)) <==> e in entries && IsContractFile(e)
  {
    FilterKeepsDistinct(entries);
    SortSorts(ContractFiles(entries));
    ContractFilesMeaning(entries, e);
  }

  /**
   The seeded registry, on the directory itself: what was registered stays, and an id is new exactly
   when some contract file offers it, with the contract of the least-named such file.
   */
  lemma SeedContractsMeaning(entries: seq<DirEntry>, r: Contracts, id: string)
    requires DistinctNames(entries)
    ensures id in r ==> id in SeedContracts(entries, r) && SeedContracts(entries, r)[id] == r[id]
    ensures id !in r ==> (id in SeedContracts(entries, r) <==> exists e :: e in entries && Offers(e, id))
    ensures id !in r && id in SeedContracts(entries, r) ==>
              exists e :: FirstToOffer(e, entries, id) && e.contract == Some(SeedContracts(entries, r)[id])
  {
    var files := SortByName(ContractFiles(entries));
    RegisterAllMeaning(files, r, id);
    forall e ensures e in files <==> e in entries && IsContractFile(e) { SortedFiles(entries, e); }
    forall e ensures Offers(e, id) <==> IsContractFile(e) && e.contract.Some? && e.contract.value.id == id {
      OffersIff(e, id);
    }
    if e :| e in entries && Offers(e, id) {
      var k :| 0 <= k < |files| && files[k] == e;
    }
    if id !in r && id in SeedContracts(entries, r) {
      var k :| 0 <= k < |files| && files[k].contract == Some(RegisterAll(files, r)[id]) &&
               RegisterAll(files, r)[id].id == id &&
               forall j :: 0 <= j < k && files[j].contract.Some? ==> files[j].contract.value.id != id;
      SortedFiles(entries, files[k]);
      LeastOffers(files, k, entries, id);
    }
  }

  lemma LeastOffers(files: seq<DirEntry>, k: nat, entries: seq<DirEntry>, id: string)
    requires StrictlySorted(files) && k < |files| && Offers(files[k], id) && files[k] in entries
    requires forall e :: e in entries && Offers(e, id) ==> e in files
    requires forall j :: 0 <= j < k && files[j].contract.Some? ==> files[j].contract.value.id != id
    ensures FirstToOffer(files[k], entries, id)
  {
    forall f | f in entries && Offers(f, id) ensures f.name == files[k].name || Less(files[k].name, f.name) {
      var j :| 0 <= j < |files| && files[j] == f;
    }
  }
}
