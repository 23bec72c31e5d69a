/** Planning the participants of a ceremony: a keyed, first-wins merge over its steps. */
module Participants {
  import opened Prelude
  import opened Json
  import opened Text
  import Utf8

  datatype ConfigError = ConfigError(field: string) | TooManyAttributes(keys: nat) | BlankAttributeKey

  const MAX_ATTRIBUTES_KEYS: nat := 1024

  datatype Definition = Definition(name: string, version: string)

  /** What a step's handler configuration says, field by field; a field may be malformed. */
  datatype StepConfig = StepConfig(
    id: string, handlerKind: string, attributes: map<string, Value>,
    specialty: Result<string, ConfigError>, kind: Result<string, ConfigError>,
    labels: Result<seq<string>, ConfigError>, numAgents: Result<Option<nat>, ConfigError>)

  /** A step whose configuration was read. */
  datatype Step = Step(
    id: string, handlerKind: string, attributes: map<string, Value>, specialty: string, kind: string,
    labels: seq<string>, count: nat)

  /** A participant; its attribute bag is `base` with the ceremony's own entries inserted. */
  datatype Descriptor = Descriptor(
    id: string, specialty: string, kind: string, stepId: string, handlerKind: string, base: map<string, Value>,
    index: nat, name: Option<string>)

  const NAME_KEY := "ceremony.definition_name"
  const VERSION_KEY := "ceremony.definition_version"
  const STEP_KEY := "ceremony.step_id"
  const HANDLER_KEY := "ceremony.handler_kind"
  const INDEX_KEY := "ceremony.participant.index"
  const LABEL_KEY := "ceremony.participant.label"

  /** The keys the ceremony inserts. */
  function OwnKeys(labelled: bool): set<string>
  {
    {NAME_KEY, VERSION_KEY, STEP_KEY, HANDLER_KEY, INDEX_KEY} + if labelled then {LABEL_KEY} else {}
  }

  /** Own entries win over the step's; everything else of the step's is kept. */
  predicate IsBag(bag: map<string, Value>, def: Definition, d: Descriptor)
  {
    && bag.Keys == d.base.Keys + OwnKeys(d.name.Some?)
    && bag["ceremony.definition_name"] == Str(def.name) && bag["ceremony.definition_version"] == Str(def.version)
    && bag["ceremony.step_id"] == Str(d.stepId) && bag["ceremony.handler_kind"] == Str(d.handlerKind)
    && bag["ceremony.participant.index"] == Num(PosInt(d.index))
    && (d.name.Some? ==> bag["ceremony.participant.label"] == Str(d.name.value))
    && forall k :: k in d.base && k !in OwnKeys(d.name.Some?) ==> bag[k] == d.base[k]
  }

  lemma OwnKeysDiffer()
    ensures NAME_KEY != VERSION_KEY && NAME_KEY != STEP_KEY && NAME_KEY != HANDLER_KEY && NAME_KEY != INDEX_KEY
    ensures NAME_KEY != LABEL_KEY && VERSION_KEY != STEP_KEY && VERSION_KEY != HANDLER_KEY && VERSION_KEY != INDEX_KEY
    ensures VERSION_KEY != LABEL_KEY && STEP_KEY != HANDLER_KEY && STEP_KEY != INDEX_KEY && STEP_KEY != LABEL_KEY
    ensures HANDLER_KEY != INDEX_KEY && HANDLER_KEY != LABEL_KEY && INDEX_KEY != LABEL_KEY
  {
    assert |NAME_KEY| == 24 && |VERSION_KEY| == 27 && |STEP_KEY| == 16 && |HANDLER_KEY| == 21;
    assert |INDEX_KEY| == |LABEL_KEY| == 26 && INDEX_KEY[21] != LABEL_KEY[21];
  }

  /** The inserts into a copy of the step's attributes. */
  method ParticipantAttributes(def: Definition, d: Descriptor) returns (bag: map<string, Value>)
    ensures IsBag(bag, def, d)
  {
    OwnKeysDiffer();
    bag := d.base;
    bag := bag[NAME_KEY := Str(def.name)];
    bag := bag[VERSION_KEY := Str(def.version)];
    bag := bag[STEP_KEY := Str(d.stepId)];
    bag := bag[HANDLER_KEY := Str(d.handlerKind)];
    bag := bag[INDEX_KEY := Num(PosInt(d.index))];
    if d.name.Some? {
      bag := bag[LABEL_KEY := Str(d.name.value)];
    }
  }

  /** How many keys the bag of any of a step's participants has. */
  function BagSize(attributes: map<string, Value>, labelled: bool): nat { |attributes.Keys + OwnKeys(labelled)| }

  /** Labels fix the count; only without labels is the agent count read at all, and it defaults to one. */
  function ReadStep(c: StepConfig): Result<Step, ConfigError>
  {
    var specialty :- c.specialty;
    var kind :- c.kind;
    var labels :- c.labels;
    if labels != [] then Ok(Step(c.id, c.handlerKind, c.attributes, specialty, kind, labels, |labels|))
    else
      var n :- c.numAgents;
      Ok(Step(c.id, c.handlerKind, c.attributes, specialty, kind, [], if n.Some? then n.value else 1))
  }

  /** What is wrong with the bags of a step's participants: too many keys, or else a blank one. */
  function BagError(step: Step): Option<ConfigError>
  {
    var keys := BagSize(step.attributes, step.labels != []);
    if step.count == 0 then None
    else if keys > MAX_ATTRIBUTES_KEYS then Some(TooManyAttributes(keys))
    else if exists k :: k in step.attributes && Blank(k) then Some(BlankAttributeKey)
    else None
  }

  /** A step that was read is still refused when its participants' bags are. */
  function PlanStep(c: StepConfig): Result<Step, ConfigError>
  {
    var step :- ReadStep(c);
    if BagError(step).Some? then Err(BagError(step).value) else Ok(step)
  }

  type Planner = StepConfig -> Result<Step, ConfigError>

  function ReadAll(configs: seq<StepConfig>, plan: Planner): Result<seq<Step>, ConfigError>
  {
    if configs == [] then Ok([])
    else
      var init :- ReadAll(configs[..|configs| - 1], plan);
      var last :- plan(configs[|configs| - 1]);
      Ok(init + [last])
  }

  function ReadSteps(configs: seq<StepConfig>): Result<seq<Step>, ConfigError> { ReadAll(configs, PlanStep) }

  const AGENT := "agent-"

  /** The printed identifier of participant `i` of a specialty. */
  function AgentId(specialty: string, i: nat): string { AGENT + specialty + ['-'] + Decimal(i) }

  function DescriptorOf(step: Step, i: nat): Descriptor
  {
    Descriptor(AgentId(step.specialty, i), step.specialty, step.kind, step.id, step.handlerKind, step.attributes, i,
               if i < |step.labels| then Some(step.labels[i]) else None)
  }

  type Plan = map<string, Descriptor>

  /** The first `n` participants of a step, each inserted only if its id is still free. */
  function AddUpTo(plan: Plan, step: Step, n: nat): Plan
  {
    if n == 0 then plan
    else
      var p, id := AddUpTo(plan, step, n - 1), AgentId(step.specialty, n - 1);
      if id in p then p else p[id := DescriptorOf(step, n - 1)]
  }

  function PlanOf(steps: seq<Step>): Plan
  {
    if steps == [] then map[] else AddUpTo(PlanOf(steps[..|steps| - 1]), steps[|steps| - 1], steps[|steps| - 1].count)
  }

  predicate LabelsFixCount(step: Step) { step.labels != [] ==> step.count == |step.labels| }

  /** One participant, with its bag built and checked. */
  method Participant(def: Definition, step: Step, i: nat) returns (r: Result<Descriptor, ConfigError>)
    requires LabelsFixCount(step) && i < step.count
    ensures r == if BagError(step).Some? then Err(BagError(step).value) else Ok(DescriptorOf(step, i))
  {
    var participant := DescriptorOf(step, i);
    var bag := ParticipantAttributes(def, participant);
    assert participant.name.Some? <==> step.labels != [];
    assert |bag| == |bag.Keys|;
    if |bag| > MAX_ATTRIBUTES_KEYS {
      return Err(TooManyAttributes(|bag|));
    }
    BlankKeysAreTheSteps(step.attributes, step.labels != []);
    if k :| k in bag.Keys && Blank(k) {
      return Err(BlankAttributeKey);
    }
    r := Ok(participant);
  }

  /** None of the ceremony's own keys is blank. */
  lemma BlankKeysAreTheSteps(attributes: map<string, Value>, labelled: bool)
    ensures (exists k :: k in attributes.Keys + OwnKeys(labelled) && Blank(k)) <==>
            exists k :: k in attributes && Blank(k)
  {
    OwnKeysAreVisible();
    if k :| k in attributes && Blank(k) { assert k in attributes.Keys + OwnKeys(labelled); }
  }

  lemma OwnKeysAreVisible()
    ensures !Blank(NAME_KEY) && !Blank(VERSION_KEY) && !Blank(STEP_KEY)
    ensures !Blank(HANDLER_KEY) && !Blank(INDEX_KEY) && !Blank(LABEL_KEY)
  {
    assert NAME_KEY[0] in NAME_KEY && VERSION_KEY[0] in VERSION_KEY && STEP_KEY[0] in STEP_KEY;
    assert HANDLER_KEY[0] in HANDLER_KEY && INDEX_KEY[0] in INDEX_KEY && LABEL_KEY[0] in LABEL_KEY;
  }

  /** The first `n` participants of a step, by index. */
  function Descriptors(step: Step, n: nat): (ds: seq<Descriptor>)
    ensures |ds| == n
  {
    if n == 0 then [] else Descriptors(step, n - 1) + [DescriptorOf(step, n - 1)]
  }

  lemma {:induction false} DescriptorsAt(step: Step, n: nat, k: nat)
    requires k < n
    ensures Descriptors(step, n)[k] == DescriptorOf(step, k)
  {
    if k < n - 1 { DescriptorsAt(step, n - 1, k); }
  }

  /** The mapped range over one step, stopping at the first refusal. */
  method ParticipantsFromStep(def: Definition, config: StepConfig) returns (r: Result<seq<Descriptor>, ConfigError>)
    ensures PlanStep(config).Err? ==> r == Err(PlanStep(config).error)
    ensures PlanStep(config).Ok? ==> r == Ok(Descriptors(PlanStep(config).value, PlanStep(config).value.count))
  {
    var step :- ReadStep(config);
    assert LabelsFixCount(step);
    r := ParticipantRange(def, step);
  }

  method ParticipantRange(def: Definition, step: Step) returns (r: Result<seq<Descriptor>, ConfigError>)
    requires LabelsFixCount(step)
    ensures r == if BagError(step).Some? then Err(BagError(step).value) else Ok(Descriptors(step, step.count))
  {
    var participants := [];
    for i := 0 to step.count
      invariant participants == Descriptors(step, i)
      invariant i > 0 ==> BagError(step).None?
    {
      var participant :- Participant(def, step, i);
      participants := participants + [participant];
    }
    r := Ok(participants);
  }

  /** The nested loops, stopping at the first refused step. */
  method FromDefinition(def: Definition, configs: seq<StepConfig>) returns (r: Result<Plan, ConfigError>)
    ensures r == if ReadSteps(configs).Err? then Err(ReadSteps(configs).error) else Ok(PlanOf(ReadSteps(configs).value))
  {
    var participants: Plan := map[];
    ghost var steps := [];
    for k := 0 to |configs|
      invariant ReadAll(configs[..k], PlanStep) == Ok(steps) && participants == PlanOf(steps)
    {
      ReadOneMore(configs, k, PlanStep);
      var fromStep := ParticipantsFromStep(def, configs[k]);
      if fromStep.Err? {
        ReadPrefix(configs, k + 1, PlanStep);
        return Err(fromStep.error);
      }
      ghost var step := PlanStep(configs[k]).value;
      participants := AddAll(participants, fromStep.value, step);
      assert (steps + [step])[..|steps|] == steps;
      steps := steps + [step];
    }
    assert configs[..|configs|] == configs;
    r := Ok(participants);
  }

  /** The inner loop: each participant is inserted only if its id is still free. */
  method AddAll(plan: Plan, more: seq<Descriptor>, ghost step: Step) returns (r: Plan)
    requires more == Descriptors(step, step.count)
    ensures r == AddUpTo(plan, step, step.count)
  {
    r := plan;
    for i := 0 to |more|
      invariant r == AddUpTo(plan, step, i)
    {
      DescriptorsAt(step, step.count, i);
      if more[i].id !in r {
        r := r[more[i].id := more[i]];
      }
    }
  }

  lemma ReadOneMore(configs: seq<StepConfig>, k: nat, plan: Planner)
    requires k < |configs| && ReadAll(configs[..k], plan).Ok?
    ensures ReadAll(configs[..k + 1], plan) ==
            if plan(configs[k]).Err? then Err(plan(configs[k]).error)
            else Ok(ReadAll(configs[..k], plan).value + [plan(configs[k]).value])
  {
    assert configs[..k + 1][..k] == configs[..k];
  }

  lemma {:induction false} ReadPrefix(configs: seq<StepConfig>, n: nat, plan: Planner)
    requires n <= |configs| && ReadAll(configs[..n], plan).Err?
    ensures ReadAll(configs, plan) == ReadAll(configs[..n], plan)
    decreases |configs| - n
  {
    if n == |configs| {
      assert configs[..n] == configs;
    } else {
      assert configs[..n + 1][..n] == configs[..n];
      ReadPrefix(configs, n + 1, plan);
    }
  }

  lemma {:induction false} ReadAllFailsIff(configs: seq<StepConfig>, plan: Planner)
    ensures ReadAll(configs, plan).Err? <==> exists k :: 0 <= k < |configs| && plan(configs[k]).Err?
  {
    if configs != [] {
      var init := configs[..|configs| - 1];
      ReadAllFailsIff(init, plan);
      assert forall k :: 0 <= k < |init| ==> init[k] == configs[k];
    }
  }

  /** A step whose configuration is malformed or whose participants' bags would be too large or hold a blank key. */
  predicate Refused(c: StepConfig)
  {
    || c.specialty.Err? || c.kind.Err? || c.labels.Err? || (c.labels.value == [] && c.numAgents.Err?)
    || ((c.labels.value != [] || c.numAgents.value != Some(0)) &&
        (|c.attributes.Keys + OwnKeys(c.labels.value != [])| > 1024 || exists k :: k in c.attributes && Blank(k)))
  }

  lemma StepRefusedIff(c: StepConfig)
    ensures PlanStep(c).Err? <==> Refused(c)
  {
  }

  /** A definition is refused exactly when one of its steps is. */
  lemma RefusedIff(configs: seq<StepConfig>)
    ensures ReadSteps(configs).Err? <==> exists k :: 0 <= k < |configs| && Refused(configs[k])
  {
    ReadAllFailsIff(configs, PlanStep);
    forall k | 0 <= k < |configs| ensures PlanStep(configs[k]).Err? <==> Refused(configs[k]) {
      StepRefusedIff(configs[k]);
    }
  }

  // ---------- Identifiers ----------

  lemma LastDash(specialty: string, i: nat)
    ensures AfterLast(AgentId(specialty, i), '-') == |AGENT| + |specialty| + 1
  {
    var id, digits := AgentId(specialty, i), Decimal(i);
    var at := |AGENT| + |specialty| + 1;
    assert id[at - 1] == '-';
    forall j | at <= j < |id| ensures id[j] != '-' {
      assert id[j] == digits[j - at] && digits[j - at] in digits;
    }
  }

  /** Identifiers determine specialty and index, however many dashes and digits the specialty has. */
  lemma AgentIdIsInjective(s: string, i: nat, t: string, j: nat)
    requires AgentId(s, i) == AgentId(t, j)
    ensures s == t && i == j
  {
    LastDash(s, i);
    LastDash(t, j);
    AgentIdParts(s, i);
    AgentIdParts(t, j);
    DecimalRoundTrip(i);
    DecimalRoundTrip(j);
  }

  lemma AgentIdParts(s: string, i: nat)
    ensures AgentId(s, i)[|AGENT|..|AGENT| + |s|] == s && AgentId(s, i)[|AGENT| + |s| + 1..] == Decimal(i)
  {
  }

  predicate IsControl(c: char) { (c as int) < 0x20 || 0x7F <= (c as int) <= 0x9F }

  /** A label accepted as it stands: nothing to trim, within the byte limit, free of control characters. */
  predicate Accepted(s: string, maxBytes: nat)
  {
    Tight(s) && |Utf8.Encode(s)| <= maxBytes && forall c :: c in s ==> !IsControl(c)
  }

  lemma {:induction false} AsciiLength(s: string)
    requires forall c :: c in s ==> (c as int) < 0x80
    ensures |Utf8.Encode(s)| == |s|
  {
    if s != [] {
      assert s[0] in s;
      assert forall c :: c in s[1..] ==> c in s;
      AsciiLength(s[1..]);
    }
  }

  function PowTen(d: nat): nat { if d == 0 then 1 else 10 * PowTen(d - 1) }

  lemma {:induction false} DecimalLength(n: nat, d: nat)
    requires d > 0 && n < PowTen(d)
    ensures |Decimal(n)| <= d
  {
    if n >= 10 { DecimalLength(n / 10, d - 1); }
  }

  /** An identifier built from a valid specialty (at most 128 bytes) and a machine index is always a valid agent id. */
  lemma AgentIdIsAccepted(specialty: string, i: nat)
    requires Accepted(specialty, 128) && i < PowTen(20)
    ensures Accepted(AgentId(specialty, i), 256)
  {
    IndexTail(i);
    Framed(AGENT, specialty, ['-'] + Decimal(i), 128);
    Regrouped(AGENT, specialty, ['-'], Decimal(i));
  }

  lemma Regrouped(a: string, b: string, c: string, d: string)
    ensures a + b + c + d == a + b + (c + d)
  {
  }

  lemma IndexTail(i: nat)
    requires i < PowTen(20)
    ensures Plain(['-'] + Decimal(i)) && |['-'] + Decimal(i)| <= 21
  {
    DecimalLength(i, 20);
  }

  predicate Plain(s: string) { forall c :: c in s ==> 0x20 < (c as int) < 0x7F }

  /** Visible ASCII around an accepted label keeps it accepted, at one byte a character. */
  lemma Framed(before: string, s: string, after: string, maxBytes: nat)
    requires Accepted(s, maxBytes) && Plain(before) && Plain(after) && before != [] && after != []
    ensures Accepted(before + s + after, |before| + maxBytes + |after|)
  {
    var id := before + s + after;
    AsciiLength(before);
    AsciiLength(after);
    Utf8.EncodeConcat(before, s);
    Utf8.EncodeConcat(before + s, after);
    assert id[0] == before[0] && before[0] in before;
    assert id[|id| - 1] == after[|after| - 1] && after[|after| - 1] in after;
    forall c | c in id ensures !IsControl(c) {
      assert c in before || c in s || c in after;
    }
  }

  // ---------- The plan is the gap-free union of the steps ----------

  /** The largest count any step asks for, of one specialty. */
  function MaxCount(steps: seq<Step>, specialty: string): nat
  {
    if steps == [] then 0
    else
      var init, last := MaxCount(steps[..|steps| - 1], specialty), steps[|steps| - 1];
      if last.specialty == specialty && last.count > init then last.count else init
  }

  /** The first step that reaches participant `i` of a specialty. */
  function FirstReaching(steps: seq<Step>, specialty: string, i: nat): Step
    requires i < MaxCount(steps, specialty)
  {
    var init := steps[..|steps| - 1];
    if i < MaxCount(init, specialty) then FirstReaching(init, specialty, i) else steps[|steps| - 1]
  }

  lemma {:induction false} MaxCountMeaning(steps: seq<Step>, specialty: string)
    ensures forall k :: 0 <= k < |steps| && steps[k].specialty == specialty ==>
              steps[k].count <= MaxCount(steps, specialty)
    ensures MaxCount(steps, specialty) > 0 ==>
              exists k :: 0 <= k < |steps| && steps[k].specialty == specialty &&
                          steps[k].count == MaxCount(steps, specialty)
  {
    if steps != [] {
      var init := steps[..|steps| - 1];
      MaxCountMeaning(init, specialty);
      assert forall k :: 0 <= k < |init| ==> init[k] == steps[k];
      var m := MaxCount(steps, specialty);
      if m > 0 {
        if m == MaxCount(init, specialty) {
          var k :| 0 <= k < |init| && init[k].specialty == specialty && init[k].count == m;
          assert steps[k].count == m;
        } else {
          assert steps[|steps| - 1].count == m;
        }
      }
    }
  }

  /** It really is the first: it reaches the index, and no earlier step of that specialty does. */
  lemma {:induction false} FirstReachingMeaning(steps: seq<Step>, specialty: string, i: nat)
    requires i < MaxCount(steps, specialty)
    ensures exists k :: 0 <= k < |steps| && steps[k] == FirstReaching(steps, specialty, i) &&
                        steps[k].specialty == specialty && steps[k].count > i &&
                        forall j :: 0 <= j < k && steps[j].specialty == specialty ==> steps[j].count <= i
  {
    var init := steps[..|steps| - 1];
    assert forall k :: 0 <= k < |init| ==> init[k] == steps[k];
    if i < MaxCount(init, specialty) {
      FirstReachingMeaning(init, specialty, i);
      var k :| 0 <= k < |init| && init[k] == FirstReaching(init, specialty, i) &&
               init[k].specialty == specialty && init[k].count > i &&
               forall j :: 0 <= j < k && init[j].specialty == specialty ==> init[j].count <= i;
      assert steps[k] == FirstReaching(steps, specialty, i);
    } else {
      MaxCountMeaning(init, specialty);
      assert steps[|steps| - 1] == FirstReaching(steps, specialty, i);
    }
  }

  /** `plan` holds exactly the participants the steps ask for, each as described by the first step reaching it. */
  ghost predicate Merges(plan: Plan, steps: seq<Step>)
  {
    && (forall s: string, i: nat :: AgentId(s, i) in plan <==> i < MaxCount(steps, s))
    && (forall s: string, i: nat :: i < MaxCount(steps, s) ==>
          AgentId(s, i) in plan && plan[AgentId(s, i)] == DescriptorOf(FirstReaching(steps, s, i), i))
    && (forall id :: id in plan ==> exists s: string, i: nat :: id == AgentId(s, i) && i < MaxCount(steps, s))
  }

  lemma {:induction false} AddUpToMeaning(plan: Plan, step: Step, n: nat, id: string)
    ensures id in AddUpTo(plan, step, n) <==>
            id in plan || exists i: nat :: i < n && id == AgentId(step.specialty, i)
    ensures id in plan ==> AddUpTo(plan, step, n)[id] == plan[id]
    ensures forall i: nat :: i < n && id == AgentId(step.specialty, i) && id !in plan ==>
              AddUpTo(plan, step, n)[id] == DescriptorOf(step, i)
  {
    if n > 0 {
      AddUpToMeaning(plan, step, n - 1, id);
      var last := AgentId(step.specialty, n - 1);
      forall i: nat | i < n - 1 && AgentId(step.specialty, i) == last ensures false {
        AgentIdIsInjective(step.specialty, i, step.specialty, n - 1);
      }
    }
  }

  lemma MergesStep(plan: Plan, init: seq<Step>, step: Step)
    requires Merges(plan, init)
    ensures Merges(AddUpTo(plan, step, step.count), init + [step])
  {
    var next, steps := AddUpTo(plan, step, step.count), init + [step];
    assert steps[..|steps| - 1] == init;
    forall s: string, i: nat
      ensures AgentId(s, i) in next <==> i < MaxCount(steps, s)
      ensures i < MaxCount(steps, s) ==>
                AgentId(s, i) in next && next[AgentId(s, i)] == DescriptorOf(FirstReaching(steps, s, i), i)
    {
      MergesOne(plan, init, step, s, i);
    }
    forall id | id in next ensures exists s: string, i: nat :: id == AgentId(s, i) && i < MaxCount(steps, s) {
      MergesNoMore(plan, init, step, id);
    }
  }

  lemma MergesNoMore(plan: Plan, init: seq<Step>, step: Step, id: string)
    requires Merges(plan, init) && id in AddUpTo(plan, step, step.count)
    ensures exists s: string, i: nat :: id == AgentId(s, i) && i < MaxCount(init + [step], s)
  {
    var steps := init + [step];
    assert steps[..|steps| - 1] == init;
    AddUpToMeaning(plan, step, step.count, id);
    if id in plan {
      var s: string, i: nat :| id == AgentId(s, i) && i < MaxCount(init, s);
      assert i < MaxCount(steps, s);
    } else {
      var i: nat :| i < step.count && id == AgentId(step.specialty, i);
      assert i < MaxCount(steps, step.specialty);
    }
  }

  lemma MergesOne(plan: Plan, init: seq<Step>, step: Step, s: string, i: nat)
    requires Merges(plan, init)
    ensures var next, steps := AddUpTo(plan, step, step.count), init + [step];
            && (AgentId(s, i) in next <==> i < MaxCount(steps, s))
            && (i < MaxCount(steps, s) ==> next[AgentId(s, i)] == DescriptorOf(FirstReaching(steps, s, i), i))
  {
    var steps := init + [step];
    assert steps[..|steps| - 1] == init;
    AddUpToMeaning(plan, step, step.count, AgentId(s, i));
    forall j: nat | AgentId(s, i) == AgentId(step.specialty, j) ensures s == step.specialty && i == j {
      AgentIdIsInjective(s, i, step.specialty, j);
    }
    assert AgentId(s, i) in plan <==> i < MaxCount(init, s);
  }

  lemma {:induction false} PlanMerges(steps: seq<Step>)
    ensures Merges(PlanOf(steps), steps)
  {
    if steps != [] {
      var init, last := steps[..|steps| - 1], steps[|steps| - 1];
      PlanMerges(init);
      MergesStep(PlanOf(init), init, last);
      assert steps == init + [last];
    }
  }

  /** Participant `i` of a step, field by field. */
  predicate Described(d: Descriptor, step: Step, i: nat)
  {
    && d.id == "agent-" + step.specialty + "-" + Decimal(i)
    && d.specialty == step.specialty && d.kind == step.kind && d.stepId == step.id
    && d.handlerKind == step.handlerKind && d.base == step.attributes && d.index == i
    && (d.name.Some? <==> i < |step.labels|) && (d.name.Some? ==> d.name.value == step.labels[i])
  }

  lemma DescriptorIsDescribed(step: Step, i: nat)
    ensures Described(DescriptorOf(step, i), step, i)
  {
  }

  /** A step's participants are its own, one for each index. */
  lemma DescriptorsAreDescribed(step: Step, n: nat, k: nat)
    requires k < n
    ensures Described(Descriptors(step, n)[k], step, k)
  {
    DescriptorsAt(step, n, k);
    DescriptorIsDescribed(step, k);
  }

  /** The plan holds exactly the participants the steps ask for, each as the first step reaching it describes it. */
  ghost predicate Gathers(plan: Plan, steps: seq<Step>)
  {
    && (forall s: string, i: nat :: i < MaxCount(steps, s) ==>
          AgentId(s, i) in plan && Described(plan[AgentId(s, i)], FirstReaching(steps, s, i), i))
    && (forall id :: id in plan ==> exists s: string, i: nat :: id == AgentId(s, i) && i < MaxCount(steps, s))
    && (forall s: string, i: nat :: AgentId(s, i) in plan ==> i < MaxCount(steps, s))
  }

  /** The plan of a definition is the gap-free, first-wins union of its steps. */
  lemma PlanGathers(steps: seq<Step>)
    ensures Gathers(PlanOf(steps), steps)
  {
    PlanMerges(steps);
    forall s: string, i: nat | i < MaxCount(steps, s)
      ensures AgentId(s, i) in PlanOf(steps) && Described(PlanOf(steps)[AgentId(s, i)], FirstReaching(steps, s, i), i)
    {
      DescriptorIsDescribed(FirstReaching(steps, s, i), i);
    }
  }

  /** What a step asks for, in terms of its configuration, and which malformed field is reported. */
  lemma StepReads(c: StepConfig)
    ensures ReadStep(c).Ok? <==>
            c.specialty.Ok? && c.kind.Ok? && c.labels.Ok? && (c.labels.value == [] ==> c.numAgents.Ok?)
    ensures ReadStep(c).Ok? ==>
              var step := ReadStep(c).value;
              && step.id == c.id && step.handlerKind == c.handlerKind && step.attributes == c.attributes
              && Ok(step.specialty) == c.specialty && Ok(step.kind) == c.kind && Ok(step.labels) == c.labels
              && (step.labels != [] ==> step.count == |step.labels|)
              && (step.labels == [] && c.numAgents.value.Some? ==> step.count == c.numAgents.value.value)
              && (step.labels == [] && c.numAgents.value.None? ==> step.count == 1)
    ensures ReadStep(c).Err? ==>
              ReadStep(c).error ==
              if c.specialty.Err? then c.specialty.error
              else if c.kind.Err? then c.kind.error
              else if c.labels.Err? then c.labels.error
              else c.numAgents.error
  {
  }

  // ---------- Size ----------

  function Specialties(steps: seq<Step>): seq<string>
  {
    if steps == [] then []
    else
      var init, last := Specialties(steps[..|steps| - 1]), steps[|steps| - 1].specialty;
      if last in init then init else init + [last]
  }

  /** The sum of the per-specialty maxima. */
  function SumOfMaxima(specialties: seq<string>, steps: seq<Step>): nat
  {
    if specialties == [] then 0
    else SumOfMaxima(specialties[..|specialties| - 1], steps) + MaxCount(steps, specialties[|specialties| - 1])
  }

  predicate Distinct(ss: seq<string>) { forall i, j :: 0 <= i < j < |ss| ==> ss[i] != ss[j] }

  /** How much one more step raises the maximum of its specialty. */
  function Growth(init: seq<Step>, step: Step): nat
  {
    if step.count > MaxCount(init, step.specialty) then step.count - MaxCount(init, step.specialty) else 0
  }

  /** The next id is taken exactly below `max`. */
  predicate TakenBelow(plan: Plan, step: Step, k: nat, max: nat)
  {
    AgentId(step.specialty, k) in AddUpTo(plan, step, k) <==> k < max
  }

  lemma {:induction false} AddUpToSize(plan: Plan, step: Step, n: nat, max: nat)
    requires forall k: nat :: k < n ==> TakenBelow(plan, step, k, max)
    ensures |AddUpTo(plan, step, n)| == |plan| + if n > max then n - max else 0
  {
    if n > 0 {
      AddUpToSize(plan, step, n - 1, max);
      assert TakenBelow(plan, step, n - 1, max);
    }
  }

  /** After the first `n` participants of a step, the next id is taken exactly when earlier steps reach it. */
  lemma NextIsNewIff(plan: Plan, init: seq<Step>, step: Step, n: nat)
    requires Merges(plan, init)
    ensures TakenBelow(plan, step, n, MaxCount(init, step.specialty))
  {
    var id := AgentId(step.specialty, n);
    AddUpToMeaning(plan, step, n, id);
    forall i: nat | i < n && AgentId(step.specialty, i) == id ensures false {
      AgentIdIsInjective(step.specialty, i, step.specialty, n);
    }
  }

  lemma {:induction false} SumGrows(ss: seq<string>, init: seq<Step>, step: Step)
    requires Distinct(ss)
    ensures SumOfMaxima(ss, init + [step]) ==
            SumOfMaxima(ss, init) + if step.specialty in ss then Growth(init, step) else 0
  {
    assert (init + [step])[..|init|] == init;
    if ss != [] {
      var front, last := ss[..|ss| - 1], ss[|ss| - 1];
      SumGrows(front, init, step);
      assert ss == front + [last];
    }
  }

  lemma {:induction false} SpecialtiesMeaning(steps: seq<Step>)
    ensures Distinct(Specialties(steps))
    ensures forall s :: s in Specialties(steps) <==> exists k :: 0 <= k < |steps| && steps[k].specialty == s
  {
    if steps != [] {
      var init := steps[..|steps| - 1];
      SpecialtiesMeaning(init);
      assert forall k :: 0 <= k < |init| ==> init[k] == steps[k];
      var last := steps[|steps| - 1].specialty;
      forall s ensures s in Specialties(steps) <==> exists k :: 0 <= k < |steps| && steps[k].specialty == s {
        if k :| 0 <= k < |steps| && steps[k].specialty == s {
          if k < |init| { assert init[k].specialty == s; }
        }
        if s in Specialties(init) {
          var k :| 0 <= k < |init| && init[k].specialty == s;
          assert steps[k].specialty == s;
        } else if s == last {
          assert steps[|steps| - 1].specialty == s;
        }
      }
    }
  }

  lemma PlanGrows(init: seq<Step>, step: Step)
    ensures |PlanOf(init + [step])| == |PlanOf(init)| + Growth(init, step)
  {
    PlanMerges(init);
    forall k: nat | k < step.count ensures TakenBelow(PlanOf(init), step, k, MaxCount(init, step.specialty)) {
      NextIsNewIff(PlanOf(init), init, step, k);
    }
    AddUpToSize(PlanOf(init), step, step.count, MaxCount(init, step.specialty));
    assert (init + [step])[..|init|] == init;
  }

  lemma MaximaGrow(init: seq<Step>, step: Step)
    ensures SumOfMaxima(Specialties(init + [step]), init + [step]) ==
            SumOfMaxima(Specialties(init), init) + Growth(init, step)
  {
    var ss, steps := Specialties(init), init + [step];
    SpecialtiesMeaning(init);
    SumGrows(ss, init, step);
    assert steps[..|init|] == init;
    if step.specialty !in ss {
      NewSpecialty(init, step);
      assert (ss + [step.specialty])[..|ss|] == ss;
    }
  }

  /** The plan has as many participants as the per-specialty maxima add up to. */
  lemma {:induction false} PlanSize(steps: seq<Step>)
    ensures |PlanOf(steps)| == SumOfMaxima(Specialties(steps), steps)
  {
    if steps != [] {
      var init, last := steps[..|steps| - 1], steps[|steps| - 1];
      assert steps == init + [last];
      PlanSize(init);
      PlanGrows(init, last);
      MaximaGrow(init, last);
    }
  }

  lemma NewSpecialty(init: seq<Step>, step: Step)
    requires step.specialty !in Specialties(init)
    ensures MaxCount(init, step.specialty) == 0 && MaxCount(init + [step], step.specialty) == Growth(init, step)
  {
    SpecialtiesMeaning(init);
    MaxCountMeaning(init, step.specialty);
    assert (init + [step])[..|init|] == init;
  }
}
