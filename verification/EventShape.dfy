/** The event-shape budget: a bounded recursive walk over a JSON document. */
module EventShape {
  import opened Prelude
  import opened Json
  import Text
  import Utf8

  datatype Limits = Limits(
    maxTotalSizeBytes: nat, maxDepth: nat, maxObjectKeys: nat, maxArrayLen: nat, maxStringLen: nat)

  const DEFAULT_LIMITS := Limits(256 * 1024, 32, 256, 1024, 64 * 1024)

  datatype Kind = MaxDepth | MaxStringLen | MaxArrayLen | MaxObjectKeys

  datatype ShapeViolation = ShapeViolation(kind: Kind, path: string, limit: nat, actual: nat)

  /** The validator's walk: depth before own size, own size before children, first violation wins. */
  function Walk(lim: Limits, v: Value, path: string, depth: nat): Option<ShapeViolation>
    decreases v, 0
  {
    if depth > lim.maxDepth then Some(ShapeViolation(MaxDepth, path, lim.maxDepth, depth))
    else match v
      case Null => None
      case Bool(_) => None
      case Num(_) => None
      case Str(s) =>
        var bytes := |Utf8.Encode(s)|;
        if bytes > lim.maxStringLen then Some(ShapeViolation(MaxStringLen, path, lim.maxStringLen, bytes)) else None
      case Arr(items) =>
        if |items| > lim.maxArrayLen
        then Some(ShapeViolation(MaxArrayLen, path, lim.maxArrayLen, |items|))
        else WalkItems(lim, items, 0, path, depth)
      case Obj(fields) =>
        if |fields| > lim.maxObjectKeys
        then Some(ShapeViolation(MaxObjectKeys, path, lim.maxObjectKeys, |fields|))
        else WalkFields(lim, fields, path, depth)
  }

  function WalkItems(lim: Limits, items: seq<Value>, i: nat, path: string, depth: nat): Option<ShapeViolation>
    decreases items, 1
  {
    if items == [] then None
    else
      var first := Walk(lim, items[0], path + "[" + Text.Decimal(i) + "]", depth + 1);
      if first.Some? then first else WalkItems(lim, items[1..], i + 1, path, depth)
  }

  function WalkFields(lim: Limits, fields: seq<Field>, path: string, depth: nat): Option<ShapeViolation>
    decreases fields, 1
  {
    if fields == [] then None
    else
      var first := Walk(lim, fields[0].value, path + "." + fields[0].key, depth + 1);
      if first.Some? then first else WalkFields(lim, fields[1..], path, depth)
  }

  // ---------- Reference: positions, pre-order, and what offends ----------

  datatype Segment = Index(i: nat) | Key(k: string)

  /** A node met in pre-order, with its position from the root. */
  datatype Visit = Visit(position: seq<Segment>, node: Value)

  function RenderSegment(s: Segment): string
  {
    match s case Index(i) => "[" + Text.Decimal(i) + "]" case Key(k) => "." + k
  }

  function Render(position: seq<Segment>): string
  {
    if position == [] then "$" else Render(position[..|position| - 1]) + RenderSegment(position[|position| - 1])
  }

  function Preorder(v: Value, at: seq<Segment>): seq<Visit>
    decreases v, 0
  {
    [Visit(at, v)] +
    match v
    case Arr(items) => PreorderItems(items, 0, at)
    case Obj(fields) => PreorderFields(fields, at)
    case _ => []
  }

  function PreorderItems(items: seq<Value>, i: nat, at: seq<Segment>): seq<Visit>
    decreases items, 1
  {
    if items == [] then [] else Preorder(items[0], at + [Index(i)]) + PreorderItems(items[1..], i + 1, at)
  }

  function PreorderFields(fields: seq<Field>, at: seq<Segment>): seq<Visit>
    decreases fields, 1
  {
    if fields == [] then []
    else Preorder(fields[0].value, at + [Key(fields[0].key)]) + PreorderFields(fields[1..], at)
  }

  /** How one node, on its own, breaks the budget: depth first, then its own measure. */
  function Offence(lim: Limits, visit: Visit): Option<ShapeViolation>
  {
    var path, depth := Render(visit.position), |visit.position|;
    if depth > lim.maxDepth then Some(ShapeViolation(MaxDepth, path, lim.maxDepth, depth))
    else match visit.node
      case Str(s) =>
        if |Utf8.Encode(s)| > lim.maxStringLen
        then Some(ShapeViolation(MaxStringLen, path, lim.maxStringLen, |Utf8.Encode(s)|)) else None
      case Arr(items) =>
        if |items| > lim.maxArrayLen
        then Some(ShapeViolation(MaxArrayLen, path, lim.maxArrayLen, |items|)) else None
      case Obj(fields) =>
        if |fields| > lim.maxObjectKeys
        then Some(ShapeViolation(MaxObjectKeys, path, lim.maxObjectKeys, |fields|)) else None
      case _ => None
  }

  function FirstOffence(lim: Limits, visits: seq<Visit>): Option<ShapeViolation>
  {
    if visits == [] then None
    else if Offence(lim, visits[0]).Some? then Offence(lim, visits[0])
    else FirstOffence(lim, visits[1..])
  }

  lemma {:induction false} FirstOffenceConcat(lim: Limits, a: seq<Visit>, b: seq<Visit>)
    ensures FirstOffence(lim, a + b) ==
            if FirstOffence(lim, a).Some? then FirstOffence(lim, a) else FirstOffence(lim, b)
  {
    if a == [] {
      assert a + b == b;
    } else {
      assert (a + b)[1..] == a[1..] + b;
      FirstOffenceConcat(lim, a[1..], b);
    }
  }

  lemma RenderStep(at: seq<Segment>, s: Segment)
    ensures Render(at + [s]) == Render(at) + RenderSegment(s)
  {
    assert (at + [s])[..|at|] == at;
  }

  lemma {:induction false} WalkIsFirstOffence(lim: Limits, v: Value, at: seq<Segment>)
    ensures Walk(lim, v, Render(at), |at|) == FirstOffence(lim, Preorder(v, at))
    decreases v, 0
  {
    var rest := Preorder(v, at)[1..];
    match v {
      case Arr(items) =>
        WalkItemsIsFirstOffence(lim, items, 0, at);
        assert rest == PreorderItems(items, 0, at);
      case Obj(fields) =>
        WalkFieldsIsFirstOffence(lim, fields, at);
        assert rest == PreorderFields(fields, at);
      case _ =>
        assert rest == [];
    }
  }

  lemma {:induction false} WalkItemsIsFirstOffence(lim: Limits, items: seq<Value>, i: nat, at: seq<Segment>)
    ensures WalkItems(lim, items, i, Render(at), |at|) == FirstOffence(lim, PreorderItems(items, i, at))
    decreases items, 1
  {
    if items != [] {
      RenderStep(at, Index(i));
      assert Render(at) + "[" + Text.Decimal(i) + "]" == Render(at) + ("[" + Text.Decimal(i) + "]");
      WalkIsFirstOffence(lim, items[0], at + [Index(i)]);
      WalkItemsIsFirstOffence(lim, items[1..], i + 1, at);
      FirstOffenceConcat(lim, Preorder(items[0], at + [Index(i)]), PreorderItems(items[1..], i + 1, at));
    }
  }

  lemma {:induction false} WalkFieldsIsFirstOffence(lim: Limits, fields: seq<Field>, at: seq<Segment>)
    ensures WalkFields(lim, fields, Render(at), |at|) == FirstOffence(lim, PreorderFields(fields, at))
    decreases fields, 1
  {
    if fields != [] {
      var k := fields[0].key;
      RenderStep(at, Key(k));
      assert Render(at) + "." + k == Render(at) + ("." + k);
      WalkIsFirstOffence(lim, fields[0].value, at + [Key(k)]);
      WalkFieldsIsFirstOffence(lim, fields[1..], at);
      FirstOffenceConcat(lim, Preorder(fields[0].value, at + [Key(k)]), PreorderFields(fields[1..], at));
    }
  }

  lemma {:induction false} FirstOffenceMeaning(lim: Limits, visits: seq<Visit>)
    ensures FirstOffence(lim, visits).None? <==> forall i :: 0 <= i < |visits| ==> Offence(lim, visits[i]).None?
    ensures FirstOffence(lim, visits).Some? ==>
              exists i :: 0 <= i < |visits| && Offence(lim, visits[i]) == FirstOffence(lim, visits) &&
                          forall j :: 0 <= j < i ==> Offence(lim, visits[j]).None?
  {
    if visits != [] && Offence(lim, visits[0]).None? {
      var tail := visits[1..];
      FirstOffenceMeaning(lim, tail);
      assert forall j :: 0 <= j < |tail| ==> tail[j] == visits[j + 1];
      assert forall j :: 0 < j < |visits| ==> visits[j] == tail[j - 1];
      if FirstOffence(lim, tail).Some? {
        var i :| 0 <= i < |tail| && Offence(lim, tail[i]) == FirstOffence(lim, tail) &&
                 forall j :: 0 <= j < i ==> Offence(lim, tail[j]).None?;
        assert Offence(lim, visits[i + 1]) == FirstOffence(lim, visits);
      }
    }
  }

  /**
   The walk passes exactly the documents without an offending node; otherwise it reports the first
   offending node in pre-order, with the rendering of that node's position and its true measure.
   */
  lemma WalkReportsFirstOffence(lim: Limits, v: Value)
    ensures var w, visits := Walk(lim, v, "$", 0), Preorder(v, []);
            && (w.None? <==> forall i :: 0 <= i < |visits| ==> Offence(lim, visits[i]).None?)
            && (w.Some? ==>
                  exists i :: 0 <= i < |visits| && Offence(lim, visits[i]) == w &&
                              forall j :: 0 <= j < i ==> Offence(lim, visits[j]).None?)
            && (w.Some? ==> w.value.actual > w.value.limit)
  {
    assert Render([]) == "$";
    WalkIsFirstOffence(lim, v, []);
    FirstOffenceMeaning(lim, Preorder(v, []));
  }

  // ---------- The pre-order is exactly the set of nodes ----------

  /** The node a position leads to; with distinct keys there is at most one. */
  ghost predicate Leads(v: Value, position: seq<Segment>, node: Value)
    decreases |position|
  {
    if position == [] then v == node
    else match position[0]
      case Index(i) => v.Arr? && i < |v.items| && Leads(v.items[i], position[1..], node)
      case Key(k) =>
        && v.Obj?
        && exists i :: 0 <= i < |v.fields| && v.fields[i].key == k && Leads(v.fields[i].value, position[1..], node)
  }

  /** A position below `at` in the pre-order leads, from the subtree's root, to the node listed with it. */
  ghost predicate Listed(v: Value, at: seq<Segment>, visit: Visit)
  {
    at <= visit.position && Leads(v, visit.position[|at|..], visit.node)
  }

  /** `visit` lies below `at`, next through the item at its own index. */
  ghost predicate ListedInItems(items: seq<Value>, i: nat, at: seq<Segment>, visit: Visit)
  {
    && |visit.position| > |at| && at <= visit.position && visit.position[|at|].Index?
    && i <= visit.position[|at|].i < i + |items|
    && Leads(items[visit.position[|at|].i - i], visit.position[|at| + 1..], visit.node)
  }

  /** `visit` lies below `at`, next through a field of its own key. */
  ghost predicate ListedInFields(fields: seq<Field>, at: seq<Segment>, visit: Visit)
  {
    && |visit.position| > |at| && at <= visit.position && visit.position[|at|].Key?
    && exists i :: 0 <= i < |fields| && fields[i].key == visit.position[|at|].k &&
                   Leads(fields[i].value, visit.position[|at| + 1..], visit.node)
  }

  /** A visit below `at + [seg]` is a visit below `at` whose next segment is `seg`. */
  lemma ListedBelow(v: Value, at: seq<Segment>, seg: Segment, visit: Visit)
    ensures Listed(v, at + [seg], visit) <==>
            && |visit.position| > |at| && at <= visit.position && visit.position[|at|] == seg
            && Leads(v, visit.position[|at| + 1..], visit.node)
  {
    var p := visit.position;
    assert at + [seg] <= p <==> at <= p && |p| > |at| && p[|at|] == seg;
  }

  lemma ListedItemsStep(items: seq<Value>, i: nat, at: seq<Segment>, visit: Visit)
    requires items != []
    ensures ListedInItems(items, i, at, visit) <==>
            Listed(items[0], at + [Index(i)], visit) || ListedInItems(items[1..], i + 1, at, visit)
  {
    ListedBelow(items[0], at, Index(i), visit);
  }

  lemma ListedFieldsStep(fields: seq<Field>, at: seq<Segment>, visit: Visit)
    requires fields != []
    ensures ListedInFields(fields, at, visit) <==>
            Listed(fields[0].value, at + [Key(fields[0].key)], visit) || ListedInFields(fields[1..], at, visit)
  {
    ListedBelow(fields[0].value, at, Key(fields[0].key), visit);
    assert forall i :: 0 <= i < |fields[1..]| ==> fields[1..][i] == fields[i + 1];
    assert forall i :: 0 < i < |fields| ==> fields[i] == fields[1..][i - 1];
  }

  /** A visit at `at` itself names the root; deeper ones go through an item or a field. */
  lemma ListedCases(v: Value, at: seq<Segment>, visit: Visit)
    ensures Listed(v, at, visit) <==>
            || visit == Visit(at, v)
            || (v.Arr? && ListedInItems(v.items, 0, at, visit))
            || (v.Obj? && ListedInFields(v.fields, at, visit))
  {
    var p := visit.position;
    if at <= p {
      if |p| > |at| {
        assert p[|at|..][0] == p[|at|];
        assert p[|at|..][1..] == p[|at| + 1..];
      } else {
        assert p == at;
      }
    }
  }

  /** Soundness and completeness of the pre-order: it lists precisely the nodes of the document with their positions. */
  lemma {:induction false} PreorderIsAllNodes(v: Value, at: seq<Segment>, visit: Visit)
    ensures visit in Preorder(v, at) <==> Listed(v, at, visit)
    decreases v, 0
  {
    ListedCases(v, at, visit);
    match v {
      case Arr(items) => PreorderItemsAreAllNodes(items, 0, at, visit);
      case Obj(fields) => PreorderFieldsAreAllNodes(fields, at, visit);
      case _ =>
    }
  }

  lemma {:induction false} PreorderItemsAreAllNodes(items: seq<Value>, i: nat, at: seq<Segment>, visit: Visit)
    ensures visit in PreorderItems(items, i, at) <==> ListedInItems(items, i, at, visit)
    decreases items, 1
  {
    if items != [] {
      PreorderIsAllNodes(items[0], at + [Index(i)], visit);
      PreorderItemsAreAllNodes(items[1..], i + 1, at, visit);
      ListedItemsStep(items, i, at, visit);
    }
  }

  lemma {:induction false} PreorderFieldsAreAllNodes(fields: seq<Field>, at: seq<Segment>, visit: Visit)
    ensures visit in PreorderFields(fields, at) <==> ListedInFields(fields, at, visit)
    decreases fields, 1
  {
    if fields != [] {
      PreorderIsAllNodes(fields[0].value, at + [Key(fields[0].key)], visit);
      PreorderFieldsAreAllNodes(fields[1..], at, visit);
      ListedFieldsStep(fields, at, visit);
    }
  }

  // ---------- Size, recursion depth and monotonicity ----------

  function Pow(b: nat, e: nat): nat { if e == 0 then 1 else b * Pow(b, e - 1) }

  /** 1 + b + b^2 + ... + b^n. */
  function PowerSum(b: nat, n: nat): nat { if n == 0 then 1 else PowerSum(b, n - 1) + Pow(b, n) }

  lemma {:induction false} PowerSumStep(b: nat, n: nat)
    ensures PowerSum(b, n + 1) == 1 + b * PowerSum(b, n)
  {
    if n == 0 {
      assert Pow(b, 1) == b * Pow(b, 0);
    } else {
      PowerSumStep(b, n - 1);
      Distribute(b, PowerSum(b, n - 1), Pow(b, n));
    }
  }

  lemma Distribute(b: nat, x: nat, y: nat)
    ensures b * (x + y) == b * x + b * y
  {
  }

  lemma MultiplyMonotone(k: nat, b: nat, w: nat)
    requires k <= b
    ensures k * w <= b * w
  {
  }

  function Branching(lim: Limits): nat
  {
    if lim.maxArrayLen > lim.maxObjectKeys then lim.maxArrayLen else lim.maxObjectKeys
  }

  lemma {:induction false} SubtreeSize(lim: Limits, v: Value, at: seq<Segment>)
    requires FirstOffence(lim, Preorder(v, at)).None?
    ensures |at| <= lim.maxDepth
    ensures |Preorder(v, at)| <= PowerSum(Branching(lim), lim.maxDepth - |at|)
    decreases v, 0
  {
    var n := lim.maxDepth - |at|;
    assert Offence(lim, Preorder(v, at)[0]).None?;
    match v {
      case Arr(items) =>
        assert Preorder(v, at)[1..] == PreorderItems(items, 0, at);
        ItemsSize(lim, items, 0, at);
        if items != [] { SizeStep(|items|, Branching(lim), n); }
      case Obj(fields) =>
        assert Preorder(v, at)[1..] == PreorderFields(fields, at);
        FieldsSize(lim, fields, at);
        if fields != [] { SizeStep(|fields|, Branching(lim), n); }
      case _ =>
    }
    PowerSumPositive(Branching(lim), n);
  }

  lemma PowerSumPositive(b: nat, n: nat)
    ensures PowerSum(b, n) >= 1
  {
  }

  lemma SizeStep(k: nat, b: nat, n: nat)
    requires k <= b && n > 0
    ensures 1 + k * PowerSum(b, n - 1) <= PowerSum(b, n)
  {
    PowerSumStep(b, n - 1);
    MultiplyMonotone(k, b, PowerSum(b, n - 1));
  }

  lemma {:induction false} ItemsSize(lim: Limits, items: seq<Value>, i: nat, at: seq<Segment>)
    requires |at| <= lim.maxDepth
    requires FirstOffence(lim, PreorderItems(items, i, at)).None?
    ensures items != [] ==> |at| < lim.maxDepth
    ensures items != [] ==>
              |PreorderItems(items, i, at)| <= |items| * PowerSum(Branching(lim), lim.maxDepth - |at| - 1)
    decreases items, 1
  {
    if items != [] {
      var s := at + [Index(i)];
      FirstOffenceConcat(lim, Preorder(items[0], s), PreorderItems(items[1..], i + 1, at));
      SubtreeSize(lim, items[0], s);
      ItemsSize(lim, items[1..], i + 1, at);
      var w := PowerSum(Branching(lim), lim.maxDepth - |at| - 1);
      assert |items| * w == w + (|items| - 1) * w;
    }
  }

  lemma {:induction false} FieldsSize(lim: Limits, fields: seq<Field>, at: seq<Segment>)
    requires |at| <= lim.maxDepth
    requires FirstOffence(lim, PreorderFields(fields, at)).None?
    ensures fields != [] ==> |at| < lim.maxDepth
    ensures fields != [] ==>
              |PreorderFields(fields, at)| <= |fields| * PowerSum(Branching(lim), lim.maxDepth - |at| - 1)
    decreases fields, 1
  {
    if fields != [] {
      var s := at + [Key(fields[0].key)];
      FirstOffenceConcat(lim, Preorder(fields[0].value, s), PreorderFields(fields[1..], at));
      SubtreeSize(lim, fields[0].value, s);
      FieldsSize(lim, fields[1..], at);
      var w := PowerSum(Branching(lim), lim.maxDepth - |at| - 1);
      assert |fields| * w == w + (|fields| - 1) * w;
    }
  }

  /** A passing document has at most 1 + b + ... + b^maxDepth nodes. */
  lemma PassingDocumentSize(lim: Limits, v: Value)
    requires Walk(lim, v, "$", 0).None?
    ensures |Preorder(v, [])| <= PowerSum(Branching(lim), lim.maxDepth)
  {
    assert Render([]) == "$";
    WalkIsFirstOffence(lim, v, []);
    SubtreeSize(lim, v, []);
  }

  /** The document with everything at depth `below` or deeper blanked out. */
  function Prune(v: Value, below: nat): Value
    decreases v, 0
  {
    if below == 0 then Null
    else match v
      case Arr(items) => Arr(PruneItems(items, below - 1))
      case Obj(fields) => Obj(PruneFields(fields, below - 1))
      case _ => v
  }

  function PruneItems(items: seq<Value>, below: nat): (r: seq<Value>)
    ensures |r| == |items|
    decreases items, 1
  {
    if items == [] then [] else [Prune(items[0], below)] + PruneItems(items[1..], below)
  }

  function PruneFields(fields: seq<Field>, below: nat): (r: seq<Field>)
    ensures |r| == |fields|
    decreases fields, 1
  {
    if fields == [] then []
    else [Field(fields[0].key, Prune(fields[0].value, below))] + PruneFields(fields[1..], below)
  }

  /**
   The walk never looks past depth maxDepth + 1, on any input: whatever sits at that depth or
   deeper can be replaced by null without changing its answer.
   */
  lemma {:induction false} WalkIgnoresDeepNodes(lim: Limits, v: Value, path: string, depth: nat)
    requires depth <= lim.maxDepth + 1
    ensures Walk(lim, v, path, depth) == Walk(lim, Prune(v, lim.maxDepth + 1 - depth), path, depth)
    decreases v, 0
  {
    if depth <= lim.maxDepth {
      match v {
        case Arr(items) => WalkItemsIgnoresDeepNodes(lim, items, 0, path, depth);
        case Obj(fields) => WalkFieldsIgnoresDeepNodes(lim, fields, path, depth);
        case _ =>
      }
    }
  }

  lemma WalkItemsCons(lim: Limits, v: Value, rest: seq<Value>, i: nat, path: string, depth: nat)
    ensures WalkItems(lim, [v] + rest, i, path, depth) ==
            var first := Walk(lim, v, path + "[" + Text.Decimal(i) + "]", depth + 1);
            if first.Some? then first else WalkItems(lim, rest, i + 1, path, depth)
  {
    assert ([v] + rest)[1..] == rest;
  }

  lemma {:induction false} WalkItemsIgnoresDeepNodes(lim: Limits, items: seq<Value>, i: nat, path: string, depth: nat)
    requires depth <= lim.maxDepth
    ensures WalkItems(lim, items, i, path, depth) ==
            WalkItems(lim, PruneItems(items, lim.maxDepth - depth), i, path, depth)
    decreases items, 1
  {
    if items != [] {
      var below := lim.maxDepth - depth;
      WalkIgnoresDeepNodes(lim, items[0], path + "[" + Text.Decimal(i) + "]", depth + 1);
      WalkItemsIgnoresDeepNodes(lim, items[1..], i + 1, path, depth);
      WalkItemsCons(lim, Prune(items[0], below), PruneItems(items[1..], below), i, path, depth);
    }
  }

  lemma WalkFieldsCons(lim: Limits, f: Field, rest: seq<Field>, path: string, depth: nat)
    ensures WalkFields(lim, [f] + rest, path, depth) ==
            var first := Walk(lim, f.value, path + "." + f.key, depth + 1);
            if first.Some? then first else WalkFields(lim, rest, path, depth)
  {
    assert ([f] + rest)[1..] == rest;
  }

  lemma {:induction false} WalkFieldsIgnoresDeepNodes(lim: Limits, fields: seq<Field>, path: string, depth: nat)
    requires depth <= lim.maxDepth
    ensures WalkFields(lim, fields, path, depth) ==
            WalkFields(lim, PruneFields(fields, lim.maxDepth - depth), path, depth)
    decreases fields, 1
  {
    if fields != [] {
      var below, f := lim.maxDepth - depth, fields[0];
      WalkIgnoresDeepNodes(lim, f.value, path + "." + f.key, depth + 1);
      WalkFieldsIgnoresDeepNodes(lim, fields[1..], path, depth);
      WalkFieldsCons(lim, Field(f.key, Prune(f.value, below)), PruneFields(fields[1..], below), path, depth);
    }
  }

  predicate AtLeast(a: Limits, b: Limits)
  {
    a.maxDepth >= b.maxDepth && a.maxObjectKeys >= b.maxObjectKeys &&
    a.maxArrayLen >= b.maxArrayLen && a.maxStringLen >= b.maxStringLen
  }

  /** Raising limits never turns a pass into a failure. */
  lemma RaisingLimitsKeepsPasses(lim: Limits, raised: Limits, v: Value)
    requires AtLeast(raised, lim) && Walk(lim, v, "$", 0).None?
    ensures Walk(raised, v, "$", 0).None?
  {
    var visits := Preorder(v, []);
    assert Render([]) == "$";
    WalkIsFirstOffence(lim, v, []);
    WalkIsFirstOffence(raised, v, []);
    FirstOffenceMeaning(lim, visits);
    FirstOffenceMeaning(raised, visits);
    forall i | 0 <= i < |visits| ensures Offence(raised, visits[i]).None? {
      assert Offence(lim, visits[i]).None?;
    }
  }
}
