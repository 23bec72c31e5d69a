/** The evidence-grounding gate: every claim cites, and cites only, the evidence the contract allows. */
module Grounding {
  import opened Prelude
  import opened Json
  import opened Contracts
  import ClaimPreviews

  datatype Problem =
    | NotAnObject(actualType: string)
    | RefsMissing(preview: string)
    | CitesNothing(preview: string)
    | RefNotString(preview: string, actualType: string)
    | OrphanRefs(preview: string, orphans: seq<string>)

  datatype Violation = Violation(claimIndex: nat, problem: Problem)

  /** The text a claim is previewed and judged by: its `text` field, or the printed object. */
  function ClaimText(fields: seq<Field>, show: Value -> string): string
  {
    var text := Get(fields, "text");
    if text.Some? && text.value.Str? then text.value.s else show(Obj(fields))
  }

  /** `t` is what an object claim says: its `text` entry when that is a string, else the printed object. */
  ghost predicate Says(fields: seq<Field>, show: Value -> string, t: string)
  {
    if exists s :: Maps(fields, "text", Str(s)) then Maps(fields, "text", Str(t)) else t == show(Obj(fields))
  }

  lemma ClaimTextSays(fields: seq<Field>, show: Value -> string)
    ensures Says(fields, show, ClaimText(fields, show))
  {
    forall v ensures Get(fields, "text") == Some(v) <==> Maps(fields, "text", v) { GetMeaning(fields, "text", v); }
    if s :| Maps(fields, "text", Str(s)) { assert Get(fields, "text") == Some(Str(s)); }
  }

  /** `p` is the preview of what the claim says. */
  ghost predicate Previews(claim: Value, show: Value -> string, p: string)
  {
    claim.Obj? && exists t :: Says(claim.fields, show, t) && p == ClaimPreviews.Preview(t)
  }

  lemma PreviewOfPreviews(claim: Value, show: Value -> string)
    requires claim.Obj?
    ensures Previews(claim, show, PreviewOf(claim, show))
  {
    ClaimTextSays(claim.fields, show);
  }

  /** The references a claim cites are the array under the rule's field. */
  lemma RefsMeaning(fields: seq<Field>, refsField: string, refs: seq<Value>)
    ensures Refs(fields, refsField) == Some(refs) <==> Maps(fields, refsField, Arr(refs))
  {
    GetMeaning(fields, refsField, Arr(refs));
  }

  /** Grounded, on the document itself. */
  lemma GroundedMeaning(claim: Value, rule: GroundingRule)
    ensures Grounded(claim, rule) <==>
            claim.Obj? && exists refs :: Maps(claim.fields, rule.refsField, Arr(refs)) && refs != [] &&
                                         forall r :: r in refs ==> r.Str? && r.s in rule.allowedRefs
  {
    if claim.Obj? {
      forall refs ensures Refs(claim.fields, rule.refsField) == Some(refs) <==>
                          Maps(claim.fields, rule.refsField, Arr(refs))
      {
        RefsMeaning(claim.fields, rule.refsField, refs);
      }
      if Grounded(claim, rule) {
        assert Maps(claim.fields, rule.refsField, Arr(Refs(claim.fields, rule.refsField).value));
      }
    }
  }

  function Refs(fields: seq<Field>, refsField: string): Option<seq<Value>> { ArrayOf(Get(fields, refsField)) }

  function Orphans(refs: seq<Value>, allowed: set<string>): seq<string>
  {
    if refs == [] then []
    else
      var last, init := refs[|refs| - 1], Orphans(refs[..|refs| - 1], allowed);
      if last.Str? && last.s !in allowed then init + [last.s] else init
  }

  function NonStrings(index: nat, preview: string, refs: seq<Value>): seq<Violation>
  {
    if refs == [] then []
    else
      var last, init := refs[|refs| - 1], NonStrings(index, preview, refs[..|refs| - 1]);
      if last.Str? then init else init + [Violation(index, RefNotString(preview, TypeName(last)))]
  }

  /** The violations of one claim, as a value. */
  function ViolationsOf(index: nat, claim: Value, rule: GroundingRule, show: Value -> string): seq<Violation>
  {
    if !claim.Obj? then [Violation(index, NotAnObject(TypeName(claim)))]
    else
      var preview := ClaimPreviews.Preview(ClaimText(claim.fields, show));
      var refs := Refs(claim.fields, rule.refsField);
      if refs.None? then [Violation(index, RefsMissing(preview))]
      else if refs.value == [] then [Violation(index, CitesNothing(preview))]
      else
        var orphans := Orphans(refs.value, rule.allowedRefs);
        NonStrings(index, preview, refs.value) +
        if orphans == [] then [] else [Violation(index, OrphanRefs(preview, orphans))]
  }

  /** The source's loop over one claim's references. */
  method ClaimViolations(index: nat, claim: Value, rule: GroundingRule, show: Value -> string)
    returns (violations: seq<Violation>)
    ensures violations == ViolationsOf(index, claim, rule, show)
  {
    if !claim.Obj? {
      return [Violation(index, NotAnObject(TypeName(claim)))];
    }
    var preview := ClaimPreviews.Preview(ClaimText(claim.fields, show));
    var found := Refs(claim.fields, rule.refsField);
    if found.None? {
      return [Violation(index, RefsMissing(preview))];
    }
    var refs := found.value;
    if refs == [] {
      return [Violation(index, CitesNothing(preview))];
    }
    violations := [];
    var orphans := [];
    for i := 0 to |refs|
      invariant violations == NonStrings(index, preview, refs[..i])
      invariant orphans == Orphans(refs[..i], rule.allowedRefs)
    {
      assert refs[..i + 1][..i] == refs[..i];
      match refs[i] {
        case Str(id) =>
          if id !in rule.allowedRefs { orphans := orphans + [id]; }
        case other =>
          violations := violations + [Violation(index, RefNotString(preview, TypeName(other)))];
      }
    }
    assert refs[..|refs|] == refs;
    if orphans != [] {
      violations := violations + [Violation(index, OrphanRefs(preview, orphans))];
    }
  }

  /** A claim is grounded when it is an object citing a non-empty array of allowed reference strings. */
  predicate Grounded(claim: Value, rule: GroundingRule)
  {
    && claim.Obj?
    && var refs := Refs(claim.fields, rule.refsField);
    && refs.Some? && refs.value != []
    && forall r :: r in refs.value ==> r.Str? && r.s in rule.allowedRefs
  }

  lemma {:induction false} OrphansMeaning(refs: seq<Value>, allowed: set<string>)
    ensures Orphans(refs, allowed) == [] <==> forall r :: r in refs ==> r.Str? ==> r.s in allowed
    ensures forall id :: id in Orphans(refs, allowed) <==> id !in allowed && Str(id) in refs
  {
    if refs != [] {
      var init := refs[..|refs| - 1];
      OrphansMeaning(init, allowed);
      assert refs == init + [refs[|refs| - 1]];
    }
  }

  lemma {:induction false} NonStringsMeaning(index: nat, preview: string, refs: seq<Value>)
    ensures NonStrings(index, preview, refs) == [] <==> forall r :: r in refs ==> r.Str?
    ensures forall v :: v in NonStrings(index, preview, refs) ==> v.claimIndex == index
  {
    if refs != [] {
      var init := refs[..|refs| - 1];
      NonStringsMeaning(index, preview, init);
      assert refs == init + [refs[|refs| - 1]];
    }
  }

  /** A claim has no violation exactly when it is grounded, and its violations name it and nothing else. */
  lemma ViolationsMeanUngrounded(index: nat, claim: Value, rule: GroundingRule, show: Value -> string)
    ensures ViolationsOf(index, claim, rule, show) == [] <==> Grounded(claim, rule)
    ensures forall v :: v in ViolationsOf(index, claim, rule, show) ==> v.claimIndex == index
  {
    if claim.Obj? {
      var refs := Refs(claim.fields, rule.refsField);
      if refs.Some? && refs.value != [] {
        OrphansMeaning(refs.value, rule.allowedRefs);
        NonStringsMeaning(index, ClaimPreviews.Preview(ClaimText(claim.fields, show)), refs.value);
      }
    }
  }

  /** What a violation says about its claim. */
  ghost predicate Explains(claim: Value, rule: GroundingRule, show: Value -> string, v: Violation)
  {
    match v.problem
    case NotAnObject(actual) => !claim.Obj? && actual == TypeName(claim)
    case RefsMissing(p) => Previews(claim, show, p) && Refs(claim.fields, rule.refsField).None?
    case CitesNothing(p) => Previews(claim, show, p) && Refs(claim.fields, rule.refsField) == Some([])
    case RefNotString(p, actual) =>
      && Previews(claim, show, p) && Cites(claim, rule)
      && exists r :: r in Cited(claim, rule) && !r.Str? && actual == TypeName(r)
    case OrphanRefs(p, orphans) =>
      && Previews(claim, show, p) && Cites(claim, rule) && orphans != []
      && forall id :: id in orphans <==> id !in rule.allowedRefs && Str(id) in Cited(claim, rule)
  }

  /** A claim's preview; a claim that is not an object has none. */
  function PreviewOf(claim: Value, show: Value -> string): string
  {
    if claim.Obj? then ClaimPreviews.Preview(ClaimText(claim.fields, show)) else ""
  }

  predicate Cites(claim: Value, rule: GroundingRule) { claim.Obj? && Refs(claim.fields, rule.refsField).Some? }

  function Cited(claim: Value, rule: GroundingRule): seq<Value>
    requires Cites(claim, rule)
  {
    Refs(claim.fields, rule.refsField).value
  }

  lemma {:induction false} NonStringsSayWhy(index: nat, preview: string, refs: seq<Value>, v: Violation)
    requires v in NonStrings(index, preview, refs)
    ensures v.problem.RefNotString? && v.problem.preview == preview
    ensures exists r :: r in refs && !r.Str? && v.problem.actualType == TypeName(r)
  {
    var init, last := refs[..|refs| - 1], refs[|refs| - 1];
    assert refs == init + [last];
    if v in NonStrings(index, preview, init) {
      NonStringsSayWhy(index, preview, init, v);
    } else {
      assert last in refs && !last.Str?;
    }
  }

  /** Every violation states the true reason, and the orphans it lists are exactly the claim's. */
  lemma ViolationsSayWhy(index: nat, claim: Value, rule: GroundingRule, show: Value -> string, v: Violation)
    requires v in ViolationsOf(index, claim, rule, show)
    ensures Explains(claim, rule, show, v)
  {
    if claim.Obj? { PreviewOfPreviews(claim, show); }
    if claim.Obj? && Refs(claim.fields, rule.refsField).Some? && Refs(claim.fields, rule.refsField).value != [] {
      var refs, preview := Cited(claim, rule), ClaimPreviews.Preview(ClaimText(claim.fields, show));
      OrphansMeaning(refs, rule.allowedRefs);
      if v in NonStrings(index, preview, refs) { NonStringsSayWhy(index, preview, refs, v); }
    }
  }

  /** All claims of a proposal, numbered from `index`. */
  function AllViolations(claims: seq<Value>, index: nat, rule: GroundingRule, show: Value -> string): seq<Violation>
  {
    if claims == [] then []
    else ViolationsOf(index, claims[0], rule, show) + AllViolations(claims[1..], index + 1, rule, show)
  }

  ghost predicate Named(violations: seq<Violation>, index: int) { exists v :: v in violations && v.claimIndex == index }

  /** The indices the gate names are exactly the ungrounded claims. */
  lemma {:induction false} NamedClaimsAreUngrounded(
    claims: seq<Value>, index: nat, rule: GroundingRule, show: Value -> string, k: int)
    ensures Named(AllViolations(claims, index, rule, show), k) <==>
            index <= k < index + |claims| && !Grounded(claims[k - index], rule)
  {
    if claims != [] {
      var head, tail := ViolationsOf(index, claims[0], rule, show), AllViolations(claims[1..], index + 1, rule, show);
      ViolationsMeanUngrounded(index, claims[0], rule, show);
      NamedClaimsAreUngrounded(claims[1..], index + 1, rule, show, k);
      NamedInEither(head, tail, k);
      assert head != [] ==> head[0] in head;
    }
  }

  lemma ExactlyUngroundedAreNamed(claims: seq<Value>, index: nat, rule: GroundingRule, show: Value -> string)
    ensures forall k :: Named(AllViolations(claims, index, rule, show), k) <==>
              index <= k < index + |claims| && !Grounded(claims[k - index], rule)
  {
    forall k ensures Named(AllViolations(claims, index, rule, show), k) <==>
                     index <= k < index + |claims| && !Grounded(claims[k - index], rule)
    {
      NamedClaimsAreUngrounded(claims, index, rule, show, k);
    }
  }

  lemma NamedInEither(a: seq<Violation>, b: seq<Violation>, k: int)
    ensures Named(a + b, k) <==> Named(a, k) || Named(b, k)
  {
  }

  /** The gate is silent exactly when every claim is grounded. */
  lemma {:induction false} SilentIffAllGrounded(
    claims: seq<Value>, index: nat, rule: GroundingRule, show: Value -> string)
    ensures AllViolations(claims, index, rule, show) == [] <==> forall c :: c in claims ==> Grounded(c, rule)
  {
    if claims != [] {
      ViolationsMeanUngrounded(index, claims[0], rule, show);
      SilentIffAllGrounded(claims[1..], index + 1, rule, show);
      assert claims == [claims[0]] + claims[1..];
    }
  }
}
