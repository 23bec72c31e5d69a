/** The bounded, character-safe preview of a claim that violation records carry. */
module ClaimPreviews {
  import opened Utf8

  const CLAIM_TEXT_PREVIEW_LEN: nat := 80
  const ELLIPSIS := "\U{2026}"

  /** How many whole characters of `s` fit into `budget` bytes. */
  function Fit(s: string, budget: nat): (k: nat)
    ensures k <= |s|
  {
    if s == [] || Width(s[0]) > budget then 0 else 1 + Fit(s[1..], budget - Width(s[0]))
  }

  /** The preview in characters: the text itself when short, else the longest fitting prefix and an ellipsis. */
  function Preview(s: string): string
  {
    if |Encode(s)| <= CLAIM_TEXT_PREVIEW_LEN then s else s[..Fit(s, CLAIM_TEXT_PREVIEW_LEN)] + ELLIPSIS
  }

  /** `Fit` is the longest whole-character prefix within the budget. */
  lemma {:induction false} FitIsLongest(s: string, budget: nat)
    ensures |Encode(s[..Fit(s, budget)])| <= budget
    ensures Fit(s, budget) < |s| ==> |Encode(s[..Fit(s, budget) + 1])| > budget
    ensures |Encode(s)| > budget ==> Fit(s, budget) < |s|
  {
    var k := Fit(s, budget);
    if s == [] {
    } else if Width(s[0]) > budget {
      assert s[..1] == [s[0]];
      assert Encode(s[..1]) == EncodeChar(s[0]) + Encode([]);
    } else {
      FitIsLongest(s[1..], budget - Width(s[0]));
      assert s[..k][1..] == s[1..][..k - 1];
      if k < |s| { assert s[..k + 1][1..] == s[1..][..k]; }
    }
  }

  lemma PrefixBytes(s: string, k: nat)
    requires k <= |s|
    ensures |Encode(s[..k])| <= |Encode(s)| && Encode(s)[..|Encode(s[..k])|] == Encode(s[..k])
  {
    assert s == s[..k] + s[k..];
    EncodeConcat(s[..k], s[k..]);
  }

  /** Where a long text is cut: the last character boundary within the limit, at most three bytes before it. */
  predicate IsCut(raw: seq<Byte>, cut: nat)
  {
    && cut <= CLAIM_TEXT_PREVIEW_LEN <= cut + 3 && CLAIM_TEXT_PREVIEW_LEN < |raw|
    && IsCharBoundary(raw, cut)
    && forall i: nat :: cut < i <= CLAIM_TEXT_PREVIEW_LEN ==> !IsCharBoundary(raw, i)
  }

  lemma FitIsTheCut(s: string)
    requires |Encode(s)| > CLAIM_TEXT_PREVIEW_LEN
    ensures IsCut(Encode(s), |Encode(s[..Fit(s, CLAIM_TEXT_PREVIEW_LEN)])|)
  {
    var k := Fit(s, CLAIM_TEXT_PREVIEW_LEN);
    var cut := |Encode(s[..k])|;
    FitIsLongest(s, CLAIM_TEXT_PREVIEW_LEN);
    BoundariesAround(s, k, 0);
    forall i: nat | cut < i <= CLAIM_TEXT_PREVIEW_LEN ensures !IsCharBoundary(Encode(s), i) {
      BoundariesAround(s, k, i - cut);
    }
  }

  /** What stands before the cut, followed by the ellipsis, is the preview. */
  lemma CutIsThePreview(s: string)
    requires |Encode(s)| > CLAIM_TEXT_PREVIEW_LEN
    ensures var cut := |Encode(s[..Fit(s, CLAIM_TEXT_PREVIEW_LEN)])|;
            cut <= |Encode(s)| && Encode(s)[..cut] + Encode(ELLIPSIS) == Encode(Preview(s))
  {
    var k := Fit(s, CLAIM_TEXT_PREVIEW_LEN);
    PrefixBytes(s, k);
    EncodeConcat(s[..k], ELLIPSIS);
  }

  /**
   The byte loop of the source, over every well-formed text. It never leaves the text, stops after
   at most three steps, and its result is the encoding of the character-level preview.
   */
  method ClaimPreview(raw: seq<Byte>) returns (out: seq<Byte>, steps: nat)
    requires WellFormed(raw)
    ensures out == Encode(Preview(Decode(raw)))
    ensures steps <= 3
    ensures |raw| <= CLAIM_TEXT_PREVIEW_LEN ==> out == raw && steps == 0
  {
    DecodeEncode(raw);
    if |raw| <= CLAIM_TEXT_PREVIEW_LEN {
      return raw, 0;
    }
    ghost var cut := PreviewCut(raw);
    var end;
    end, steps := StepBack(raw, cut);
    out := raw[..end] + Encode(ELLIPSIS);
  }

  /** From the limit back to the cut. */
  method StepBack(raw: seq<Byte>, ghost cut: nat) returns (end: nat, steps: nat)
    requires IsCut(raw, cut)
    ensures end == cut && steps == CLAIM_TEXT_PREVIEW_LEN - cut
  {
    end, steps := CLAIM_TEXT_PREVIEW_LEN, 0;
    while !IsCharBoundary(raw, end)
      invariant cut <= end <= CLAIM_TEXT_PREVIEW_LEN
      invariant steps == CLAIM_TEXT_PREVIEW_LEN - end
      decreases end
    {
      end := end - 1;
      steps := steps + 1;
    }
  }

  lemma PreviewCut(raw: seq<Byte>) returns (cut: nat)
    requires WellFormed(raw) && |raw| > CLAIM_TEXT_PREVIEW_LEN
    ensures IsCut(raw, cut) && raw[..cut] + Encode(ELLIPSIS) == Encode(Preview(Decode(raw)))
  {
    var s := Decode(raw);
    DecodeEncode(raw);
    FitIsTheCut(s);
    CutIsThePreview(s);
    cut := |Encode(s[..Fit(s, CLAIM_TEXT_PREVIEW_LEN)])|;
  }

  /** The preview in so many words: at most 80 bytes as they are, else the most characters that fit and an ellipsis. */
  lemma PreviewMeaning(s: string)
    ensures |Encode(s)| <= 80 ==> Preview(s) == s
    ensures |Encode(s)| > 80 ==>
              exists k :: 0 <= k < |s| && Preview(s) == s[..k] + "\U{2026}" &&
                          |Encode(s[..k])| <= 80 < |Encode(s[..k + 1])|
  {
    FitIsLongest(s, CLAIM_TEXT_PREVIEW_LEN);
  }
}
