/** The end-to-end runner's scenario selector language. */
module Selector {
  import opened Prelude
  import opened Text

  datatype Scenario =
    | SeededCouncil | Deliberate | DeleteMissingCouncil | CausalMetadata | RuntimeExecutor | StrictSchemaRejection
    | ExternalContextBundle | OpenAiStructuredOutput | VllmStructuredOutput | VllmRealMultiAgent | CeremonyDiagram
    | CeremonyVllm | DailyStandup | TechnicalDebate | SprintPlanning | SpeakerTalkQa

  function Number(s: Scenario): (n: nat)
    ensures 1 <= n <= 16
  {
    match s
    case SeededCouncil => 1
    case Deliberate => 2
    case DeleteMissingCouncil => 3
    case CausalMetadata => 4
    case RuntimeExecutor => 5
    case StrictSchemaRejection => 6
    case ExternalContextBundle => 7
    case OpenAiStructuredOutput => 8
    case VllmStructuredOutput => 9
    case VllmRealMultiAgent => 10
    case CeremonyDiagram => 11
    case CeremonyVllm => 12
    case DailyStandup => 13
    case TechnicalDebate => 14
    case SprintPlanning => 15
    case SpeakerTalkQa => 16
  }

  function FromNumber(n: nat): (r: Option<Scenario>)
    ensures r.Some? <==> 1 <= n <= 16
    ensures r.Some? ==> Number(r.value) == n
  {
    match n
    case 1 => Some(SeededCouncil)
    case 2 => Some(Deliberate)
    case 3 => Some(DeleteMissingCouncil)
    case 4 => Some(CausalMetadata)
    case 5 => Some(RuntimeExecutor)
    case 6 => Some(StrictSchemaRejection)
    case 7 => Some(ExternalContextBundle)
    case 8 => Some(OpenAiStructuredOutput)
    case 9 => Some(VllmStructuredOutput)
    case 10 => Some(VllmRealMultiAgent)
    case 11 => Some(CeremonyDiagram)
    case 12 => Some(CeremonyVllm)
    case 13 => Some(DailyStandup)
    case 14 => Some(TechnicalDebate)
    case 15 => Some(SprintPlanning)
    case 16 => Some(SpeakerTalkQa)
    case _ => None
  }

  const ALL := {SeededCouncil, Deliberate, DeleteMissingCouncil, CausalMetadata, RuntimeExecutor, StrictSchemaRejection,
                ExternalContextBundle, OpenAiStructuredOutput, VllmStructuredOutput}
  const CLUSTER_CONNECTIVITY := {SeededCouncil, Deliberate, DeleteMissingCouncil, CausalMetadata}
  const STRUCTURED_OUTPUT :=
    {StrictSchemaRejection, ExternalContextBundle, OpenAiStructuredOutput, VllmStructuredOutput}

  /** Named groups of scenarios. */
  function Group(name: string): Option<set<Scenario>>
  {
    if Suite(name).Some? then Suite(name)
    else if CeremonyAlias(name).Some? then CeremonyAlias(name)
    else if DebateAlias(name).Some? then DebateAlias(name)
    else MeetingAlias(name)
  }

  function Suite(name: string): Option<set<Scenario>>
  {
    if name == "compose" || name == "all" then Some(ALL)
    else if name == "cluster-connectivity" then Some(CLUSTER_CONNECTIVITY)
    else if name == "runtime-stub" then Some({RuntimeExecutor})
    else if name == "structured-output" then Some(STRUCTURED_OUTPUT)
    else if name == "vllm-real" || name == "vllm-real-multi-agent" || name == "council-vllm"
    then Some({VllmRealMultiAgent})
    else None
  }

  function CeremonyAlias(name: string): Option<set<Scenario>>
  {
    if name == "ceremony" || name == "ceremony-diagram" || name == "meeting-ceremony" then Some({CeremonyDiagram})
    else if name == "ceremony-vllm" || name == "meeting-ceremony-vllm" || name == "gemma-ceremony"
    then Some({CeremonyVllm})
    else None
  }

  function DebateAlias(name: string): Option<set<Scenario>>
  {
    if name == "daily-standup" || name == "daily" || name == "standup" then Some({DailyStandup})
    else if name == "technical-debate" || name == "debate" || name == "tech-debate" then Some({TechnicalDebate})
    else None
  }

  function MeetingAlias(name: string): Option<set<Scenario>>
  {
    if name == "sprint-planning" || name == "sprint-plan" || name == "planning" then Some({SprintPlanning})
    else if name == "speaker-talk-qa" || name == "talk-qa" || name == "speaker-qa" then Some({SpeakerTalkQa})
    else None
  }

  function LowerChar(c: char): char { if 'A' <= c <= 'Z' then (c as int + 32) as char else c }

  function Lower(s: string): (r: string)
    ensures |r| == |s| && forall i :: 0 <= i < |s| ==> r[i] == LowerChar(s[i])
  {
    if s == [] then [] else [LowerChar(s[0])] + Lower(s[1..])
  }

  /** `str::parse::<u8>`: an optional plus sign, then digits, within 0..=255. */
  function ParseU8(s: string): Option<nat>
  {
    var digits := if |s| > 1 && s[0] == '+' then s[1..] else s;
    if digits == [] || !(forall c :: c in digits ==> IsDigit(c)) then None
    else if DigitsValue(digits) <= 255 then Some(DigitsValue(digits)) else None
  }

  /** The scenarios numbered `start` to `end`, all of which must exist. */
  function Numbered(start: nat, end: nat): Option<set<Scenario>>
    decreases end + 1 - start
  {
    if start > end then Some({})
    else
      var first, rest := FromNumber(start), Numbered(start + 1, end);
      if first.None? || rest.None? then None else Some({first.value} + rest.value)
  }

  /** A range `a-b` of two numbers; None when the token is not of that form, Some(None) when it is but is refused. */
  function RangeOf(name: string): Option<Option<set<Scenario>>>
  {
    var dash := IndexOf(name, '-');
    if dash == |name| then None
    else
      var start, end := ParseU8(name[..dash]), ParseU8(name[dash + 1..]);
      if start.None? || end.None? then None
      else if start.value > end.value then Some(None)
      else Some(Numbered(start.value, end.value))
  }

  function StripNumberPrefix(name: string): string
  {
    if StartsWith(name, "scenario-") then name[9..] else if StartsWith(name, "s") then name[1..] else name
  }

  /** What a normalised name selects, given the named group it is, if any; None when it is refused. */
  function Interpret(name: string, group: Option<set<Scenario>>): Option<set<Scenario>>
  {
    if group.Some? then group
    else if RangeOf(name).Some? then RangeOf(name).value
    else
      var n := ParseU8(StripNumberPrefix(name));
      if n.None? || FromNumber(n.value).None? then None else Some({FromNumber(n.value).value})
  }

  function Normalize(token: string): string { Lower(Trim(token)) }

  function TokenSelection(token: string): Option<set<Scenario>> { Interpret(Normalize(token), Group(Normalize(token))) }

  predicate IsSeparator(c: char) { c == ',' || IsWhitespace(c) }

  function Flush(word: string): seq<string> { if word == [] then [] else [word] }

  /** The non-empty pieces between separators, with `word` read so far. */
  function TokensFrom(word: string, s: string): seq<string>
    decreases |s|
  {
    if s == [] then Flush(word)
    else if IsSeparator(s[0]) then Flush(word) + TokensFrom([], s[1..])
    else TokensFrom(word + [s[0]], s[1..])
  }

  function Tokens(s: string): seq<string> { TokensFrom([], s) }

  /** The union of what the tokens select; one refused token refuses the whole. */
  function Union(tokens: seq<string>, select: string -> Option<set<Scenario>>): Option<set<Scenario>>
  {
    if tokens == [] then Some({})
    else
      var init, last := Union(tokens[..|tokens| - 1], select), select(tokens[|tokens| - 1]);
      if init.None? || last.None? then None else Some(init.value + last.value)
  }

  function Selected(tokens: seq<string>): Option<set<Scenario>> { Union(tokens, TokenSelection) }

  function Effective(raw: Option<string>): string
  {
    if raw.None? || Trim(raw.value) == [] then "compose" else Trim(raw.value)
  }

  function Selection(raw: Option<string>): Option<set<Scenario>>
  {
    var all := Selected(Tokens(Effective(raw)));
    if all.None? || all.value == {} then None else all
  }

  // ---------- The source's loops ----------

  /** Grows the selection by one token, or refuses. */
  method AddScenarioToken(token: string, selected: set<Scenario>) returns (r: Option<set<Scenario>>)
    ensures r == Grow(selected, TokenSelection(token))
  {
    var name := Normalize(token);
    var group := Group(name);
    if group.Some? {
      return Some(selected + group.value);
    }
    r := AddUngrouped(name, selected);
  }

  function Grow(selected: set<Scenario>, more: Option<set<Scenario>>): Option<set<Scenario>>
  {
    if more.None? then None else Some(selected + more.value)
  }

  method AddUngrouped(name: string, selected: set<Scenario>) returns (r: Option<set<Scenario>>)
    ensures r == Grow(selected, Interpret(name, None))
  {
    var dash := IndexOf(name, '-');
    if dash < |name| {
      var start, end := ParseU8(name[..dash]), ParseU8(name[dash + 1..]);
      if start.Some? && end.Some? {
        if start.value > end.value {
          return None;
        }
        r := AddRange(start.value, end.value, selected);
        return;
      }
    }
    var n := ParseU8(StripNumberPrefix(name));
    if n.None? || FromNumber(n.value).None? {
      return None;
    }
    r := Some(selected + {FromNumber(n.value).value});
  }

  method AddRange(start: nat, end: nat, selected: set<Scenario>) returns (r: Option<set<Scenario>>)
    requires start <= end
    ensures r == Grow(selected, Numbered(start, end))
  {
    NumberedMeaning(start, end);
    var grown := selected;
    var k := start;
    while k <= end
      invariant start <= k <= end + 1
      invariant k > start ==> 1 <= start && k <= 17
      invariant grown == selected + Span(start, k)
    {
      var s := FromNumber(k);
      if s.None? {
        return None;
      }
      SpanStep(start, k);
      grown := grown + {s.value};
      k := k + 1;
    }
    r := Some(grown);
  }

  lemma SpanStep(start: nat, k: nat)
    requires start <= k && FromNumber(k).Some?
    ensures Span(start, k + 1) == Span(start, k) + {FromNumber(k).value}
  {
    forall s | Number(s) == k ensures s == FromNumber(k).value { NumberIsInjective(s, FromNumber(k).value); }
  }

  /** The scenarios numbered from `start` up to, but not including, `end`. */
  ghost function Span(start: nat, end: nat): set<Scenario> { set s: Scenario | start <= Number(s) < end }

  method ParseScenarioSelection(raw: Option<string>) returns (r: Option<set<Scenario>>)
    ensures r == Selection(raw)
  {
    var tokens := Tokens(Effective(raw));
    var selected: set<Scenario> := {};
    for i := 0 to |tokens|
      invariant Selected(tokens[..i]) == Some(selected)
    {
      UnionStep(tokens, i, TokenSelection);
      var grown := AddScenarioToken(tokens[i], selected);
      if grown.None? {
        UnionPrefix(tokens, i + 1, TokenSelection);
        return None;
      }
      selected := grown.value;
    }
    assert tokens[..|tokens|] == tokens;
    r := if selected == {} then None else Some(selected);
  }

  lemma UnionStep(tokens: seq<string>, i: nat, select: string -> Option<set<Scenario>>)
    requires i < |tokens| && Union(tokens[..i], select).Some?
    ensures Union(tokens[..i + 1], select) == Grow(Union(tokens[..i], select).value, select(tokens[i]))
  {
    assert tokens[..i + 1][..i] == tokens[..i];
  }

  lemma {:induction false} UnionPrefix(tokens: seq<string>, n: nat, select: string -> Option<set<Scenario>>)
    requires n <= |tokens| && Union(tokens[..n], select).None?
    ensures Union(tokens, select).None?
    decreases |tokens| - n
  {
    if n == |tokens| {
      assert tokens[..n] == tokens;
    } else {
      assert tokens[..n + 1][..n] == tokens[..n];
      UnionPrefix(tokens, n + 1, select);
    }
  }

  // ---------- Tokens ----------

  lemma {:induction false} TokensSplit(word: string, a: string, sep: char, b: string)
    requires IsSeparator(sep)
    ensures TokensFrom(word, a + [sep] + b) == TokensFrom(word, a) + TokensFrom([], b)
    decreases |a|
  {
    var s := a + [sep] + b;
    if a == [] {
      assert s[0] == sep && s[1..] == b;
    } else {
      assert s[0] == a[0] && s[1..] == a[1..] + [sep] + b;
      if IsSeparator(a[0]) {
        TokensSplit([], a[1..], sep, b);
      } else {
        TokensSplit(word + [a[0]], a[1..], sep, b);
      }
    }
  }

  lemma {:induction false} TokensSkipBlankPrefix(left: string, s: string)
    requires Blank(left)
    ensures Tokens(left + s) == Tokens(s)
  {
    if left == [] {
      assert left + s == s;
    } else {
      assert left[0] in left && (left + s)[0] == left[0] && (left + s)[1..] == left[1..] + s;
      assert forall c :: c in left[1..] ==> c in left;
      TokensSkipBlankPrefix(left[1..], s);
    }
  }

  lemma {:induction false} TokensSkipBlankSuffix(word: string, s: string, right: string)
    requires Blank(right)
    ensures TokensFrom(word, s + right) == TokensFrom(word, s)
    decreases |s|
  {
    if s == [] {
      assert s + right == right;
      if right != [] {
        assert right[0] in right;
        TokensSkipBlankPrefix(right[1..], []);
        assert right[1..] + [] == right[1..];
        assert Flush(word) + [] == Flush(word);
      }
    } else {
      assert (s + right)[0] == s[0] && (s + right)[1..] == s[1..] + right;
      TokensSkipBlankSuffix(if IsSeparator(s[0]) then [] else word + [s[0]], s[1..], right);
    }
  }

  /** Trimming first does not change the tokens. */
  lemma TokensIgnoreMargins(s: string)
    ensures Tokens(Trim(s)) == Tokens(s)
  {
    var l, r := TrimSplits(s);
    assert s == l + (Trim(s) + r);
    TokensSkipBlankPrefix(l, Trim(s) + r);
    TokensSkipBlankSuffix([], Trim(s), r);
  }

  // ---------- Selections are unions ----------

  lemma {:induction false} UnionMeaning(tokens: seq<string>, select: string -> Option<set<Scenario>>, x: Scenario)
    ensures Union(tokens, select).None? <==> exists t :: t in tokens && select(t).None?
    ensures Union(tokens, select).Some? ==>
              (x in Union(tokens, select).value <==> exists t :: t in tokens && select(t).Some? && x in select(t).value)
  {
    if tokens != [] {
      var init, last := tokens[..|tokens| - 1], tokens[|tokens| - 1];
      UnionMeaning(init, select, x);
      assert tokens == init + [last];
    }
  }

  lemma {:induction false} UnionConcat(a: seq<string>, b: seq<string>, select: string -> Option<set<Scenario>>)
    ensures Union(a + b, select) ==
            if Union(a, select).None? || Union(b, select).None? then None
            else Some(Union(a, select).value + Union(b, select).value)
  {
    if b == [] {
      assert a + b == a;
      if Union(a, select).Some? { assert Union(a, select).value + {} == Union(a, select).value; }
    } else {
      var init := b[..|b| - 1];
      assert (a + b)[..|a + b| - 1] == a + init;
      UnionConcat(a, init, select);
      if Union(a + b, select).Some? {
        var x, y, z := Union(a, select).value, Union(init, select).value, select(b[|b| - 1]).value;
        assert x + y + z == x + (y + z);
      }
    }
  }

  lemma SameTokensSameUnion(a: seq<string>, b: seq<string>, select: string -> Option<set<Scenario>>)
    requires forall t :: t in a <==> t in b
    ensures Union(a, select) == Union(b, select)
  {
    UnionMeaning(a, select, SeededCouncil);
    UnionMeaning(b, select, SeededCouncil);
    if Union(a, select).Some? {
      forall x ensures x in Union(a, select).value <==> x in Union(b, select).value {
        UnionMeaning(a, select, x);
        UnionMeaning(b, select, x);
      }
      assert Union(a, select).value == Union(b, select).value;
    }
  }

  lemma UnionIsNotEmpty(tokens: seq<string>, select: string -> Option<set<Scenario>>)
    requires tokens != [] && Union(tokens, select).Some?
    requires select(tokens[0]).Some? ==> select(tokens[0]).value != {}
    ensures Union(tokens, select).value != {}
  {
    var t := tokens[0];
    assert t in tokens;
    UnionMeaning(tokens, select, SeededCouncil);
    var x :| x in select(t).value;
    UnionMeaning(tokens, select, x);
  }

  lemma {:induction false} NumberedMeaning(start: nat, end: nat)
    ensures Numbered(start, end).Some? <==> start > end || (1 <= start && end <= 16)
    ensures Numbered(start, end).Some? ==> Numbered(start, end).value == Span(start, end + 1)
    decreases end + 1 - start
  {
    if start <= end {
      NumberedMeaning(start + 1, end);
      if Numbered(start, end).Some? {
        forall s ensures s in Numbered(start, end).value <==> s in Span(start, end + 1) {
          if Number(s) == start { NumberIsInjective(s, FromNumber(start).value); }
        }
      }
    }
  }

  lemma NumberIsInjective(a: Scenario, b: Scenario)
    requires Number(a) == Number(b)
    ensures a == b
  {
  }

  lemma NamesSelectSomething(name: string)
    requires Interpret(name, None).Some?
    ensures Interpret(name, None).value != {}
  {
    if RangeOf(name).Some? {
      var dash := IndexOf(name, '-');
      var start, end := ParseU8(name[..dash]).value, ParseU8(name[dash + 1..]).value;
      NumberedMeaning(start, end);
      assert FromNumber(start).value in Span(start, end + 1);
    }
  }

  /** An accepted token selects something. */
  lemma TokensSelectSomething(token: string)
    requires TokenSelection(token).Some?
    ensures TokenSelection(token).value != {}
  {
    var name := Normalize(token);
    if Group(name).Some? {
      GroupsAreNotEmpty(name);
    } else {
      NamesSelectSomething(name);
    }
  }

  lemma GroupsAreNotEmpty(name: string)
    requires Group(name).Some?
    ensures Group(name).value != {}
  {
    assert SeededCouncil in ALL && SeededCouncil in CLUSTER_CONNECTIVITY && StrictSchemaRejection in STRUCTURED_OUTPUT;
  }

  lemma EffectiveTokens(s: string)
    requires Tokens(s) != []
    ensures Tokens(Effective(Some(s))) == Tokens(s)
  {
    TokensIgnoreMargins(s);
  }

  /** For a text with a token, the selection is just the union of its tokens' selections. */
  lemma SelectionIsSelected(s: string)
    requires Tokens(s) != []
    ensures Selection(Some(s)) == Selected(Tokens(s))
  {
    EffectiveTokens(s);
    var tokens := Tokens(s);
    if Selected(tokens).Some? {
      if TokenSelection(tokens[0]).Some? { TokensSelectSomething(tokens[0]); }
      UnionIsNotEmpty(tokens, TokenSelection);
    }
  }

  /** Order, repetition and separators do not matter: only the set of tokens does. */
  lemma OnlyTheTokenSetMatters(a: string, b: string)
    requires Tokens(a) != [] && Tokens(b) != []
    requires forall t :: t in Tokens(a) <==> t in Tokens(b)
    ensures Selection(Some(a)) == Selection(Some(b))
  {
    SelectionIsSelected(a);
    SelectionIsSelected(b);
    SameTokensSameUnion(Tokens(a), Tokens(b), TokenSelection);
  }

  /** Selecting `a` and `b` with a comma or white space between them succeeds exactly when both do, to the union. */
  lemma SeparatorIsUnion(a: string, sep: char, b: string)
    requires Tokens(a) != [] && Tokens(b) != [] && (sep == ',' || IsWhitespace(sep))
    ensures var both, x, y := Selection(Some(a + [sep] + b)), Selection(Some(a)), Selection(Some(b));
            && (both.Some? <==> x.Some? && y.Some?)
            && (both.Some? ==> both.value == x.value + y.value)
  {
    TokensSplit([], a, sep, b);
    SelectionIsSelected(a);
    SelectionIsSelected(b);
    SelectionIsSelected(a + [sep] + b);
    UnionConcat(Tokens(a), Tokens(b), TokenSelection);
  }

  // ---------- Names ----------

  /** Written in the form tokens are compared in. */
  predicate Normal(s: string) { s != [] && forall c :: c in s ==> 'a' <= c <= 'z' || IsDigit(c) || c == '-' }

  lemma NormalIsItself(s: string)
    requires Normal(s)
    ensures Normalize(s) == s
  {
    assert s[0] in s && s[|s| - 1] in s;
    assert "" + s + "" == s;
    TrimIs("", s, "");
    NormalIsLower(s);
  }

  lemma NormalIsLower(s: string)
    requires Normal(s)
    ensures Lower(s) == s
  {
    forall i | 0 <= i < |s| ensures Lower(s)[i] == s[i] { assert s[i] in s; }
  }

  lemma SuitesEndInLetters(name: string)
    requires Suite(name).Some?
    ensures name != [] && 'a' <= name[|name| - 1] <= 'z'
  {
  }

  lemma CeremonyNamesEndInLetters(name: string)
    requires CeremonyAlias(name).Some?
    ensures name != [] && 'a' <= name[|name| - 1] <= 'z'
  {
  }

  lemma DebateNamesEndInLetters(name: string)
    requires DebateAlias(name).Some?
    ensures name != [] && 'a' <= name[|name| - 1] <= 'z'
  {
  }

  lemma MeetingNamesEndInLetters(name: string)
    requires MeetingAlias(name).Some?
    ensures name != [] && 'a' <= name[|name| - 1] <= 'z'
  {
  }

  lemma DigitEndedIsNoName(s: string)
    requires s != [] && IsDigit(s[|s| - 1])
    ensures Group(s).None?
  {
    if Suite(s).Some? { SuitesEndInLetters(s); }
    if CeremonyAlias(s).Some? { CeremonyNamesEndInLetters(s); }
    if DebateAlias(s).Some? { DebateNamesEndInLetters(s); }
    if MeetingAlias(s).Some? { MeetingNamesEndInLetters(s); }
  }

  /** The suites, by the numbers of their scenarios. */
  lemma SuiteNames(name: string)
    ensures name == "compose" || name == "all" ==> Group(name) == Some(Span(1, 10))
    ensures name == "cluster-connectivity" ==> Group(name) == Some(Span(1, 5))
    ensures name == "runtime-stub" ==> Group(name) == Some(Span(5, 6))
    ensures name == "structured-output" ==> Group(name) == Some(Span(6, 10))
    ensures name == "vllm-real" || name == "vllm-real-multi-agent" || name == "council-vllm" ==>
              Group(name) == Some(Span(10, 11))
  {
    SuitesAreSpans();
  }

  lemma SuitesAreSpans()
    ensures ALL == Span(1, 10) && CLUSTER_CONNECTIVITY == Span(1, 5) && STRUCTURED_OUTPUT == Span(6, 10)
    ensures {RuntimeExecutor} == Span(5, 6) && {VllmRealMultiAgent} == Span(10, 11)
  {
  }

  lemma SuitesAreNormal(name: string)
    requires Suite(name).Some?
    ensures Normal(name)
  {
    if Suite(name) == Some({VllmRealMultiAgent}) { CouncilNamesAreNormal(name); } else { StackNamesAreNormal(name); }
  }

  lemma CouncilNamesAreNormal(name: string)
    requires name == "vllm-real" || name == "vllm-real-multi-agent" || name == "council-vllm"
    ensures Normal(name)
  {
  }

  lemma StackNamesAreNormal(name: string)
    requires name in {"compose", "all", "cluster-connectivity", "runtime-stub", "structured-output"}
    ensures Normal(name)
  {
  }

  lemma CeremonyNamesAreNormal(name: string)
    requires CeremonyAlias(name).Some?
    ensures Normal(name)
  {
  }

  lemma DebateNamesAreNormal(name: string)
    requires DebateAlias(name).Some?
    ensures Normal(name)
  {
  }

  lemma MeetingNamesAreNormal(name: string)
    requires MeetingAlias(name).Some?
    ensures Normal(name)
  {
  }

  lemma CeremonyNamesAreFirst(name: string)
    requires CeremonyAlias(name).Some?
    ensures Group(name) == CeremonyAlias(name)
  {
  }

  lemma DebateNamesAreFirst(name: string)
    requires DebateAlias(name).Some?
    ensures Group(name) == DebateAlias(name)
  {
  }

  lemma MeetingsAreNoSuites(name: string)
    requires MeetingAlias(name).Some?
    ensures Suite(name).None?
  {
  }

  lemma MeetingsAreNoCeremonies(name: string)
    requires MeetingAlias(name).Some?
    ensures CeremonyAlias(name).None?
  {
  }

  lemma MeetingsAreNoDebates(name: string)
    requires MeetingAlias(name).Some?
    ensures DebateAlias(name).None?
  {
  }

  lemma MeetingNamesAreFirst(name: string)
    requires MeetingAlias(name).Some?
    ensures Group(name) == MeetingAlias(name)
  {
    MeetingsAreNoSuites(name);
    MeetingsAreNoCeremonies(name);
    MeetingsAreNoDebates(name);
  }

  lemma NamesAreNormal(name: string)
    requires Group(name).Some?
    ensures Normal(name)
  {
    if Suite(name).Some? { SuitesAreNormal(name); }
    else if CeremonyAlias(name).Some? { CeremonyNamesAreNormal(name); }
    else if DebateAlias(name).Some? { DebateNamesAreNormal(name); }
    else { MeetingNamesAreNormal(name); }
  }

  /** A name is a token for its group. */
  lemma NamesAreTokens(name: string)
    requires Group(name).Some?
    ensures TokenSelection(name) == Group(name)
  {
    NamesAreNormal(name);
    NormalIsItself(name);
  }

  lemma SinglesAreSpans()
    ensures {CeremonyDiagram} == Span(11, 12) && {CeremonyVllm} == Span(12, 13) && {DailyStandup} == Span(13, 14)
    ensures {TechnicalDebate} == Span(14, 15) && {SprintPlanning} == Span(15, 16) && {SpeakerTalkQa} == Span(16, 17)
  {
  }

  /** The single scenarios that have names. */
  lemma CeremonyNames(name: string)
    ensures name == "ceremony" || name == "ceremony-diagram" || name == "meeting-ceremony" ==>
              Group(name) == Some(Span(11, 12))
    ensures name == "ceremony-vllm" || name == "meeting-ceremony-vllm" || name == "gemma-ceremony" ==>
              Group(name) == Some(Span(12, 13))
  {
    SinglesAreSpans();
    if CeremonyAlias(name).Some? { CeremonyNamesAreFirst(name); }
  }

  lemma DebateNames(name: string)
    ensures name == "daily-standup" || name == "daily" || name == "standup" ==> Group(name) == Some(Span(13, 14))
    ensures name == "technical-debate" || name == "debate" || name == "tech-debate" ==>
              Group(name) == Some(Span(14, 15))
  {
    SinglesAreSpans();
    if DebateAlias(name).Some? { DebateNamesAreFirst(name); }
  }

  lemma MeetingNames(name: string)
    ensures name == "sprint-planning" || name == "sprint-plan" || name == "planning" ==>
              Group(name) == Some(Span(15, 16))
    ensures name == "speaker-talk-qa" || name == "talk-qa" || name == "speaker-qa" ==>
              Group(name) == Some(Span(16, 17))
  {
    SinglesAreSpans();
    if MeetingAlias(name).Some? { MeetingNamesAreFirst(name); }
  }

  lemma {:induction false} TokensOfWord(word: string, s: string)
    requires forall c :: c in s ==> !IsSeparator(c)
    ensures TokensFrom(word, s) == Flush(word + s)
    decreases |s|
  {
    if s == [] {
      assert word + s == word;
    } else {
      assert s[0] in s;
      assert forall c :: c in s[1..] ==> c in s;
      TokensOfWord(word + [s[0]], s[1..]);
      assert word + [s[0]] + s[1..] == word + s;
    }
  }

  /** Nothing selected, or blanks, means the compose suite: scenarios 1 to 9. */
  lemma DefaultIsCompose(raw: Option<string>)
    requires raw.None? || Blank(raw.value)
    ensures Selection(raw) == Some(Span(1, 10))
  {
    if raw.Some? { TrimBlank(raw.value); }
    assert Effective(raw) == "compose";
    ComposeSelects();
  }

  lemma ComposeSelects()
    ensures Selected(Tokens("compose")) == Some(Span(1, 10)) && Span(1, 10) != {}
  {
    TokensOfWord([], "compose");
    assert [] + "compose" == "compose";
    SuiteNames("compose");
    NamesAreTokens("compose");
    UnionOne("compose", TokenSelection);
    assert SeededCouncil in Span(1, 10);
  }

  /** Equal up to the case of ASCII letters. */
  predicate SameLetter(x: char, y: char)
  {
    || x == y
    || ('A' <= x <= 'Z' && y as int == x as int + 32)
    || ('A' <= y <= 'Z' && x as int == y as int + 32)
  }

  predicate SameLetters(a: string, b: string) { |a| == |b| && forall i :: 0 <= i < |a| ==> SameLetter(a[i], b[i]) }

  lemma {:induction false} TrimStartAlike(a: string, b: string)
    requires SameLetters(a, b)
    ensures SameLetters(TrimStart(a), TrimStart(b))
  {
    if a != [] && IsWhitespace(a[0]) {
      assert SameLetter(a[0], b[0]);
      assert forall i :: 0 <= i < |a[1..]| ==> a[1..][i] == a[i + 1] && b[1..][i] == b[i + 1];
      TrimStartAlike(a[1..], b[1..]);
    }
  }

  lemma {:induction false} TrimEndAlike(a: string, b: string)
    requires SameLetters(a, b)
    ensures SameLetters(TrimEnd(a), TrimEnd(b))
  {
    var n := |a| - 1;
    if a != [] && IsWhitespace(a[n]) {
      assert SameLetter(a[n], b[n]);
      TrimEndAlike(a[..n], b[..n]);
    }
  }

  /** The case of a token's letters does not matter. */
  lemma CaseDoesNotMatter(a: string, b: string)
    requires SameLetters(a, b)
    ensures TokenSelection(a) == TokenSelection(b)
  {
    TrimStartAlike(a, b);
    TrimEndAlike(TrimStart(a), TrimStart(b));
    LowerAlike(Trim(a), Trim(b));
  }

  lemma LowerAlike(a: string, b: string)
    requires SameLetters(a, b)
    ensures Lower(a) == Lower(b)
  {
    forall i | 0 <= i < |a| ensures Lower(a)[i] == Lower(b)[i] { assert SameLetter(a[i], b[i]); }
  }

  // ---------- Numbers, ranges and the printed summary ----------

  predicate Digits(s: string) { s != [] && forall c :: c in s ==> IsDigit(c) }

  lemma DigitsParse(s: string)
    requires Digits(s)
    ensures ParseU8(s) == if DigitsValue(s) <= 255 then Some(DigitsValue(s)) else None
    ensures ParseU8("+" + s) == ParseU8(s)
  {
    assert s[0] in s;
    assert ("+" + s)[1..] == s;
  }

  /** A number is read in decimal, with an optional plus sign, up to 255. */
  lemma DecimalParses(n: nat)
    ensures ParseU8(Decimal(n)) == if n <= 255 then Some(n) else None
    ensures ParseU8("+" + Decimal(n)) == ParseU8(Decimal(n))
  {
    DigitsParse(Decimal(n));
    DecimalRoundTrip(n);
  }

  /** What the number `n` selects. */
  function ByNumber(n: nat): Option<set<Scenario>>
  {
    if 1 <= n <= 16 then Some({FromNumber(n).value}) else None
  }

  lemma NumberName(n: nat)
    ensures Interpret(Decimal(n), None) == ByNumber(n)
  {
    var s := Decimal(n);
    assert s[0] in s;
    forall i | 0 <= i < |s| ensures s[i] != '-' { assert s[i] in s; }
    assert IndexOf(s, '-') == |s|;
    assert StripNumberPrefix(s) == s;
    DecimalParses(n);
  }

  lemma DecimalIsNormal(n: nat)
    ensures Normal(Decimal(n)) && IsDigit(Decimal(n)[|Decimal(n)| - 1]) && Digits(Decimal(n))
  {
    var s := Decimal(n);
    assert s[|s| - 1] in s;
  }

  /** A printed number selects the scenario with that number, and is refused when there is none. */
  lemma NumberToken(n: nat)
    ensures TokenSelection(Decimal(n)) == if 1 <= n <= 16 then Some({FromNumber(n).value}) else None
  {
    DecimalIsNormal(n);
    NormalIsItself(Decimal(n));
    DigitEndedIsNoName(Decimal(n));
    NumberName(n);
  }

  lemma ShortPrefixName(n: nat)
    ensures Interpret("s" + Decimal(n), None) == ByNumber(n)
  {
    var d := Decimal(n);
    var s := "s" + d;
    forall i | 0 <= i < |s| ensures s[i] != '-' { if i > 0 { assert s[i] == d[i - 1] && d[i - 1] in d; } }
    assert IndexOf(s, '-') == |s|;
    assert s[1] == d[0] && d[0] in d && "scenario-"[1] == 'c';
    assert !StartsWith(s, "scenario-");
    assert s[1..] == d;
    DecimalParses(n);
  }

  lemma LongPrefixName(n: nat)
    ensures Interpret("scenario-" + Decimal(n), None) == ByNumber(n)
  {
    var d := Decimal(n);
    var s := "scenario-" + d;
    assert s[8] == '-' && s[..8] == "scenario" && s[9..] == d && s[..9] == "scenario-";
    var dash := IndexOf(s, '-');
    assert dash == 8;
    assert ParseU8("scenario").None? by { assert "scenario"[0] in "scenario"; }
    DecimalParses(n);
  }

  /** `s5` and `scenario-5` mean `5`. */
  lemma PrefixedNumberToken(n: nat)
    ensures TokenSelection("s" + Decimal(n)) == TokenSelection(Decimal(n))
    ensures TokenSelection("scenario-" + Decimal(n)) == TokenSelection(Decimal(n))
  {
    NumberToken(n);
    DecimalIsNormal(n);
    NormalPrefix("s", Decimal(n));
    NormalPrefix("scenario-", Decimal(n));
    ShortPrefixName(n);
    LongPrefixName(n);
  }

  lemma NormalPrefix(prefix: string, d: string)
    requires Normal(prefix) && Normal(d) && IsDigit(d[|d| - 1])
    ensures Normalize(prefix + d) == prefix + d && Group(prefix + d).None?
  {
    assert forall c :: c in prefix + d ==> c in prefix || c in d;
    NormalIsItself(prefix + d);
    assert (prefix + d)[|prefix + d| - 1] == d[|d| - 1];
    DigitEndedIsNoName(prefix + d);
  }

  lemma RangeSplits(a: string, b: string)
    requires Digits(a) && Digits(b)
    ensures IndexOf(a + "-" + b, '-') == |a|
    ensures (a + "-" + b)[..|a|] == a && (a + "-" + b)[|a| + 1..] == b
  {
    var s := a + "-" + b;
    assert s[|a|] == '-';
    forall i | 0 <= i < |a| ensures s[i] != '-' {
      assert s[i] == a[i] && a[i] in a;
    }
  }

  lemma DashedIsNoNumber(a: string, b: string)
    requires Digits(a)
    ensures ParseU8(StripNumberPrefix(a + "-" + b)).None?
  {
    var s := a + "-" + b;
    assert s[0] == a[0] && a[0] in a;
    assert "scenario-"[0] == 's' && "s"[0] == 's';
    assert StripNumberPrefix(s) == s;
    assert s[|a|] == '-' && s[|a|] in s && !IsDigit('-');
  }

  lemma RangeName(i: nat, j: nat)
    ensures Interpret(Decimal(i) + "-" + Decimal(j), None) == if 1 <= i <= j <= 16 then Some(Span(i, j + 1)) else None
  {
    RangeSplits(Decimal(i), Decimal(j));
    DecimalParses(i);
    DecimalParses(j);
    NumberedMeaning(i, j);
    DashedIsNoNumber(Decimal(i), Decimal(j));
  }

  /** A printed range selects the scenarios it spans, and is refused unless they all exist. */
  lemma RangeToken(i: nat, j: nat)
    ensures TokenSelection(Decimal(i) + "-" + Decimal(j)) ==
            if 1 <= i <= j <= 16 then Some(Span(i, j + 1)) else None
  {
    DecimalIsNormal(i);
    DecimalIsNormal(j);
    assert forall c :: c in Decimal(i) + "-" ==> c in Decimal(i) || c == '-';
    NormalPrefix(Decimal(i) + "-", Decimal(j));
    RangeName(i, j);
  }

  /** A range is the union of its members. */
  lemma RangeIsUnionOfMembers(i: nat, j: nat, x: Scenario)
    requires 1 <= i <= j <= 16
    ensures TokenSelection(Decimal(i) + "-" + Decimal(j)).Some?
    ensures x in TokenSelection(Decimal(i) + "-" + Decimal(j)).value <==>
            i <= Number(x) <= j && TokenSelection(Decimal(Number(x))) == Some({x})
  {
    RangeToken(i, j);
    NumberToken(Number(x));
    NumberIsInjective(x, FromNumber(Number(x)).value);
  }

  /** The numbers of a selection from `from` upwards, printed, in ascending order. */
  function PrintedFrom(selected: set<Scenario>, from: nat): seq<string>
    decreases 17 - from
  {
    if from > 16 then []
    else
      var s := FromNumber(from);
      (if s.Some? && s.value in selected then [Decimal(from)] else []) + PrintedFrom(selected, from + 1)
  }

  function Join(words: seq<string>): string
  {
    if words == [] then [] else if |words| == 1 then words[0] else words[0] + [','] + Join(words[1..])
  }

  /** The summary printed for a selection. */
  function Summary(selected: set<Scenario>): string { Join(PrintedFrom(selected, 0)) }

  lemma DigitsAreOneWord(s: string)
    requires Digits(s)
    ensures Tokens(s) == [s]
  {
    TokensOfWord([], s);
    assert [] + s == s;
  }

  lemma {:induction false} TokensOfJoin(words: seq<string>)
    requires forall w :: w in words ==> Digits(w)
    ensures Tokens(Join(words)) == words
  {
    if words == [] {
    } else {
      assert words[0] in words;
      DigitsAreOneWord(words[0]);
      assert [] + words[0] == words[0];
      if |words| > 1 {
        assert forall w :: w in words[1..] ==> w in words;
        TokensOfJoin(words[1..]);
        TokensSplit([], words[0], ',', Join(words[1..]));
        assert words == [words[0]] + words[1..];
      } else {
        assert words == [words[0]];
      }
    }
  }

  lemma SelectedOne(n: nat)
    requires 1 <= n <= 16
    ensures Selected([Decimal(n)]) == Some({FromNumber(n).value})
  {
    NumberToken(n);
    UnionOne(Decimal(n), TokenSelection);
  }

  lemma UnionOne(t: string, select: string -> Option<set<Scenario>>)
    ensures Union([t], select) == if select(t).None? then None else Some(select(t).value)
  {
    assert [t][..0] == [];
    if select(t).Some? { assert {} + select(t).value == select(t).value; }
  }

  function AtLeast(selected: set<Scenario>, from: nat): set<Scenario> { set s | s in selected && from <= Number(s) }

  lemma AtLeastStep(selected: set<Scenario>, from: nat)
    ensures AtLeast(selected, from) ==
            (if FromNumber(from).Some? && FromNumber(from).value in selected then {FromNumber(from).value} else {})
            + AtLeast(selected, from + 1)
  {
    forall x | x in selected && Number(x) == from ensures FromNumber(from).Some? && FromNumber(from).value == x {
      NumberIsInjective(x, FromNumber(Number(x)).value);
    }
  }

  lemma {:induction false} PrintedMeaning(selected: set<Scenario>, from: nat)
    ensures Selected(PrintedFrom(selected, from)) == Some(AtLeast(selected, from))
    decreases 17 - from
  {
    if from > 16 {
      assert AtLeast(selected, from) == {};
    } else {
      PrintedMeaning(selected, from + 1);
      AtLeastStep(selected, from);
      var s := FromNumber(from);
      var rest := PrintedFrom(selected, from + 1);
      if s.Some? && s.value in selected {
        SelectedCons(from, rest, AtLeast(selected, from + 1));
      } else {
        assert [] + rest == rest;
        assert {} + AtLeast(selected, from + 1) == AtLeast(selected, from + 1);
      }
    }
  }

  lemma {:induction false} PrintedAreDigits(selected: set<Scenario>, from: nat)
    ensures forall w :: w in PrintedFrom(selected, from) ==> Digits(w)
    decreases 17 - from
  {
    if from <= 16 { PrintedAreDigits(selected, from + 1); }
  }

  lemma SelectedCons(n: nat, rest: seq<string>, others: set<Scenario>)
    requires 1 <= n <= 16 && Selected(rest) == Some(others)
    ensures Selected([Decimal(n)] + rest) == Some({FromNumber(n).value} + others)
  {
    UnionConcat([Decimal(n)], rest, TokenSelection);
    SelectedOne(n);
  }

  /** Parsing the printed summary of any non-empty selection gives that selection back. */
  lemma SummaryRoundTrip(selected: set<Scenario>)
    requires selected != {}
    ensures Selection(Some(Summary(selected))) == Some(selected)
  {
    PrintedAreDigits(selected, 0);
    PrintedMeaning(selected, 0);
    assert AtLeast(selected, 0) == selected;
    TokensOfJoin(PrintedFrom(selected, 0));
    SelectionIsSelected(Summary(selected));
  }

  /** The summary is written with digits and commas only, and its numbers ascend. */
  lemma SummaryIsWritten(selected: set<Scenario>)
    ensures forall c :: c in Summary(selected) ==> IsDigit(c) || c == ','
    ensures Tokens(Summary(selected)) == PrintedFrom(selected, 0)
    ensures Ascending(PrintedFrom(selected, 0), 0)
  {
    PrintedAreDigits(selected, 0);
    JoinIsWritten(PrintedFrom(selected, 0));
    TokensOfJoin(PrintedFrom(selected, 0));
    PrintedAscend(selected, 0);
  }

  /** Printed numbers of at least `from`, in strictly ascending order. */
  predicate Ascending(words: seq<string>, from: nat)
  {
    words == [] || exists n: nat :: from <= n <= 16 && words[0] == Decimal(n) && Ascending(words[1..], n + 1)
  }

  lemma {:induction false} AscendingFrom(words: seq<string>, from: nat, less: nat)
    requires Ascending(words, from) && less <= from
    ensures Ascending(words, less)
  {
  }

  lemma {:induction false} PrintedAscend(selected: set<Scenario>, from: nat)
    ensures Ascending(PrintedFrom(selected, from), from)
    decreases 17 - from
  {
    if from <= 16 {
      PrintedAscend(selected, from + 1);
      var rest := PrintedFrom(selected, from + 1);
      var s := FromNumber(from);
      if s.Some? && s.value in selected {
        assert ([Decimal(from)] + rest)[1..] == rest;
      } else {
        assert [] + rest == rest;
        AscendingFrom(rest, from + 1, from);
      }
    }
  }

  lemma {:induction false} JoinIsWritten(words: seq<string>)
    requires forall w :: w in words ==> Digits(w)
    ensures forall c :: c in Join(words) ==> IsDigit(c) || c == ','
  {
    if words != [] {
      assert words[0] in words;
      assert forall w :: w in words[1..] ==> w in words;
      if |words| > 1 { JoinIsWritten(words[1..]); }
    }
  }
}
