/** Unwrapping a Markdown-fenced payload before it is parsed. */
module Fences {
  import opened Text

  const FENCE := "```"

  function StripMarkdownFences(content: string): string { Unwrap(Trim(content)) }

  function Unwrap(trimmed: string): string
  {
    if !StartsWith(trimmed, FENCE) then trimmed
    else
      var rest := trimmed[|FENCE|..];
      if !EndsWith(rest, FENCE) then trimmed else DropInfo(rest[..|rest| - |FENCE|])
  }

  /** Drop the info string on the opening fence line, if that line has no inner space. */
  function DropInfo(inner: string): string
  {
    var newline := IndexOf(inner, '\n');
    if newline < |inner| && ' ' !in Trim(inner[..newline]) then Trim(inner[newline + 1..]) else Trim(inner)
  }

  /** A text the stripper treats as one fenced block. */
  predicate Delimited(text: string)
  {
    StartsWith(text, FENCE) && EndsWith(text[|FENCE|..], FENCE)
  }

  /** A body wrapped the way models wrap it: an opening fence line with an info string, and a closing fence. */
  function Wrap(info: string, body: string): string { FENCE + info + "\n" + body + FENCE }

  lemma TrimIdempotent(s: string)
    ensures Trim(Trim(s)) == Trim(s)
  {
    assert "" + Trim(s) + "" == Trim(s);
    TrimIs("", Trim(s), "");
  }

  lemma TrimIsNoLonger(s: string)
    ensures |Trim(s)| <= |s|
  {
  }

  lemma DropInfoIsNoLonger(inner: string)
    ensures |DropInfo(inner)| <= |inner|
  {
    var newline := IndexOf(inner, '\n');
    TrimIsNoLonger(inner);
    if newline < |inner| { TrimIsNoLonger(inner[newline + 1..]); }
  }

  lemma UnwrappingShortens(text: string)
    ensures Unwrap(text) == text <==> !Delimited(text)
  {
    if Delimited(text) {
      var rest := text[|FENCE|..];
      DropInfoIsNoLonger(rest[..|rest| - |FENCE|]);
    }
  }

  /** Text is only trimmed exactly when it does not both start and end with a fence. */
  lemma OnlyTrimmedIff(content: string)
    ensures StripMarkdownFences(content) == Trim(content) <==> !Delimited(Trim(content))
  {
    UnwrappingShortens(Trim(content));
  }

  /** Two fenced blocks are unwrapped as if they were one, with the fences between them left inside. */
  lemma TwoBlocksAreUnwrapped(a: string, b: string)
    ensures StripMarkdownFences(Wrap("", a) + "\n" + Wrap("", b)) == Trim(a + FENCE + "\n" + FENCE + "\n" + b)
  {
    var body := a + FENCE + "\n" + FENCE + "\n" + b;
    var whole := Wrap("", a) + "\n" + Wrap("", b);
    assert whole == Wrap("", body);
    assert "" + whole + "" == whole;
    assert Trim("") == "";
    StripWrapped("", "", body, "");
  }

  lemma UnwrapBlock(inner: string)
    ensures Unwrap(FENCE + inner + FENCE) == DropInfo(inner)
  {
    var w := FENCE + inner + FENCE;
    assert w[..|FENCE|] == FENCE;
    assert w[|FENCE|..] == inner + FENCE;
  }

  lemma FirstLine(info: string, body: string)
    requires '\n' !in info
    ensures IndexOf(info + "\n" + body, '\n') == |info|
    ensures (info + "\n" + body)[..|info|] == info && (info + "\n" + body)[|info| + 1..] == body
  {
    var inner := info + "\n" + body;
    var newline := IndexOf(inner, '\n');
    assert inner[|info|] == '\n';
  }

  lemma DropInfoLine(info: string, body: string)
    requires '\n' !in info
    ensures DropInfo(info + "\n" + body) == if ' ' in Trim(info) then Trim(info + "\n" + body) else Trim(body)
  {
    FirstLine(info, body);
  }

  lemma WrappedIsTight(left: string, info: string, body: string, right: string)
    requires Blank(left) && Blank(right)
    ensures Trim(left + Wrap(info, body) + right) == Wrap(info, body)
  {
    var w := Wrap(info, body);
    assert w[0] == FENCE[0] && w[|w| - 1] == FENCE[2];
    TrimIs(left, w, right);
  }

  /** What stripping does to a wrapped body, with any blank margins around the block. */
  lemma StripWrapped(left: string, info: string, body: string, right: string)
    requires Blank(left) && Blank(right) && '\n' !in info
    ensures StripMarkdownFences(left + Wrap(info, body) + right) ==
            if ' ' in Trim(info) then Trim(info + "\n" + body) else Trim(body)
  {
    var w, inner := Wrap(info, body), info + "\n" + body;
    assert w == FENCE + inner + FENCE;
    WrappedIsTight(left, info, body, right);
    UnwrapBlock(inner);
    DropInfoLine(info, body);
  }

  /** A delimited text on one line has no info string to drop: what stands between the fences is trimmed. */
  lemma StripOneLine(left: string, inner: string, right: string)
    requires Blank(left) && Blank(right) && '\n' !in inner
    ensures StripMarkdownFences(left + (FENCE + inner + FENCE) + right) == Trim(inner)
  {
    var w := FENCE + inner + FENCE;
    assert w[0] == FENCE[0] && w[|w| - 1] == FENCE[2];
    TrimIs(left, w, right);
    UnwrapBlock(inner);
  }

  /** One of the two covers every delimited text: its inside has no newline, or is a line and the rest. */
  lemma DelimitedIsOneOfTwo(text: string)
    requires Delimited(text)
    ensures exists inner :: text == FENCE + inner + FENCE && ('\n' !in inner || HasFirstLine(inner))
  {
    var inner := text[|FENCE|..|text| - |FENCE|];
    assert text == FENCE + inner + FENCE;
    if '\n' in inner { SplitsAtNewline(inner); }
  }

  ghost predicate HasFirstLine(inner: string)
  {
    exists info, body :: '\n' !in info && inner == info + "\n" + body
  }

  lemma SplitsAtNewline(inner: string)
    requires '\n' in inner
    ensures HasFirstLine(inner)
  {
    var n := IndexOf(inner, '\n');
    var info, body := inner[..n], inner[n + 1..];
    assert '\n' !in info && inner == info + "\n" + body;
  }

  /** Trimming text that follows a visible line keeps that line, so the result outgrows the trimmed body. */
  lemma TrimKeepsVisibleHead(info: string, body: string)
    requires Trim(info) != []
    ensures |Trim(info + "\n" + body)| > |Trim(body)|
  {
    var bl, br := TrimSplits(body);
    VisibleHeadOver(info, bl, Trim(body), br);
  }

  lemma VisibleHeadOver(info: string, bl: string, tail: string, br: string)
    requires Trim(info) != [] && Blank(bl) && Blank(br) && (tail == [] || Tight(tail))
    ensures |Trim(info + "\n" + (bl + tail + br))| > |tail|
  {
    if tail == [] {
      BlankConcat(bl, tail);
      BlankConcat(bl + tail, br);
      BlankTail(info, bl + tail + br);
    } else {
      SpanOver(info, bl, tail, br);
    }
  }

  lemma SpanOver(info: string, bl: string, tail: string, br: string)
    requires Trim(info) != [] && Tight(tail) && Blank(br)
    ensures |Trim(info + "\n" + (bl + tail + br))| > |tail|
  {
    var l, r := TrimSplits(info);
    VisibleSpan(l, Trim(info), r, bl, tail, br);
  }

  lemma VisibleSpan(l: string, head: string, r: string, bl: string, tail: string, br: string)
    requires Blank(l) && Tight(head) && Tight(tail) && Blank(br)
    ensures |Trim((l + head + r) + "\n" + (bl + tail + br))| > |tail|
  {
    TrimSpans(l, head, r, "\n" + bl, tail, br);
    Stretch(l + head + r, bl, tail, br);
  }

  lemma BlankTail(info: string, body: string)
    requires Trim(info) != [] && Blank(body)
    ensures Trim(info + "\n" + body) != []
  {
    BlankConcat("\n", body);
    HeadOverBlank(info, "\n" + body);
    assert info + "\n" + body == info + ("\n" + body);
  }

  lemma HeadOverBlank(info: string, blank: string)
    requires Trim(info) != [] && Blank(blank)
    ensures Trim(info + blank) != []
  {
    assert "" + info + blank == info + blank;
    TrimIgnoresMargins("", info, blank);
  }

  lemma Stretch(info: string, bl: string, tail: string, br: string)
    ensures info + "\n" + (bl + tail + br) == info + ("\n" + bl) + tail + br
  {
  }

  /** Between two visible stretches trimming removes nothing. */
  lemma TrimSpans(l: string, head: string, r: string, gap: string, tail: string, right: string)
    requires Blank(l) && Tight(head) && Tight(tail) && Blank(right)
    ensures |Trim((l + head + r) + gap + tail + right)| > |tail|
  {
    var core := head + (r + gap) + tail;
    assert core[0] == head[0] && core[|core| - 1] == tail[|tail| - 1];
    Spread(l, head, r, gap, tail, right);
    TrimIs(l, core, right);
  }

  lemma Spread(l: string, h: string, r: string, gap: string, t: string, right: string)
    ensures (l + h + r) + gap + t + right == l + (h + (r + gap) + t) + right
  {
  }

  /**
   Fence transparency: a body that is not itself a fenced block strips to the same text bare and
   wrapped exactly when the info string has no inner space.
   */
  lemma FenceTransparency(left: string, info: string, body: string, right: string)
    requires Blank(left) && Blank(right) && '\n' !in info
    requires !Delimited(Trim(body))
    ensures StripMarkdownFences(left + Wrap(info, body) + right) == StripMarkdownFences(body) <==> ' ' !in Trim(info)
  {
    StripWrapped(left, info, body, right);
    OnlyTrimmedIff(body);
    if ' ' in Trim(info) {
      TrimKeepsVisibleHead(info, body);
    }
  }

  /** Stripping sees through blank margins. */
  lemma StripIgnoresTrim(content: string)
    ensures StripMarkdownFences(Trim(content)) == StripMarkdownFences(content)
  {
    TrimIdempotent(content);
  }
}
