/** Prometheus label values (text exposition format 0.0.4). */
module Labels {
  import opened Prelude

  function EscapeChar(c: char): string
  {
    if c == '\\' then "\\\\" else if c == '\"' then "\\\"" else if c == '\n' then "\\n" else [c]
  }

  function Escape(s: string): string { if s == [] then [] else EscapeChar(s[0]) + Escape(s[1..]) }

  lemma EscapeStep(value: string, i: nat)
    requires i < |value|
    ensures Escape(value[i..]) == EscapeChar(value[i]) + Escape(value[i + 1..])
  {
    assert value[i..][1..] == value[i + 1..];
  }

  lemma Associate(a: string, b: string, c: string)
    ensures a + (b + c) == a + b + c
  {
  }

  /** The source's loop, appending to an output buffer. */
  method EscapeLabelValue(value: string) returns (out: string)
    ensures out == Escape(value)
  {
    out := "";
    for i := 0 to |value|
      invariant Escape(value) == out + Escape(value[i..])
    {
      EscapeStep(value, i);
      var piece;
      match value[i] {
        case '\\' => piece := "\\\\";
        case '\"' => piece := "\\\"";
        case '\n' => piece := "\\n";
        case other => piece := [other];
      }
      Associate(out, piece, Escape(value[i + 1..]));
      out := out + piece;
    }
    assert value[|value|..] == [];
  }

  /**
   A reader of the format, standing after the opening quote: it undoes the three escapes, stops at
   the first unescaped quote, and refuses raw newlines, unknown escapes and unterminated values.
   */
  function ReadQuoted(text: string): Option<(string, string)>
  {
    if text == [] || text[0] == '\n' then None
    else if text[0] == '\"' then Some(([], text[1..]))
    else if text[0] != '\\' then Prepend(text[0], ReadQuoted(text[1..]))
    else if |text| < 2 then None
    else if text[1] == '\\' || text[1] == '\"' then Prepend(text[1], ReadQuoted(text[2..]))
    else if text[1] == 'n' then Prepend('\n', ReadQuoted(text[2..]))
    else None
  }

  function Prepend(c: char, r: Option<(string, string)>): Option<(string, string)>
  {
    if r.None? then None else Some(([c] + r.value.0, r.value.1))
  }

  /** Each escaped character is read back as itself. */
  lemma ReadEscaped(c: char, tail: string)
    ensures ReadQuoted(EscapeChar(c) + tail) == Prepend(c, ReadQuoted(tail))
  {
    var text := EscapeChar(c) + tail;
    if c == '\\' || c == '\"' || c == '\n' {
      assert text[0] == '\\' && text[1] == EscapeChar(c)[1];
      assert text[2..] == tail;
    } else {
      assert text[0] == c && text[1..] == tail;
    }
  }

  /** Reading a rendered label gives back its value and stops exactly at the closing quote, whatever follows. */
  lemma {:induction false} ReadRendered(value: string, rest: string)
    ensures ReadQuoted(Escape(value) + "\"" + rest) == Some((value, rest))
  {
    if value == [] {
      assert (Escape(value) + "\"" + rest)[1..] == rest;
    } else {
      ReadRendered(value[1..], rest);
      var tail := Escape(value[1..]) + "\"" + rest;
      assert EscapeChar(value[0]) + Escape(value[1..]) + "\"" + rest == EscapeChar(value[0]) + tail;
      ReadEscaped(value[0], tail);
      assert value == [value[0]] + value[1..];
    }
  }

  /** A rendered value never breaks its line, and distinct values never render alike. */
  lemma {:induction false} RenderedIsOneLine(value: string)
    ensures '\n' !in Escape(value)
  {
    if value != [] { RenderedIsOneLine(value[1..]); }
  }

  lemma EscapeIsInjective(a: string, b: string)
    requires Escape(a) == Escape(b)
    ensures a == b
  {
    ReadRendered(a, []);
    ReadRendered(b, []);
  }
}
