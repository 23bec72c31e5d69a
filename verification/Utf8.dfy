/**
 UTF-8 text as the source sees it: a Rust `String` is the encoding (section 3 of
 RFC 3629) of a sequence of Unicode scalar values, and byte offsets into it are
 either character boundaries or not.
 */
module Utf8 {
  type Byte = b: int | 0 <= b < 256

  /** Byte length of one character. */
  function Width(c: char): (w: nat)
  {
    if c as int < 0x80 then 1 else if c as int < 0x800 then 2 else if c as int < 0x10000 then 3 else 4
  }

  function EncodeChar(c: char): (bs: seq<Byte>)
    ensures |bs| == Width(c)
  {
    var v := c as int;
    if v < 0x80 then [v]
    else if v < 0x800 then [0xC0 + v / 64, 0x80 + v % 64]
    else if v < 0x10000 then [0xE0 + v / 64 / 64, 0x80 + v / 64 % 64, 0x80 + v % 64]
    else [0xF0 + v / 64 / 64 / 64, 0x80 + v / 64 / 64 % 64, 0x80 + v / 64 % 64, 0x80 + v % 64]
  }

  function Encode(s: string): seq<Byte>
  {
    if s == [] then [] else EncodeChar(s[0]) + Encode(s[1..])
  }

  predicate Tail(b: Byte) { 0x80 <= b <= 0xBF }

  /** Length of the UTF8-char production (section 4 of RFC 3629) at the head of `bs`; 0 when none matches. */
  function HeadLen(bs: seq<Byte>): (n: nat)
    ensures n <= |bs|
  {
    if |bs| >= 1 && bs[0] <= 0x7F then 1
    else if |bs| >= 2 && 0xC2 <= bs[0] <= 0xDF && Tail(bs[1]) then 2
    else if |bs| >= 3 && Tail(bs[2]) &&
      ((bs[0] == 0xE0 && 0xA0 <= bs[1] <= 0xBF) || (0xE1 <= bs[0] <= 0xEC && Tail(bs[1])) ||
       (bs[0] == 0xED && 0x80 <= bs[1] <= 0x9F) || (0xEE <= bs[0] <= 0xEF && Tail(bs[1]))) then 3
    else if |bs| >= 4 && Tail(bs[2]) && Tail(bs[3]) &&
      ((bs[0] == 0xF0 && 0x90 <= bs[1] <= 0xBF) || (0xF1 <= bs[0] <= 0xF3 && Tail(bs[1])) ||
       (bs[0] == 0xF4 && 0x80 <= bs[1] <= 0x8F)) then 4
    else 0
  }

  /** UTF8-octets: the byte strings the grammar of section 4 of RFC 3629 generates. */
  predicate WellFormed(bs: seq<Byte>)
    decreases |bs|
  {
    bs == [] || (HeadLen(bs) > 0 && WellFormed(bs[HeadLen(bs)..]))
  }

  /** The scalar value the first `n` bytes carry. */
  function HeadValue(bs: seq<Byte>, n: nat): (v: int)
    requires n <= |bs|
  {
    if n == 1 then bs[0]
    else if n == 2 then Join(bs[0], 0xC0, bs[1])
    else if n == 3 then Join(Join(bs[0], 0xE0, bs[1]), 0, bs[2])
    else if n == 4 then Join(Join(Join(bs[0], 0xF0, bs[1]), 0, bs[2]), 0, bs[3])
    else 0
  }

  /** Append the six payload bits of a continuation byte. */
  function Join(lead: int, mark: int, tail: int): int { (lead - mark) * 64 + (tail - 0x80) }

  /** A matched production carries a scalar value whose encoding is that production. */
  lemma HeadOne(bs: seq<Byte>)
    requires HeadLen(bs) == 1
    ensures EncodeChar(bs[0] as char) == bs[..1]
  {
  }

  lemma HeadTwo(bs: seq<Byte>)
    requires HeadLen(bs) == 2
    ensures 0x80 <= HeadValue(bs, 2) < 0x800
    ensures EncodeChar(HeadValue(bs, 2) as char) == bs[..2]
  {
    JoinSplits(bs[0], 0xC0, bs[1]);
  }

  lemma HeadThree(bs: seq<Byte>)
    requires HeadLen(bs) == 3
    ensures 0x800 <= HeadValue(bs, 3) < 0xD800 || 0xE000 <= HeadValue(bs, 3) < 0x10000
    ensures EncodeChar(HeadValue(bs, 3) as char) == bs[..3]
  {
    JoinSplits(bs[0], 0xE0, bs[1]);
    JoinSplits(Join(bs[0], 0xE0, bs[1]), 0, bs[2]);
  }

  lemma HeadFour(bs: seq<Byte>)
    requires HeadLen(bs) == 4
    ensures 0x10000 <= HeadValue(bs, 4) < 0x110000
    ensures EncodeChar(HeadValue(bs, 4) as char) == bs[..4]
  {
    var v2 := Join(bs[0], 0xF0, bs[1]);
    var v3 := Join(v2, 0, bs[2]);
    JoinSplits(bs[0], 0xF0, bs[1]);
    JoinSplits(v2, 0, bs[2]);
    JoinSplits(v3, 0, bs[3]);
  }

  lemma JoinSplits(lead: int, mark: int, tail: int)
    requires 0x80 <= tail <= 0xBF && lead >= mark
    ensures Join(lead, mark, tail) / 64 == lead - mark
    ensures Join(lead, mark, tail) % 64 == tail - 0x80
  {
  }

  function DecodeHead(bs: seq<Byte>): (c: char)
    requires HeadLen(bs) > 0
    ensures EncodeChar(c) == bs[..HeadLen(bs)]
  {
    var n := HeadLen(bs);
    if n == 1 then HeadOne(bs); bs[0] as char
    else if n == 2 then HeadTwo(bs); HeadValue(bs, 2) as char
    else if n == 3 then HeadThree(bs); HeadValue(bs, 3) as char
    else HeadFour(bs); HeadValue(bs, 4) as char
  }

  function Decode(bs: seq<Byte>): (s: string)
    requires WellFormed(bs)
    decreases |bs|
  {
    if bs == [] then [] else [DecodeHead(bs)] + Decode(bs[HeadLen(bs)..])
  }

  lemma EncodeThree(v: int, bs: seq<Byte>)
    requires 0x800 <= v < 0xD800 || 0xE000 <= v < 0x10000
    requires |bs| >= 3 && bs[0] == 0xE0 + v / 64 / 64 && bs[1] == 0x80 + v / 64 % 64 && bs[2] == 0x80 + v % 64
    ensures HeadLen(bs) == 3 && HeadValue(bs, 3) == v
  {
  }

  lemma EncodeFour(v: int, bs: seq<Byte>)
    requires 0x10000 <= v < 0x110000
    requires |bs| >= 4 && bs[0] == 0xF0 + v / 64 / 64 / 64 && bs[1] == 0x80 + v / 64 / 64 % 64
    requires bs[2] == 0x80 + v / 64 % 64 && bs[3] == 0x80 + v % 64
    ensures HeadLen(bs) == 4 && HeadValue(bs, 4) == v
  {
  }

  lemma EncodeCharHead(c: char, rest: seq<Byte>)
    ensures HeadLen(EncodeChar(c) + rest) == Width(c)
    ensures DecodeHead(EncodeChar(c) + rest) == c
  {
    var bs, e, v := EncodeChar(c) + rest, EncodeChar(c), c as int;
    assert bs[0] == e[0];
    if v < 0x80 {
    } else if v < 0x800 {
      assert bs[1] == e[1];
    } else if v < 0x10000 {
      assert bs[1] == e[1] && bs[2] == e[2];
      EncodeThree(v, bs);
    } else {
      assert bs[1] == e[1] && bs[2] == e[2] && bs[3] == e[3];
      EncodeFour(v, bs);
    }
  }

  /** The grammar generates exactly the encodings of scalar sequences, and decoding inverts encoding. */
  lemma {:induction false} EncodeDecode(s: string)
    ensures WellFormed(Encode(s)) && Decode(Encode(s)) == s
  {
    if s != [] {
      EncodeDecode(s[1..]);
      EncodeCharHead(s[0], Encode(s[1..]));
      var bs := Encode(s);
      assert bs[Width(s[0])..] == Encode(s[1..]);
      assert s == [s[0]] + s[1..];
    }
  }

  lemma EncodeCons(c: char, t: string)
    ensures Encode([c] + t) == EncodeChar(c) + Encode(t)
  {
    assert ([c] + t)[1..] == t;
  }

  lemma SplitAt<T>(bs: seq<T>, n: nat)
    requires n <= |bs|
    ensures bs[..n] + bs[n..] == bs
  {
  }

  /** The first character's bytes put back in front of the others'. */
  lemma DecodeHeadBack(bs: seq<Byte>)
    requires HeadLen(bs) > 0
    ensures EncodeChar(DecodeHead(bs)) + bs[HeadLen(bs)..] == bs
  {
    SplitAt(bs, HeadLen(bs));
  }

  lemma {:induction false} DecodeEncode(bs: seq<Byte>)
    requires WellFormed(bs)
    ensures Encode(Decode(bs)) == bs
    decreases |bs|
  {
    if bs != [] {
      var rest := bs[HeadLen(bs)..];
      DecodeEncode(rest);
      EncodeCons(DecodeHead(bs), Decode(rest));
      DecodeHeadBack(bs);
    }
  }

  lemma Associate<T>(a: seq<T>, b: seq<T>, c: seq<T>)
    ensures a + (b + c) == a + b + c
  {
  }

  lemma {:induction false} EncodeConcat(a: string, b: string)
    ensures Encode(a + b) == Encode(a) + Encode(b)
  {
    if a == [] {
      assert a + b == b;
    } else {
      EncodeConcat(a[1..], b);
      assert (a + b)[1..] == a[1..] + b;
      Associate(EncodeChar(a[0]), Encode(a[1..]), Encode(b));
    }
  }

  /** `str::is_char_boundary`. */
  predicate IsCharBoundary(bs: seq<Byte>, i: nat)
  {
    i == 0 || i == |bs| || (i < |bs| && !Tail(bs[i]))
  }

  /** Inside the bytes of one character there is no boundary; at its first byte there is. */
  lemma BoundariesAround(s: string, k: nat, j: nat)
    requires k < |s| && j < Width(s[k])
    ensures |Encode(s[..k])| + j < |Encode(s)|
    ensures IsCharBoundary(Encode(s), |Encode(s[..k])| + j) <==> j == 0
    ensures |Encode(s[..k + 1])| == |Encode(s[..k])| + Width(s[k])
  {
    assert s == s[..k] + s[k..];
    EncodeConcat(s[..k], s[k..]);
    assert s[..k + 1] == s[..k] + [s[k]];
    EncodeConcat(s[..k], [s[k]]);
    assert Encode([s[k]]) == EncodeChar(s[k]) + Encode([]);
    assert Encode(s)[|Encode(s[..k])| + j] == Encode(s[k..])[j] == EncodeChar(s[k])[j];
    if k == 0 { assert s[..0] == []; }
  }
}
